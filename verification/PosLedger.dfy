/**
 The point-of-sale ledger: cart validation, checkout and refund as transitions over inventory rows and orders.
 Stock is gated and moved all at once here; PosTill shows that the handlers' line-by-line loops do the same.
 */
module PosLedger {
  import opened Prelude

  // ----- Catalog -----

  /** What a register sends: SKU, warehouse code, bin code. */
  datatype Code = Code(sku: string, warehouse: string, bin: string)

  datatype CartLine = CartLine(code: Code, qty: nat)

  datatype Item = Item(id: nat, active: bool)

  datatype Catalog = Catalog(items: map<string, Item>, warehouses: map<string, nat>, bins: map<(nat, string), nat>)

  datatype Place = Place(item: nat, warehouse: nat, bin: nat)

  /** A line with its surrogate keys; `number` is its line number on the order. */
  datatype Move = Move(code: Code, place: Place, qty: nat, number: nat)

  function BinOf(c: Catalog, code: Code): Option<nat> {
    if code.warehouse !in c.warehouses then None
    else
      var key := (c.warehouses[code.warehouse], code.bin);
      if key in c.bins then Some(c.bins[key]) else None
  }

  function Resolve(c: Catalog, code: Code): Option<Place> {
    var bin := BinOf(c, code);
    if code.sku !in c.items || bin.None? then None
    else Some(Place(c.items[code.sku].id, c.warehouses[code.warehouse], bin.value))
  }

  predicate Live(c: Catalog, code: Code) {
    code.sku in c.items && c.items[code.sku].active
  }

  predicate AllResolve(c: Catalog, lines: seq<CartLine>) {
    forall k | 0 <= k < |lines| :: Resolve(c, lines[k].code).Some?
  }

  function Moves(c: Catalog, lines: seq<CartLine>): (ms: seq<Move>)
    requires AllResolve(c, lines)
    ensures |ms| == |lines|
  {
    seq(|lines|, k requires 0 <= k < |lines| => Move(lines[k].code, Resolve(c, lines[k].code).value, lines[k].qty,
        k + 1))
  }

  // ----- Totals -----

  function Total(ms: seq<Move>, f: Move -> bool): nat {
    if ms == [] then 0 else Total(ms[..|ms| - 1], f) + if f(ms[|ms| - 1]) then ms[|ms| - 1].qty else 0
  }

  function AtPlace(p: Place): Move -> bool { (m: Move) => m.place == p }

  function OfItem(item: nat): Move -> bool { (m: Move) => m.place.item == item }

  function AtCode(code: Code): Move -> bool { (m: Move) => m.code == code }

  // ----- Inventory -----

  /** Listed in inventory_id order; a location may have several rows, one per lot. */
  datatype Row = Row(place: Place, onHand: int, reserved: int)

  /** The row a checkout or a refund locks: the location's first. */
  function FirstRow(rows: seq<Row>, p: Place): (r: Option<nat>)
    ensures r.Some? ==>
        r.value < |rows| && rows[r.value].place == p && forall j | 0 <= j < r.value :: rows[j].place != p
    ensures r.None? ==> forall j | 0 <= j < |rows| :: rows[j].place != p
  {
    if rows == [] then None
    else
      var r := FirstRow(rows[..|rows| - 1], p);
      if r.Some? then r else if rows[|rows| - 1].place == p then Some(|rows| - 1) else None
  }

  function Available(r: Row): int {
    r.onHand - r.reserved
  }

  /** A counter sale ships, a phone order reserves, a refund returns. */
  datatype Effect = Ship | Reserve | Return

  function Shift(r: Row, eff: Effect, qty: int): Row {
    match eff
    case Ship => r.(onHand := r.onHand - qty)
    case Reserve => r.(reserved := r.reserved + qty)
    case Return => r.(onHand := r.onHand + qty)
  }

  /** Every location's demand, summed over its lines, fits the location's first row. */
  predicate Fits(rows: seq<Row>, eff: Effect, ms: seq<Move>) {
    forall k | 0 <= k < |ms| ::
      var f := FirstRow(rows, ms[k].place);
      f.Some? && (eff == Return || Total(ms, AtPlace(ms[k].place)) <= Available(rows[f.value]))
  }

  function MovedRow(rows: seq<Row>, eff: Effect, ms: seq<Move>, k: nat): Row
    requires k < |rows|
  {
    if FirstRow(rows, rows[k].place) == Some(k) then Shift(rows[k], eff, Total(ms, AtPlace(rows[k].place))) else rows[k]
  }

  function Moved(rows: seq<Row>, eff: Effect, ms: seq<Move>): (r: seq<Row>)
    ensures |r| == |rows|
  {
    seq(|rows|, k requires 0 <= k < |rows| => MovedRow(rows, eff, ms, k))
  }

  /** Lines are locked in (item_id, bin_id) order, ties in cart order. */
  predicate Before(a: Move, b: Move) {
    a.place.item < b.place.item || (a.place.item == b.place.item && a.place.bin <= b.place.bin)
  }

  function Insert(s: seq<Move>, m: Move): seq<Move> {
    if s == [] || Before(s[|s| - 1], m) then s + [m] else Insert(s[..|s| - 1], m) + [s[|s| - 1]]
  }

  function InLockOrder(ms: seq<Move>): seq<Move> {
    if ms == [] then [] else Insert(InLockOrder(ms[..|ms| - 1]), ms[|ms| - 1])
  }

  // ----- Orders -----

  datatype Status = Open | Shipped | WaitingStock | Refunded | OtherStatus

  datatype Kind = Sale | Replacement | Exchange | CreditMemo | OtherKind

  datatype Tender = Card | Cash | Split

  datatype OrderLine = OrderLine(item: nat, number: nat, ordered: int, held: int, shipped: int)

  /** The POS_CHECKOUT audit entry: how the sale was paid and what was sold from where. */
  datatype Audit = Audit(tender: Tender, lines: seq<CartLine>)

  datatype Order = Order(pos: bool, kind: Kind, status: Status, warehouse: nat, createdAt: int, lines: seq<OrderLine>,
                         parent: Option<nat>, refundedAt: Option<int>, memo: Option<nat>, audit: Option<Audit>)

  /** An order's so_id is its index. */
  datatype Db = Db(rows: seq<Row>, orders: seq<Order>)

  function LineOf(eff: Effect, m: Move): OrderLine {
    match eff
    case Ship => OrderLine(m.place.item, m.number, m.qty, 0, m.qty)
    case Reserve => OrderLine(m.place.item, m.number, m.qty, m.qty, 0)
    case Return => OrderLine(m.place.item, m.number, 0 - m.qty, 0, 0 - m.qty)
  }

  function LinesOf(eff: Effect, ms: seq<Move>): seq<OrderLine> {
    seq(|ms|, k requires 0 <= k < |ms| => LineOf(eff, ms[k]))
  }

  function ShippedIn(lines: seq<OrderLine>, item: nat): int {
    if lines == [] then 0
    else ShippedIn(lines[..|lines| - 1], item) + if lines[|lines| - 1].item == item then lines[|lines| - 1].shipped
        else 0
  }

  /** What the credit memos of order `o` have given back of an item. */
  function Credited(orders: seq<Order>, o: nat, item: nat): int {
    if orders == [] then 0
    else
      var x := orders[|orders| - 1];
      Credited(orders[..|orders| - 1], o, item) - if x.kind == CreditMemo && x.parent == Some(o) then
          ShippedIn(x.lines, item) else 0
  }

  // ----- Validate-cart -----

  datatype Reason =
    | SkuNotFound | ItemInactive | WarehouseNotFound | WarehouseNotInScope | BinNotFound
    | InsufficientStock(available: int)

  /** Over every row of the location, not only the first. */
  function AvailableAt(rows: seq<Row>, p: Place): int {
    if rows == [] then 0
    else AvailableAt(rows[..|rows| - 1], p) + if rows[|rows| - 1].place == p then Available(rows[|rows| - 1]) else 0
  }

  function Classify(c: Catalog, scope: set<nat>, rows: seq<Row>, ln: CartLine): Option<Reason> {
    if ln.code.sku !in c.items then Some(SkuNotFound)
    else if !c.items[ln.code.sku].active then Some(ItemInactive)
    else if ln.code.warehouse !in c.warehouses then Some(WarehouseNotFound)
    else if c.warehouses[ln.code.warehouse] !in scope then Some(WarehouseNotInScope)
    else if BinOf(c, ln.code).None? then Some(BinNotFound)
    else
      var available := AvailableAt(rows, Resolve(c, ln.code).value);
      if available < ln.qty then Some(InsufficientStock(available)) else None
  }

  predicate CartAccepted(c: Catalog, scope: set<nat>, rows: seq<Row>, lines: seq<CartLine>) {
    forall k | 0 <= k < |lines| :: Classify(c, scope, rows, lines[k]).None?
  }

  // ----- Checkout -----

  datatype Refusal =
    | OutOfScope | Unresolved | ParentRequired | ParentNotFound | NoBackorderWarehouse | StockShort
    | UnknownReturnedSku | ReturnedNotOnParent
    | OriginalNotFound | AlreadyRefunded | WindowExpired | TenderMismatch | NotInOrder | ExceedsRemaining

  datatype Outcome = Ok(db: Db) | Refused(why: Refusal)

  /** `returned` lists the SKUs an exchange takes back. */
  datatype Cart = Cart(kind: Kind, parent: Option<nat>, phone: bool, backorder: bool, tender: Tender,
        lines: seq<CartLine>,
                       returned: seq<string>)

  predicate InScope(c: Catalog, scope: set<nat>, lines: seq<CartLine>) {
    forall k | 0 <= k < |lines| :: lines[k].code.warehouse in c.warehouses ==>
        c.warehouses[lines[k].code.warehouse] in scope
  }

  predicate ParentVisible(orders: seq<Order>, scope: set<nat>, parent: nat) {
    parent < |orders| && orders[parent].warehouse in scope
  }

  /** Replacements and exchanges need a parent order the token can see. */
  function ParentGate(orders: seq<Order>, scope: set<nat>, cart: Cart): Option<Refusal> {
    if cart.kind == Sale then None
    else if cart.parent.None? then Some(ParentRequired)
    else if !ParentVisible(orders, scope, cart.parent.value) then Some(ParentNotFound)
    else None
  }

  predicate OnOrder(lines: seq<OrderLine>, item: nat) {
    exists k | 0 <= k < |lines| :: lines[k].item == item
  }

  /** The first returned SKU that is unknown, or not on the parent order. */
  function BadReturn(c: Catalog, parent: seq<OrderLine>, returned: seq<string>): Option<Refusal> {
    if returned == [] then None
    else
      var before := BadReturn(c, parent, returned[..|returned| - 1]);
      var sku := returned[|returned| - 1];
      if before.Some? then before
      else if sku !in c.items then Some(UnknownReturnedSku)
      else if !OnOrder(parent, c.items[sku].id) then Some(ReturnedNotOnParent)
      else None
  }

  /** What an exchange takes back must have been on its parent. */
  function ReturnGate(c: Catalog, orders: seq<Order>, cart: Cart): Option<Refusal> {
    if cart.kind != Exchange || cart.parent.None? || cart.parent.value >= |orders| then None
    else BadReturn(c, orders[cart.parent.value].lines, cart.returned)
  }

  function CartEffect(cart: Cart): Effect {
    if cart.phone then Reserve else Ship
  }

  function BackorderLines(c: Catalog, lines: seq<CartLine>): seq<OrderLine>
    requires forall k | 0 <= k < |lines| :: Live(c, lines[k].code)
  {
    seq(|lines|, k requires 0 <= k < |lines|
        && Live(c, lines[k].code) => OrderLine(c.items[lines[k].code.sku].id, k + 1, lines[k].qty, 0, 0))
  }

  function NewOrder(cart: Cart, status: Status, warehouse: nat, now: int, lines: seq<OrderLine>): Order {
    Order(true, cart.kind, status, warehouse, now, lines, if cart.kind == Sale then None else cart.parent,
          None, None, Some(Audit(cart.tender, cart.lines)))
  }

  /** `home` is the configured warehouse for backorders. */
  function Checkout(c: Catalog, home: Option<nat>, scope: set<nat>, now: int, db: Db, cart: Cart): Outcome
    requires cart.lines != []
  {
    if !InScope(c, scope, cart.lines) then Refused(OutOfScope)
    else if exists k | 0 <= k < |cart.lines| :: !Live(c, cart.lines[k].code) then Refused(Unresolved)
    else if !cart.backorder && !AllResolve(c, cart.lines) then Refused(Unresolved)
    else if ParentGate(db.orders, scope, cart).Some? then Refused(ParentGate(db.orders, scope, cart).value)
    else if cart.backorder && home.None? then Refused(NoBackorderWarehouse)
    else if !cart.backorder && !Fits(db.rows, CartEffect(cart), Moves(c, cart.lines)) then Refused(StockShort)
    else if ReturnGate(c, db.orders, cart).Some? then Refused(ReturnGate(c, db.orders, cart).value)
    else if cart.backorder then
      Ok(db.(orders := db.orders + [NewOrder(cart, WaitingStock, home.value, now, BackorderLines(c, cart.lines))]))
    else
      var ms, eff := Moves(c, cart.lines), CartEffect(cart);
      var status := if cart.phone then Open else Shipped;
      var order := NewOrder(cart, status, ms[0].place.warehouse, now, LinesOf(eff, InLockOrder(ms)));
      Ok(Db(Moved(db.rows, eff, ms), db.orders + [order]))
  }

  // ----- Refund -----

  const REFUND_WINDOW_DAYS: int := 90

  /** `lines` absent asks for the whole order back. */
  datatype RefundRequest = RefundRequest(original: nat, tender: Tender, lines: Option<seq<CartLine>>)

  /** The original must be a point-of-sale sale the token can see. */
  predicate Refundable(db: Db, scope: set<nat>, o: nat) {
    o < |db.orders| && db.orders[o].pos && db.orders[o].kind == Sale && db.orders[o].warehouse in scope
  }

  /** Some requested location is not on the sale, or asked for beyond what it sold. */
  predicate BeyondLocation(sold: seq<Move>, asked: seq<Move>) {
    exists k | 0 <= k < |asked| ::
      (forall j | 0 <= j < |sold| :: sold[j].code != asked[k].code)
      || Total(asked, AtCode(asked[k].code)) > Total(sold, AtCode(asked[k].code))
  }

  /** Some requested item would be credited beyond what was sold, counting earlier credit memos. */
  predicate BeyondRemaining(orders: seq<Order>, o: nat, sold: seq<Move>, asked: seq<Move>) {
    exists k | 0 <= k < |asked| ::
      var item := asked[k].place.item;
      Credited(orders, o, item) + Total(asked, OfItem(item)) > Total(sold, OfItem(item))
  }

  predicate Completes(orders: seq<Order>, o: nat, sold: seq<Move>, asked: seq<Move>) {
    forall k | 0 <= k < |sold| ::
      var item := sold[k].place.item;
      Credited(orders, o, item) + Total(asked, OfItem(item)) == Total(sold, OfItem(item))
  }

  function MemoOf(original: Order, o: nat, now: int, asked: seq<Move>): Order {
    Order(true, CreditMemo, Shipped, original.warehouse, now, LinesOf(Return, InLockOrder(asked)), Some(o), None,
        None, None)
  }

  /** The guards before any line is looked at. Times count days. */
  function RefundGate(scope: set<nat>, now: int, db: Db, req: RefundRequest): (r: Option<Refusal>)
    ensures r.None? ==> Refundable(db, scope, req.original) && db.orders[req.original].audit.Some?
  {
    if !Refundable(db, scope, req.original) then Some(OriginalNotFound)
    else
      var original := db.orders[req.original];
      if original.refundedAt.Some? || original.memo.Some? then Some(AlreadyRefunded)
      else if original.status != Shipped then Some(OriginalNotFound)
      else if original.createdAt < now - REFUND_WINDOW_DAYS then Some(WindowExpired)
      else if original.audit.None? then Some(OriginalNotFound)
      else if original.audit.value.tender != req.tender then Some(TenderMismatch)
      else if original.audit.value.lines == [] then Some(OriginalNotFound)
      else None
  }

  function Booked(db: Db, o: nat, now: int, sold: seq<Move>, asked: seq<Move>): Db
    requires o < |db.orders|
  {
    var original := db.orders[o];
    var marked := if Completes(db.orders, o, sold, asked)
      then original.(status := Refunded, refundedAt := Some(now), memo := Some(|db.orders|)) else original;
    Db(Moved(db.rows, Return, asked), db.orders[o := marked] + [MemoOf(original, o, now, asked)])
  }

  function Refund(c: Catalog, scope: set<nat>, now: int, db: Db, req: RefundRequest): Outcome {
    var gate := RefundGate(scope, now, db, req);
    if gate.Some? then Refused(gate.value)
    else
      var soldLines := db.orders[req.original].audit.value.lines;
      var askedLines := if req.lines.Some? then req.lines.value else soldLines;
      if !AllResolve(c, soldLines) then Refused(OriginalNotFound)
      else if !AllResolve(c, askedLines) then Refused(NotInOrder)
      else
        var sold, asked := Moves(c, soldLines), Moves(c, askedLines);
        if req.lines.Some? && BeyondLocation(sold, asked) then Refused(NotInOrder)
        else if BeyondRemaining(db.orders, req.original, sold, asked) then Refused(ExceedsRemaining)
        else if !Fits(db.rows, Return, asked) then Refused(OriginalNotFound)
        else Ok(Booked(db, req.original, now, sold, asked))
  }

  // ----- Runs -----

  datatype Op =
    | CheckoutOp(scope: set<nat>, now: int, cart: Cart)
    | RefundOp(scope: set<nat>, now: int, req: RefundRequest)

  predicate Counted(lines: seq<CartLine>) {
    lines != [] && forall k | 0 <= k < |lines| :: lines[k].qty >= 1
  }

  /** What the request schemas enforce. */
  predicate WellFormed(op: Op) {
    match op
    case CheckoutOp(_, _, cart) => Counted(cart.lines)
        && (cart.kind == Sale || cart.kind == Replacement || cart.kind == Exchange)
    case RefundOp(_, _, req) => req.lines.Some? ==> Counted(req.lines.value)
  }

  function Decide(c: Catalog, home: Option<nat>, db: Db, op: Op): Outcome
    requires WellFormed(op)
  {
    match op
    case CheckoutOp(scope, now, cart) => Checkout(c, home, scope, now, db, cart)
    case RefundOp(scope, now, req) => Refund(c, scope, now, db, req)
  }

  /** A refused request rolls back. */
  function Apply(c: Catalog, home: Option<nat>, db: Db, op: Op): Db
    requires WellFormed(op)
  {
    var r := Decide(c, home, db, op);
    if r.Ok? then r.db else db
  }

  function ApplyAll(c: Catalog, home: Option<nat>, db: Db, ops: seq<Op>): Db
    requires forall k | 0 <= k < |ops| :: WellFormed(ops[k])
  {
    if ops == [] then db else Apply(c, home, ApplyAll(c, home, db, ops[..|ops| - 1]), ops[|ops| - 1])
  }
}
