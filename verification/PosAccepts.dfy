/**
 When a checkout or a refund is accepted, written out over the request's own lines and the tables' rows.
 */
module PosAccepts {
  import opened Prelude
  import opened PosLedger
  import opened PosStock
  import opened PosTxn
  import PosSerial
  import PosKeys
  import opened PosRefunds

  // ----- Quantities of lines -----

  /** What lines ask for at one SKU, warehouse and bin. */
  function QtyAt(lines: seq<CartLine>, code: Code): nat {
    if lines == [] then 0
    else QtyAt(lines[..|lines| - 1], code) + if lines[|lines| - 1].code == code then lines[|lines| - 1].qty else 0
  }

  /** The code names this place: its item, and the bin of that code in that warehouse. */
  predicate Names(c: Catalog, code: Code, p: Place) {
    && code.sku in c.items && p.item == c.items[code.sku].id
    && code.warehouse in c.warehouses && p.warehouse == c.warehouses[code.warehouse]
    && (p.warehouse, code.bin) in c.bins && p.bin == c.bins[(p.warehouse, code.bin)]
  }

  ghost predicate Known(c: Catalog, code: Code) {
    exists p :: Names(c, code, p)
  }

  /** What lines ask for at one place. */
  function QtyIn(c: Catalog, lines: seq<CartLine>, p: Place): nat {
    if lines == [] then 0
    else QtyIn(c, lines[..|lines| - 1], p) + if Names(c, lines[|lines| - 1].code, p) then lines[|lines| - 1].qty else 0
  }

  lemma ResolveNames(c: Catalog, code: Code, p: Place)
    ensures Resolve(c, code) == Some(p) <==> Names(c, code, p)
  {}

  lemma ResolveKnown(c: Catalog, code: Code)
    ensures Resolve(c, code).Some? <==> Known(c, code)
  {
    if Resolve(c, code).Some? { ResolveNames(c, code, Resolve(c, code).value); }
    if p :| Names(c, code, p) { ResolveNames(c, code, p); }
  }

  lemma {:induction false} TotalsOfLines(c: Catalog, lines: seq<CartLine>, code: Code, p: Place)
    requires AllResolve(c, lines)
    ensures Total(Moves(c, lines), AtCode(code)) == QtyAt(lines, code)
    ensures Total(Moves(c, lines), AtPlace(p)) == QtyIn(c, lines, p)
  {
    if lines != [] {
      var n := |lines| - 1;
      TotalsOfLines(c, lines[..n], code, p);
      assert Moves(c, lines)[..n] == Moves(c, lines[..n]);
      assert Resolve(c, lines[n].code).Some?;
      ResolveNames(c, lines[n].code, p);
    }
  }

  lemma {:induction false} QtyAtSome(lines: seq<CartLine>, k: nat)
    requires k < |lines|
    ensures lines[k].qty <= QtyAt(lines, lines[k].code)
  {
    if k < |lines| - 1 { QtyAtSome(lines[..|lines| - 1], k); }
  }

  lemma {:induction false} QtyAtNone(lines: seq<CartLine>, code: Code)
    requires QtyAt(lines, code) > 0
    ensures exists k | 0 <= k < |lines| :: lines[k].code == code
  {
    if lines[|lines| - 1].code != code { QtyAtNone(lines[..|lines| - 1], code); }
  }

  lemma {:induction false} SoldOfSome(c: Catalog, lines: seq<CartLine>, item: nat)
    requires SoldOf(c, lines, item) > 0
    ensures exists k | 0 <= k < |lines| :: lines[k].code.sku in c.items && c.items[lines[k].code.sku].id == item
  {
    var sku := lines[|lines| - 1].code.sku;
    if !(sku in c.items && c.items[sku].id == item) { SoldOfSome(c, lines[..|lines| - 1], item); }
  }

  // ----- Refunds -----

  /** No location is asked beyond what the sale took from it. */
  ghost predicate WithinLocations(sold: seq<CartLine>, asked: seq<CartLine>) {
    forall code :: QtyAt(asked, code) <= QtyAt(sold, code)
  }

  /** No item asked for is credited beyond what the sale sold of it, earlier credit counted. */
  ghost predicate WithinRemainder(c: Catalog, orders: seq<Order>, o: nat, sold: seq<CartLine>, asked: seq<CartLine>) {
    forall item: nat | SoldOf(c, asked, item) > 0 ::
      Credited(orders, o, item) + SoldOf(c, asked, item) <= SoldOf(c, sold, item)
  }

  lemma LocationsIff(c: Catalog, sold: seq<CartLine>, asked: seq<CartLine>)
    requires AllResolve(c, sold) && AllResolve(c, asked) && Counted(asked)
    ensures BeyondLocation(Moves(c, sold), Moves(c, asked)) <==> !WithinLocations(sold, asked)
  {
    var ms, wants := Moves(c, sold), Moves(c, asked);
    forall code
      ensures Total(ms, AtCode(code)) == QtyAt(sold, code) && Total(wants, AtCode(code)) == QtyAt(asked, code)
    {
      TotalsOfLines(c, sold, code, Place(0, 0, 0));
      TotalsOfLines(c, asked, code, Place(0, 0, 0));
    }
    forall j | 0 <= j < |sold| ensures ms[j].code == sold[j].code {}
    if !WithinLocations(sold, asked) {
      var code :| QtyAt(asked, code) > QtyAt(sold, code);
      QtyAtNone(asked, code);
      var k :| 0 <= k < |asked| && asked[k].code == code;
      assert Total(wants, AtCode(wants[k].code)) > Total(ms, AtCode(wants[k].code));
    } else if BeyondLocation(ms, wants) {
      var k :| 0 <= k < |wants| && ((forall j | 0 <= j < |ms| :: ms[j].code != wants[k].code)
                                    || Total(wants, AtCode(wants[k].code)) > Total(ms, AtCode(wants[k].code)));
      QtyAtSome(asked, k);
      assert QtyAt(asked, asked[k].code) <= QtyAt(sold, asked[k].code);
      QtyAtNone(sold, asked[k].code);
    }
  }

  lemma RemainderIff(c: Catalog, orders: seq<Order>, o: nat, sold: seq<CartLine>, asked: seq<CartLine>)
    requires AllResolve(c, sold) && AllResolve(c, asked) && Counted(asked)
    ensures BeyondRemaining(orders, o, Moves(c, sold), Moves(c, asked)) <==> !WithinRemainder(c, orders, o, sold, asked)
  {
    var ms, wants := Moves(c, sold), Moves(c, asked);
    forall item: nat
      ensures Total(ms, OfItem(item)) == SoldOf(c, sold, item) && Total(wants, OfItem(item)) == SoldOf(c, asked, item)
    {
      SoldIsTotal(c, sold, item);
      SoldIsTotal(c, asked, item);
    }
    forall k | 0 <= k < |asked| ensures SoldOf(c, asked, wants[k].place.item) > 0 {
      ResolveNames(c, asked[k].code, wants[k].place);
      SoldCovers(c, asked, k);
    }
    forall item: nat | SoldOf(c, asked, item) > 0 ensures exists k | 0 <= k < |wants| :: wants[k].place.item == item {
      SoldOfSome(c, asked, item);
      var k :| 0 <= k < |asked| && asked[k].code.sku in c.items && c.items[asked[k].code.sku].id == item;
      ResolveNames(c, asked[k].code, wants[k].place);
      assert wants[k].place.item == item;
    }
  }

  predicate HasRow(c: Catalog, rows: seq<Row>, code: Code) {
    exists i | 0 <= i < |rows| :: Names(c, code, rows[i].place)
  }

  /** Every line names a place that has an inventory row. */
  predicate Placed(c: Catalog, rows: seq<Row>, lines: seq<CartLine>) {
    forall k | 0 <= k < |lines| :: HasRow(c, rows, lines[k].code)
  }

  lemma HasRowIff(c: Catalog, rows: seq<Row>, code: Code)
    ensures HasRow(c, rows, code) <==> Resolve(c, code).Some? && FirstRow(rows, Resolve(c, code).value).Some?
  {
    forall i | 0 <= i < |rows| ensures Names(c, code, rows[i].place) <==> Resolve(c, code) == Some(rows[i].place) {
      ResolveNames(c, code, rows[i].place);
    }
  }

  lemma PlacedIff(c: Catalog, rows: seq<Row>, lines: seq<CartLine>)
    ensures Placed(c, rows, lines) <==> AllResolve(c, lines) && Fits(rows, Return, Moves(c, lines))
  {
    forall k | 0 <= k < |lines|
      ensures HasRow(c, rows, lines[k].code) <==>
              Resolve(c, lines[k].code).Some? && FirstRow(rows, Resolve(c, lines[k].code).value).Some?
    {
      HasRowIff(c, rows, lines[k].code);
    }
    if AllResolve(c, lines) {
      var ms := Moves(c, lines);
      forall k | 0 <= k < |lines|
        ensures ms[k].place == Resolve(c, lines[k].code).value
        ensures HasRow(c, rows, lines[k].code) <==> Room(rows, Return, ms[k].place, Total(ms, AtPlace(ms[k].place)))
      {}
    }
  }

  /** An open sale of the point of sale, in the token's scope, at most ninety days old and paid the same way. */
  predicate OpenSale(orders: seq<Order>, scope: set<nat>, now: int, o: nat, tender: Tender) {
    && o < |orders|
    && var x := orders[o];
       && x.pos && x.kind == Sale && x.warehouse in scope && x.status == Shipped && x.refundedAt.None? && x.memo.None?
       && now - x.createdAt <= 90
       && x.audit.Some? && x.audit.value.tender == tender && x.audit.value.lines != []
  }

  lemma OpenSaleIff(scope: set<nat>, now: int, db: Db, req: RefundRequest)
    ensures RefundGate(scope, now, db, req).None? <==> OpenSale(db.orders, scope, now, req.original, req.tender)
  {}

  /** What a request asks back: its own lines, or all of the sale's. */
  function Asked(req: RefundRequest, sold: seq<CartLine>): seq<CartLine> {
    if req.lines.Some? then req.lines.value else sold
  }

  /** A refund is accepted if and only if the sale is open to it, every line sold or asked names a known place, every
      line asked has an inventory row, no location is asked beyond what the sale took from it, and no item beyond what
      is left of it. */
  lemma RefundAcceptedIff(c: Catalog, scope: set<nat>, now: int, db: Db, req: RefundRequest)
    requires req.lines.Some? ==> Counted(req.lines.value)
    requires req.original < |db.orders| && db.orders[req.original].audit.Some? ==>
               forall k | 0 <= k < |db.orders[req.original].audit.value.lines| ::
                 db.orders[req.original].audit.value.lines[k].qty >= 1
    ensures Refund(c, scope, now, db, req).Ok? <==>
              && OpenSale(db.orders, scope, now, req.original, req.tender)
              && var sold := db.orders[req.original].audit.value.lines;
                 var asked := Asked(req, sold);
                 && (forall k | 0 <= k < |sold| :: Known(c, sold[k].code)) && Placed(c, db.rows, asked)
                 && WithinLocations(sold, asked) && WithinRemainder(c, db.orders, req.original, sold, asked)
  {
    OpenSaleIff(scope, now, db, req);
    if OpenSale(db.orders, scope, now, req.original, req.tender) {
      GatedRefundIff(c, scope, now, db, req);
    }
  }

  /** The guards over quantities and rows, in both writings. */
  lemma GuardsIff(c: Catalog, rows: seq<Row>, orders: seq<Order>, o: nat, sold: seq<CartLine>, asked: seq<CartLine>)
    requires Counted(asked) && AllResolve(c, sold) && AllResolve(c, asked)
    ensures !BeyondLocation(Moves(c, sold), Moves(c, asked)) <==> WithinLocations(sold, asked)
    ensures !BeyondRemaining(orders, o, Moves(c, sold), Moves(c, asked)) <==> WithinRemainder(c, orders, o, sold, asked)
    ensures Fits(rows, Return, Moves(c, asked)) <==> Placed(c, rows, asked)
  {
    LocationsIff(c, sold, asked);
    RemainderIff(c, orders, o, sold, asked);
    PlacedIff(c, rows, asked);
  }

  lemma KnownIff(c: Catalog, lines: seq<CartLine>)
    ensures AllResolve(c, lines) <==> forall k | 0 <= k < |lines| :: Known(c, lines[k].code)
  {
    forall k | 0 <= k < |lines| ensures Resolve(c, lines[k].code).Some? <==> Known(c, lines[k].code) {
      ResolveKnown(c, lines[k].code);
    }
  }

  lemma RefundByGuards(c: Catalog, scope: set<nat>, now: int, db: Db, req: RefundRequest)
    requires RefundGate(scope, now, db, req).None?
    ensures var sold := db.orders[req.original].audit.value.lines;
            var asked := Asked(req, sold);
            Refund(c, scope, now, db, req).Ok? <==>
              && AllResolve(c, sold) && AllResolve(c, asked)
              && !(req.lines.Some? && BeyondLocation(Moves(c, sold), Moves(c, asked)))
              && !BeyondRemaining(db.orders, req.original, Moves(c, sold), Moves(c, asked))
              && Fits(db.rows, Return, Moves(c, asked))
  {}

  lemma GatedRefundIff(c: Catalog, scope: set<nat>, now: int, db: Db, req: RefundRequest)
    requires req.lines.Some? ==> Counted(req.lines.value)
    requires RefundGate(scope, now, db, req).None? && Counted(db.orders[req.original].audit.value.lines)
    ensures var sold := db.orders[req.original].audit.value.lines;
            var asked := Asked(req, sold);
            Refund(c, scope, now, db, req).Ok? <==>
              && (forall k | 0 <= k < |sold| :: Known(c, sold[k].code)) && Placed(c, db.rows, asked)
              && WithinLocations(sold, asked) && WithinRemainder(c, db.orders, req.original, sold, asked)
  {
    var sold := db.orders[req.original].audit.value.lines;
    var asked := Asked(req, sold);
    RefundByGuards(c, scope, now, db, req);
    KnownIff(c, sold);
    PlacedIff(c, db.rows, asked);
    if AllResolve(c, sold) && AllResolve(c, asked) { GuardsIff(c, db.rows, db.orders, req.original, sold, asked); }
  }

  // ----- Checkouts -----

  /** The location's first row offers what all lines together ask of it. */
  predicate Offers(c: Catalog, rows: seq<Row>, lines: seq<CartLine>, code: Code) {
    exists i | 0 <= i < |rows| ::
      && Names(c, code, rows[i].place) && (forall j | 0 <= j < i :: rows[j].place != rows[i].place)
      && QtyIn(c, lines, rows[i].place) <= rows[i].onHand - rows[i].reserved
  }

  predicate AllOffered(c: Catalog, rows: seq<Row>, lines: seq<CartLine>) {
    forall k | 0 <= k < |lines| :: Offers(c, rows, lines, lines[k].code)
  }

  lemma OffersIff(c: Catalog, rows: seq<Row>, lines: seq<CartLine>, code: Code)
    ensures Offers(c, rows, lines, code) <==>
              && Resolve(c, code).Some?
              && var p := Resolve(c, code).value;
                 FirstRow(rows, p).Some? && QtyIn(c, lines, p) <= Available(rows[FirstRow(rows, p).value])
  {
    forall i | 0 <= i < |rows| ensures Names(c, code, rows[i].place) <==> Resolve(c, code) == Some(rows[i].place) {
      ResolveNames(c, code, rows[i].place);
    }
  }

  lemma OfferedIff(c: Catalog, rows: seq<Row>, lines: seq<CartLine>, eff: Effect)
    requires eff != Return
    ensures AllOffered(c, rows, lines) <==> AllResolve(c, lines) && Fits(rows, eff, Moves(c, lines))
  {
    forall k | 0 <= k < |lines|
      ensures Offers(c, rows, lines, lines[k].code) <==>
                && Resolve(c, lines[k].code).Some?
                && var p := Resolve(c, lines[k].code).value;
                   FirstRow(rows, p).Some? && QtyIn(c, lines, p) <= Available(rows[FirstRow(rows, p).value])
    {
      OffersIff(c, rows, lines, lines[k].code);
    }
    if AllResolve(c, lines) {
      var ms := Moves(c, lines);
      forall k | 0 <= k < |lines|
        ensures ms[k].place == Resolve(c, lines[k].code).value
        ensures Total(ms, AtPlace(ms[k].place)) == QtyIn(c, lines, ms[k].place)
        ensures Offers(c, rows, lines, lines[k].code) <==>
                Room(rows, eff, ms[k].place, Total(ms, AtPlace(ms[k].place)))
      {
        TotalsOfLines(c, lines, lines[k].code, ms[k].place);
      }
    }
  }

  /** A known SKU of a line of the order. */
  predicate WasOn(c: Catalog, lines: seq<OrderLine>, sku: string) {
    sku in c.items && exists k | 0 <= k < |lines| :: lines[k].item == c.items[sku].id
  }

  lemma {:induction false} BadReturnIff(c: Catalog, parent: seq<OrderLine>, returned: seq<string>)
    ensures BadReturn(c, parent, returned).None? <==> forall k | 0 <= k < |returned| :: WasOn(c, parent, returned[k])
  {
    if returned != [] { BadReturnIff(c, parent, returned[..|returned| - 1]); }
  }

  /** A replacement or exchange has a parent the token can see, and an exchange takes back what was on it. */
  predicate ParentAllows(c: Catalog, scope: set<nat>, orders: seq<Order>, cart: Cart) {
    cart.kind != Sale ==>
      && cart.parent.Some? && cart.parent.value < |orders| && orders[cart.parent.value].warehouse in scope
      && (cart.kind == Exchange ==>
            forall k | 0 <= k < |cart.returned| :: WasOn(c, orders[cart.parent.value].lines, cart.returned[k]))
  }

  /** Every SKU is live, and no line names a warehouse outside the scope. */
  predicate LinesAllowed(c: Catalog, scope: set<nat>, lines: seq<CartLine>) {
    forall k | 0 <= k < |lines| ::
      && lines[k].code.sku in c.items && c.items[lines[k].code.sku].active
      && (lines[k].code.warehouse in c.warehouses ==> c.warehouses[lines[k].code.warehouse] in scope)
  }

  lemma LinesAllowedIff(c: Catalog, scope: set<nat>, lines: seq<CartLine>)
    ensures LinesAllowed(c, scope, lines) <==>
        InScope(c, scope, lines) && forall k | 0 <= k < |lines| :: Live(c, lines[k].code)
  {}

  lemma ParentAllowsIff(c: Catalog, scope: set<nat>, orders: seq<Order>, cart: Cart)
    ensures ParentAllows(c, scope, orders, cart) <==>
            ParentGate(orders, scope, cart).None? && (cart.kind == Sale || ReturnGate(c, orders, cart).None?)
    ensures cart.kind == Sale ==> ReturnGate(c, orders, cart).None?
  {
    if cart.kind == Exchange && cart.parent.Some? && cart.parent.value < |orders| {
      BadReturnIff(c, orders[cart.parent.value].lines, cart.returned);
    }
  }

  lemma CheckoutByGates(c: Catalog, home: Option<nat>, scope: set<nat>, now: int, db: Db, cart: Cart)
    requires cart.lines != []
    ensures Checkout(c, home, scope, now, db, cart).Ok? <==>
              && InScope(c, scope, cart.lines) && (forall k | 0 <= k < |cart.lines| :: Live(c, cart.lines[k].code))
              && ParentGate(db.orders, scope, cart).None? && ReturnGate(c, db.orders, cart).None?
              && if cart.backorder then home.Some?
                 else AllResolve(c, cart.lines) && Fits(db.rows, CartEffect(cart), Moves(c, cart.lines))
  {}

  /** A checkout is accepted if and only if its lines and its parent allow it and, for a backorder, there is a warehouse
      to take it, or else every location's first row offers all that the cart asks of it. */
  lemma CheckoutAcceptedIff(c: Catalog, home: Option<nat>, scope: set<nat>, now: int, db: Db, cart: Cart)
    requires cart.lines != []
    ensures Checkout(c, home, scope, now, db, cart).Ok? <==>
              && LinesAllowed(c, scope, cart.lines) && ParentAllows(c, scope, db.orders, cart)
              && if cart.backorder then home.Some? else AllOffered(c, db.rows, cart.lines)
  {
    CheckoutByGates(c, home, scope, now, db, cart);
    LinesAllowedIff(c, scope, cart.lines);
    ParentAllowsIff(c, scope, db.orders, cart);
    OfferedIff(c, db.rows, cart.lines, CartEffect(cart));
  }

  // ----- What is written -----

  function OrderedIn(lines: seq<OrderLine>, item: nat): int {
    if lines == [] then 0
    else OrderedIn(lines[..|lines| - 1], item) + if lines[|lines| - 1].item == item then lines[|lines| - 1].ordered
        else 0
  }

  lemma {:induction false} LinesOrder(eff: Effect, ms: seq<Move>, item: nat)
    ensures OrderedIn(LinesOf(eff, ms), item) ==
            if eff == Return then 0 - Total(ms, OfItem(item)) else Total(ms, OfItem(item))
  {
    if ms != [] {
      var n := |ms| - 1;
      LinesOrder(eff, ms[..n], item);
      assert LinesOf(eff, ms)[..n] == LinesOf(eff, ms[..n]);
    }
  }

  lemma {:induction false} BackorderOrders(c: Catalog, lines: seq<CartLine>, item: nat)
    requires forall k | 0 <= k < |lines| :: Live(c, lines[k].code)
    ensures OrderedIn(BackorderLines(c, lines), item) == SoldOf(c, lines, item)
    ensures ShippedIn(BackorderLines(c, lines), item) == 0 == HeldIn(BackorderLines(c, lines), item)
  {
    if lines != [] {
      var n := |lines| - 1;
      BackorderOrders(c, lines[..n], item);
      assert BackorderLines(c, lines)[..n] == BackorderLines(c, lines[..n]);
    }
  }

  /** The row is its place's first. */
  predicate IsFirst(rows: seq<Row>, i: nat)
    requires i < |rows|
  {
    forall j | 0 <= j < i :: rows[j].place != rows[i].place
  }

  /** Per item an order's lines carry these quantities. */
  ghost predicate Carries(c: Catalog, x: Order, lines: seq<CartLine>, ordered: int, held: int, shipped: int) {
    forall item: nat ::
      && OrderedIn(x.lines, item) == ordered * SoldOf(c, lines, item)
      && HeldIn(x.lines, item) == held * SoldOf(c, lines, item)
      && ShippedIn(x.lines, item) == shipped * SoldOf(c, lines, item)
  }

  /** Each first row takes what the lines ask of its place, `onHand` and `reserved` times; other rows stay. */
  ghost predicate Shifted(c: Catalog, a: seq<Row>, b: seq<Row>, lines: seq<CartLine>, onHand: int, reserved: int) {
    && |b| == |a|
    && forall i | 0 <= i < |a| ::
         var q := if IsFirst(a, i) then QtyIn(c, lines, a[i].place) else 0;
         b[i].place == a[i].place && b[i].onHand == a[i].onHand + onHand * q
             && b[i].reserved == a[i].reserved + reserved * q
  }

  lemma MovedShifts(c: Catalog, rows: seq<Row>, eff: Effect, lines: seq<CartLine>)
    requires AllResolve(c, lines)
    ensures match eff
      case Ship => Shifted(c, rows, Moved(rows, eff, Moves(c, lines)), lines, -1, 0)
      case Reserve => Shifted(c, rows, Moved(rows, eff, Moves(c, lines)), lines, 0, 1)
      case Return => Shifted(c, rows, Moved(rows, eff, Moves(c, lines)), lines, 1, 0)
  {
    forall i | 0 <= i < |rows|
      ensures Total(Moves(c, lines), AtPlace(rows[i].place)) == QtyIn(c, lines, rows[i].place)
      ensures IsFirst(rows, i) <==> FirstRow(rows, rows[i].place) == Some(i)
    {
      TotalsOfLines(c, lines, Code("", "", ""), rows[i].place);
    }
  }

  lemma MovedCarries(c: Catalog, eff: Effect, lines: seq<CartLine>, x: Order)
    requires AllResolve(c, lines) && x.lines == LinesOf(eff, InLockOrder(Moves(c, lines)))
    ensures match eff
      case Ship => Carries(c, x, lines, 1, 0, 1)
      case Reserve => Carries(c, x, lines, 1, 1, 0)
      case Return => Carries(c, x, lines, -1, 0, -1)
  {
    forall item: nat
      ensures ShippedIn(x.lines, item) == Outflow(eff, SoldOf(c, lines, item))
      ensures HeldIn(x.lines, item) == Hold(eff, SoldOf(c, lines, item))
      ensures OrderedIn(x.lines, item) == if eff == Return then 0 - SoldOf(c, lines, item) else SoldOf(c, lines, item)
    {
      LockedLinesShip(eff, Moves(c, lines), item);
      LinesOrder(eff, InLockOrder(Moves(c, lines)), item);
      LockOrderKeeps(Moves(c, lines), OfItem(item));
      SoldIsTotal(c, lines, item);
    }
  }

  /** What a committed checkout writes: one new order with the sale as its audit; shipped and taken off the shelf
      over the counter, held and reserved by phone, only ordered as a backorder. */
  lemma CheckoutWrites(c: Catalog, home: Option<nat>, scope: set<nat>, now: int, db: Db, cart: Cart) returns (x: Order)
    requires cart.lines != [] && Checkout(c, home, scope, now, db, cart).Ok?
    ensures var d := Checkout(c, home, scope, now, db, cart).db;
            && d.orders == db.orders + [x]
            && x.pos && x.kind == cart.kind && x.createdAt == now && x.refundedAt.None? && x.memo.None?
            && x.audit == Some(Audit(cart.tender, cart.lines))
                && x.parent == (if cart.kind == Sale then None else cart.parent)
            && if cart.backorder then
                 x.status == WaitingStock && Some(x.warehouse) == home && d.rows == db.rows
                     && Carries(c, x, cart.lines, 1, 0, 0)
               else
                 && cart.lines[0].code.warehouse in c.warehouses
                     && x.warehouse == c.warehouses[cart.lines[0].code.warehouse]
                 && if cart.phone then
                      x.status == Open && Shifted(c, db.rows, d.rows, cart.lines, 0, 1)
                          && Carries(c, x, cart.lines, 1, 1, 0)
                    else
                      x.status == Shipped && Shifted(c, db.rows, d.rows, cart.lines, -1, 0)
                          && Carries(c, x, cart.lines, 1, 0, 1)
  {
    x := Checkout(c, home, scope, now, db, cart).db.orders[|db.orders|];
    if cart.backorder {
      forall item: nat
        ensures OrderedIn(x.lines, item) == SoldOf(c, cart.lines, item)
            && ShippedIn(x.lines, item) == 0 == HeldIn(x.lines, item)
      {
        BackorderOrders(c, cart.lines, item);
      }
    } else {
      MovedShifts(c, db.rows, CartEffect(cart), cart.lines);
      MovedCarries(c, CartEffect(cart), cart.lines, x);
    }
  }

  /** What a committed refund writes: a credit memo with the negated quantities, the goods back on their first rows, and
      on the original nothing but the mark of a completed refund. */
  lemma RefundWrites(c: Catalog, scope: set<nat>, now: int, db: Db, req: RefundRequest) returns (x: Order)
    requires Refund(c, scope, now, db, req).Ok?
    ensures req.original < |db.orders| && db.orders[req.original].audit.Some?
    ensures var d, o, n := Refund(c, scope, now, db, req).db, req.original, |db.orders|;
            var asked := Asked(req, db.orders[o].audit.value.lines);
            && |d.orders| == n + 1 && d.orders[n] == x
                && (forall k | 0 <= k < n && k != o :: d.orders[k] == db.orders[k])
            && (d.orders[o] == db.orders[o]
                || d.orders[o] == db.orders[o].(status := Refunded, refundedAt := Some(now), memo := Some(n)))
            && x.pos && x.kind == CreditMemo && x.status == Shipped && x.parent == Some(o) && x.createdAt == now
            && x.warehouse == db.orders[o].warehouse && x.audit.None?
            && Carries(c, x, asked, -1, 0, -1) && Shifted(c, db.rows, d.rows, asked, 1, 0)
  {
    var d := Refund(c, scope, now, db, req).db;
    var asked := Asked(req, db.orders[req.original].audit.value.lines);
    x := d.orders[|db.orders|];
    MovedShifts(c, db.rows, Return, asked);
    MovedCarries(c, Return, asked, x);
  }

  // ----- Runs of interleaved requests -----

  /** Every refund committed in an interleaved run met an open sale and stayed within what each location and each
      item of it had left, at the moment it took effect. */
  lemma CommittedRefundsStayWithin(c: Catalog, home: Option<nat>, start: Db, s: State, k: nat)
    requires Reachable(c, home, start, s) && PosRefunds.Ledger(c, start.orders)
    requires k < |s.applied| && s.applied[k].RefundOp?
    ensures forall j | 0 <= j < |s.applied| :: WellFormed(s.applied[j])
    ensures var op, before := s.applied[k], ApplyAll(c, home, start, s.applied[..k]);
            && OpenSale(before.orders, op.scope, op.now, op.req.original, op.req.tender)
            && var sold := before.orders[op.req.original].audit.value.lines;
               var asked := Asked(op.req, sold);
               && Placed(c, before.rows, asked) && WithinLocations(sold, asked)
               && WithinRemainder(c, before.orders, op.req.original, sold, asked)
  {
    PosSerial.ReachableSerial(c, home, start, s);
    var op, before := s.applied[k], ApplyAll(c, home, start, s.applied[..k]);
    RunsKeepLedger(c, home, start, s.applied[..k]);
    assert Refund(c, op.scope, op.now, before, op.req).Ok?;
    assert SaleOk(c, before.orders, op.req.original);
    RefundAcceptedIff(c, op.scope, op.now, before, op.req);
  }

  /** Every checkout committed in an interleaved run was within its locations' first rows when it took effect. */
  lemma CommittedCheckoutsWereOffered(c: Catalog, home: Option<nat>, start: Db, s: State, k: nat)
    requires Reachable(c, home, start, s) && k < |s.applied| && s.applied[k].CheckoutOp?
    ensures forall j | 0 <= j < |s.applied| :: WellFormed(s.applied[j])
    ensures var op, before := s.applied[k], ApplyAll(c, home, start, s.applied[..k]);
            && LinesAllowed(c, op.scope, op.cart.lines) && ParentAllows(c, op.scope, before.orders, op.cart)
            && (!op.cart.backorder ==> AllOffered(c, before.rows, op.cart.lines))
  {
    PosSerial.ReachableSerial(c, home, start, s);
    var op, before := s.applied[k], ApplyAll(c, home, start, s.applied[..k]);
    assert Checkout(c, home, op.scope, op.now, before, op.cart).Ok?;
    CheckoutAcceptedIff(c, home, op.scope, op.now, before, op.cart);
  }

  /** In every interleaving, what a commit answers and keeps under its key is true of what it has written: the number of
      the new order, and for a refund whether the original is now closed. */
  lemma CommitAnswersTruly(c: Catalog, home: Option<nat>, start: Db, s: State, t: nat)
    requires Reachable(c, home, start, s) && Enabled(s, Commit(t))
    ensures var d, x, n := Take(c, home, s, Commit(t)), s.txns[t].ask, |s.db.orders|;
            && |d.db.orders| == n + 1 && |d.saved| == |s.saved| + 1 && |d.answers| == |s.answers| + 1
            && (x.body.RefundBody? ==> x.body.req.original < n)
            && var reply := match x.body
                 case SaleBody(_) => SaleReply(n)
                 case RefundBody(req) => RefundReply(n, req.original, d.db.orders[req.original].status == Refunded);
               && d.saved[|s.saved|] == Saved(x.key, x.body, Some(reply))
               && d.answers[|s.answers|] == Answer(t, x.key, x.body, Replied(reply))
  {
    PosSerial.ReachableSerial(c, home, start, s);
    var x := s.txns[t];
    assert PosSerial.TxnIntact(c, home, s.db, x);
    if x.ask.body.SaleBody? {
      PosSerial.SalePublishes(c, home, s.db, x);
    } else {
      PosSerial.RefundPublishes(c, home, s.db, x);
      OpenSaleIff(x.ask.scope, x.ask.now, s.db, x.ask.body.req);
    }
    PosKeys.CommitReplyIsTrue(c, home, s, t);
  }
}
