/**
 What every run of checkouts and refunds keeps: credit never beyond the sale, REFUNDED exactly at full credit,
 stock plus net shipments constant, and a whole-order refund the exact reverse of its sale.
 */
module PosRefunds {
  import opened Prelude
  import opened PosLedger
  import opened PosStock

  // ----- Quantities on orders -----

  /** What a sale's audit lines sold of an item, by SKU. */
  function SoldOf(c: Catalog, lines: seq<CartLine>, item: nat): nat {
    if lines == [] then 0
    else
      var ln := lines[|lines| - 1];
      SoldOf(c, lines[..|lines| - 1], item) + if ln.code.sku in c.items && c.items[ln.code.sku].id == item then
          ln.qty else 0
  }

  lemma {:induction false} SoldIsTotal(c: Catalog, lines: seq<CartLine>, item: nat)
    requires AllResolve(c, lines)
    ensures Total(Moves(c, lines), OfItem(item)) == SoldOf(c, lines, item)
  {
    if lines != [] {
      var n := |lines| - 1;
      SoldIsTotal(c, lines[..n], item);
      assert Moves(c, lines)[..n] == Moves(c, lines[..n]);
      assert Resolve(c, lines[n].code).Some?;
    }
  }

  function HeldIn(lines: seq<OrderLine>, item: nat): int {
    if lines == [] then 0
    else HeldIn(lines[..|lines| - 1], item) + if lines[|lines| - 1].item == item then lines[|lines| - 1].held else 0
  }

  lemma {:induction false} LinesShip(eff: Effect, ms: seq<Move>, item: nat)
    ensures HeldIn(LinesOf(eff, ms), item) == Hold(eff, Total(ms, OfItem(item)))
    ensures ShippedIn(LinesOf(eff, ms), item) == Outflow(eff, Total(ms, OfItem(item)))
  {
    if ms != [] {
      var n := |ms| - 1;
      LinesShip(eff, ms[..n], item);
      assert LinesOf(eff, ms)[..n] == LinesOf(eff, ms[..n]);
    }
  }

  lemma LockedLinesShip(eff: Effect, ms: seq<Move>, item: nat)
    ensures HeldIn(LinesOf(eff, InLockOrder(ms)), item) == Hold(eff, Total(ms, OfItem(item)))
    ensures ShippedIn(LinesOf(eff, InLockOrder(ms)), item) == Outflow(eff, Total(ms, OfItem(item)))
  {
    LinesShip(eff, InLockOrder(ms), item);
    LockOrderKeeps(ms, OfItem(item));
  }

  lemma {:induction false} SoldCovers(c: Catalog, lines: seq<CartLine>, k: nat)
    requires k < |lines| && lines[k].code.sku in c.items
    ensures lines[k].qty <= SoldOf(c, lines, c.items[lines[k].code.sku].id)
  {
    if k < |lines| - 1 { SoldCovers(c, lines[..|lines| - 1], k); }
  }

  lemma {:induction false} TotalNone(ms: seq<Move>, f: Move -> bool)
    requires forall k | 0 <= k < |ms| :: !f(ms[k])
    ensures Total(ms, f) == 0
  {
    if ms != [] { TotalNone(ms[..|ms| - 1], f); }
  }

  // ----- Sums over orders -----

  /** Orders whose lines stand for stock that moved; reference orders carry no checkout audit and are not among them. */
  predicate Books(x: Order) {
    x.pos && (x.kind == CreditMemo || x.audit.Some?)
  }

  function Net(orders: seq<Order>, item: nat): int {
    if orders == [] then 0
    else Net(orders[..|orders| - 1], item) + if Books(orders[|orders| - 1]) then
        ShippedIn(orders[|orders| - 1].lines, item) else 0
  }

  function Held(orders: seq<Order>, item: nat): int {
    if orders == [] then 0
    else Held(orders[..|orders| - 1], item) + if Books(orders[|orders| - 1]) then
        HeldIn(orders[|orders| - 1].lines, item) else 0
  }

  /** An order may only go from SHIPPED to REFUNDED; everything else on it is final. */
  predicate Later(a: Order, b: Order) {
    b == a || (a.status == Shipped && b.status == Refunded
        && b == a.(status := Refunded, refundedAt := b.refundedAt, memo := b.memo))
  }

  lemma {:induction false} SumsIgnoreStatus(orders: seq<Order>, k: nat, x: Order, o: nat, item: nat)
    requires k < |orders| && Later(orders[k], x)
    ensures Credited(orders[k := x], o, item) == Credited(orders, o, item)
    ensures Net(orders[k := x], item) == Net(orders, item) && Held(orders[k := x], item) == Held(orders, item)
  {
    var n := |orders| - 1;
    if k == n {
      assert orders[k := x][..n] == orders[..n];
    } else {
      SumsIgnoreStatus(orders[..n], k, x, o, item);
      assert orders[k := x][..n] == orders[..n][k := x];
    }
  }

  lemma SumsSnoc(orders: seq<Order>, x: Order, o: nat, item: nat)
    ensures Credited(orders + [x], o, item) ==
            Credited(orders, o, item) - if x.kind == CreditMemo && x.parent == Some(o) then ShippedIn(x.lines, item)
                else 0
    ensures Net(orders + [x], item) == Net(orders, item) + if Books(x) then ShippedIn(x.lines, item) else 0
    ensures Held(orders + [x], item) == Held(orders, item) + if Books(x) then HeldIn(x.lines, item) else 0
  {}

  predicate NoMemoOf(orders: seq<Order>, o: nat) {
    forall j | 0 <= j < |orders| :: !(orders[j].kind == CreditMemo && orders[j].parent == Some(o))
  }

  lemma {:induction false} NoMemoNoCredit(orders: seq<Order>, o: nat, item: nat)
    requires NoMemoOf(orders, o)
    ensures Credited(orders, o, item) == 0
  {
    if orders != [] { NoMemoNoCredit(orders[..|orders| - 1], o, item); }
  }

  // ----- Conservation -----

  /** Per item, stock plus net shipments, and reservations less what orders hold, are the same. */
  predicate Balanced(a: Db, b: Db, item: nat) {
    && OnHandOf(a.rows, item) + Net(a.orders, item) == OnHandOf(b.rows, item) + Net(b.orders, item)
    && ReservedOf(a.rows, item) - Held(a.orders, item) == ReservedOf(b.rows, item) - Held(b.orders, item)
  }

  lemma BackorderShipsNothing(lines: seq<OrderLine>, item: nat)
    requires forall k | 0 <= k < |lines| :: lines[k].shipped == 0 == lines[k].held
    ensures ShippedIn(lines, item) == 0 == HeldIn(lines, item)
    decreases |lines|
  {}

  lemma CheckoutConserves(c: Catalog, home: Option<nat>, scope: set<nat>, now: int, db: Db, cart: Cart, item: nat)
    requires cart.lines != [] && Checkout(c, home, scope, now, db, cart).Ok?
    ensures var d := Checkout(c, home, scope, now, db, cart).db;
            && Balanced(db, d, item)
            && (RowsOk(db.rows) ==> RowsOk(d.rows)) && SamePlaces(db.rows, d.rows)
  {
    var d := Checkout(c, home, scope, now, db, cart).db;
    var x := d.orders[|db.orders|];
    assert d.orders == db.orders + [x];
    SumsSnoc(db.orders, x, 0, item);
    if cart.backorder {
      BackorderShipsNothing(x.lines, item);
    } else {
      var ms, eff := Moves(c, cart.lines), CartEffect(cart);
      LockedLinesShip(eff, ms, item);
      MovedKeeps(db.rows, eff, ms, item);
      MovedPlaces(db.rows, eff, ms);
    }
  }

  /** The memo a refund appends, and the original as it leaves it. */
  lemma BookedShape(db: Db, o: nat, now: int, sold: seq<Move>, asked: seq<Move>)
    requires o < |db.orders| && db.orders[o].status == Shipped
    ensures var d := Booked(db, o, now, sold, asked);
            && |d.orders| == |db.orders| + 1 && Later(db.orders[o], d.orders[o])
            && d.orders == db.orders[o := d.orders[o]] + [MemoOf(db.orders[o], o, now, asked)]
            && (d.orders[o].status == Refunded <==> Completes(db.orders, o, sold, asked))
            && (d.orders[o].status != Refunded ==> d.orders[o] == db.orders[o])
            && (d.orders[o].status == Refunded ==>
                d.orders[o].refundedAt == Some(now) && d.orders[o].memo == Some(|db.orders|))
  {}

  lemma BookedSums(db: Db, o: nat, now: int, sold: seq<Move>, asked: seq<Move>, i: nat, item: nat)
    requires o < |db.orders| && db.orders[o].status == Shipped
    ensures var d := Booked(db, o, now, sold, asked);
            && Credited(d.orders, i, item) ==
                Credited(db.orders, i, item) + (if i == o then Total(asked, OfItem(item)) else 0)
            && Net(d.orders, item) == Net(db.orders, item) - Total(asked, OfItem(item))
            && Held(d.orders, item) == Held(db.orders, item)
  {
    var d := Booked(db, o, now, sold, asked);
    BookedShape(db, o, now, sold, asked);
    SumsIgnoreStatus(db.orders, o, d.orders[o], i, item);
    SumsSnoc(db.orders[o := d.orders[o]], MemoOf(db.orders[o], o, now, asked), i, item);
    LockedLinesShip(Return, asked, item);
  }

  lemma RefundConserves(c: Catalog, scope: set<nat>, now: int, db: Db, req: RefundRequest, item: nat)
    requires Refund(c, scope, now, db, req).Ok?
    ensures var d := Refund(c, scope, now, db, req).db;
            && Balanced(db, d, item)
            && (RowsOk(db.rows) ==> RowsOk(d.rows)) && SamePlaces(db.rows, d.rows)
  {
    var soldLines := db.orders[req.original].audit.value.lines;
    var sold := Moves(c, soldLines);
    var asked := Moves(c, if req.lines.Some? then req.lines.value else soldLines);
    BookedSums(db, req.original, now, sold, asked, 0, item);
    MovedKeeps(db.rows, Return, asked, item);
    MovedPlaces(db.rows, Return, asked);
  }

  /** Over every run, each item's stock plus its net shipped quantity is constant, so are its reservations less what
      phone orders hold, and no row is over-reserved. */
  lemma {:induction false} RunsConserve(c: Catalog, home: Option<nat>, db: Db, ops: seq<Op>, item: nat)
    requires forall k | 0 <= k < |ops| :: WellFormed(ops[k])
    ensures var d := ApplyAll(c, home, db, ops);
            && Balanced(db, d, item)
            && (RowsOk(db.rows) ==> RowsOk(d.rows)) && SamePlaces(db.rows, d.rows)
  {
    if ops != [] {
      var n := |ops| - 1;
      RunsConserve(c, home, db, ops[..n], item);
      var m := ApplyAll(c, home, db, ops[..n]);
      match ops[n]
      case CheckoutOp(scope, now, cart) =>
        if Checkout(c, home, scope, now, m, cart).Ok? { CheckoutConserves(c, home, scope, now, m, cart, item); }
      case RefundOp(scope, now, req) =>
        if Refund(c, scope, now, m, req).Ok? { RefundConserves(c, scope, now, m, req, item); }
    }
  }

  // ----- The refund ledger -----

  ghost predicate CreditWithin(c: Catalog, orders: seq<Order>, o: nat, lines: seq<CartLine>) {
    forall item: nat :: 0 <= Credited(orders, o, item) <= SoldOf(c, lines, item)
  }

  ghost predicate FullyCredited(c: Catalog, orders: seq<Order>, o: nat, lines: seq<CartLine>) {
    forall item: nat :: Credited(orders, o, item) == SoldOf(c, lines, item)
  }

  predicate IsSale(x: Order) {
    x.pos && x.kind == Sale && x.audit.Some?
  }

  /** A shipped sale's own lines show what its audit lines sold. */
  ghost predicate ShipsWhatItSold(c: Catalog, x: Order)
    requires IsSale(x)
  {
    x.status == Shipped || x.status == Refunded ==>
        forall item: nat :: ShippedIn(x.lines, item) == SoldOf(c, x.audit.value.lines, item)
  }

  ghost predicate SaleOk(c: Catalog, orders: seq<Order>, o: nat)
    requires o < |orders|
  {
    var x := orders[o];
    IsSale(x) ==>
      && Counted(x.audit.value.lines) && ShipsWhatItSold(c, x)
      && CreditWithin(c, orders, o, x.audit.value.lines)
      && (x.status == Refunded <==> FullyCredited(c, orders, o, x.audit.value.lines))
      && (x.refundedAt.Some? <==> x.status == Refunded) && (x.memo.Some? <==> x.status == Refunded)
  }

  /** Credit memos name existing orders. */
  predicate MemosOk(orders: seq<Order>) {
    forall j | 0 <= j < |orders| :: orders[j].kind == CreditMemo && orders[j].parent.Some? ==>
        orders[j].parent.value < |orders|
  }

  ghost predicate Ledger(c: Catalog, orders: seq<Order>) {
    MemosOk(orders) && forall o | 0 <= o < |orders| :: SaleOk(c, orders, o)
  }

  /** A database that has seen no sale or credit memo satisfies the invariant. */
  lemma FreshLedger(c: Catalog, orders: seq<Order>)
    requires forall k | 0 <= k < |orders| :: !IsSale(orders[k]) && orders[k].kind != CreditMemo
    ensures Ledger(c, orders)
  {}

  /** Orders are only appended, and existing ones only become REFUNDED. */
  predicate OrdersKept(a: seq<Order>, b: seq<Order>) {
    |a| <= |b| && forall k | 0 <= k < |a| :: Later(a[k], b[k])
  }

  lemma SaleFrame(c: Catalog, a: seq<Order>, b: seq<Order>, o: nat)
    requires o < |a| && o < |b| && a[o] == b[o] && SaleOk(c, a, o)
    requires forall item: nat :: Credited(a, o, item) == Credited(b, o, item)
    ensures SaleOk(c, b, o)
  {}

  lemma NewSaleOk(c: Catalog, orders: seq<Order>, x: Order)
    requires MemosOk(orders) && x.kind != CreditMemo
    requires IsSale(x) ==>
      && Counted(x.audit.value.lines) && Live(c, x.audit.value.lines[0].code) && ShipsWhatItSold(c, x)
      && x.status != Refunded && x.refundedAt.None? && x.memo.None?
    ensures SaleOk(c, orders + [x], |orders|)
  {
    if IsSale(x) {
      var all, n, lines := orders + [x], |orders|, x.audit.value.lines;
      forall item: nat ensures Credited(all, n, item) == 0 {
        SumsSnoc(orders, x, n, item);
        NoMemoNoCredit(orders, n, item);
      }
      var item := c.items[lines[0].code.sku].id;
      SoldCovers(c, lines, 0);
      assert Credited(all, n, item) != SoldOf(c, lines, item);
    }
  }

  lemma CheckoutKeepsLedger(c: Catalog, home: Option<nat>, scope: set<nat>, now: int, db: Db, cart: Cart)
    requires WellFormed(CheckoutOp(scope, now, cart)) && Checkout(c, home, scope, now, db, cart).Ok?
    requires Ledger(c, db.orders)
    ensures Ledger(c, Checkout(c, home, scope, now, db, cart).db.orders)
    ensures OrdersKept(db.orders, Checkout(c, home, scope, now, db, cart).db.orders)
  {
    var d, n := Checkout(c, home, scope, now, db, cart).db, |db.orders|;
    var x := d.orders[n];
    assert d.orders == db.orders + [x];
    assert Live(c, cart.lines[0].code);
    if IsSale(x) && x.status == Shipped {
      forall item: nat ensures ShippedIn(x.lines, item) == SoldOf(c, cart.lines, item) {
        LockedLinesShip(Ship, Moves(c, cart.lines), item);
        SoldIsTotal(c, cart.lines, item);
      }
    }
    NewSaleOk(c, db.orders, x);
    forall o | 0 <= o < n ensures SaleOk(c, d.orders, o) {
      forall item: nat
          ensures Credited(db.orders, o, item) == Credited(d.orders, o, item) { SumsSnoc(db.orders, x, o, item); }
      SaleFrame(c, db.orders, d.orders, o);
    }
  }

  /** The guard holds for every item, also those the request does not name. */
  lemma WithinRemaining(c: Catalog, orders: seq<Order>, o: nat, lines: seq<CartLine>, asked: seq<Move>, item: nat)
    requires AllResolve(c, lines) && CreditWithin(c, orders, o, lines)
        && !BeyondRemaining(orders, o, Moves(c, lines), asked)
    ensures Credited(orders, o, item) + Total(asked, OfItem(item)) <= SoldOf(c, lines, item)
  {
    SoldIsTotal(c, lines, item);
    if k :| 0 <= k < |asked| && asked[k].place.item == item {
    } else {
      TotalNone(asked, OfItem(item));
    }
  }

  lemma CompletesIff(c: Catalog, orders: seq<Order>, o: nat, lines: seq<CartLine>, asked: seq<Move>)
    requires AllResolve(c, lines) && CreditWithin(c, orders, o, lines)
        && !BeyondRemaining(orders, o, Moves(c, lines), asked)
    ensures Completes(orders, o, Moves(c, lines), asked) <==>
            forall item: nat :: Credited(orders, o, item) + Total(asked, OfItem(item)) == SoldOf(c, lines, item)
  {
    var sold := Moves(c, lines);
    forall k | 0 <= k < |sold| ensures Total(sold, OfItem(sold[k].place.item)) == SoldOf(c, lines, sold[k].place.item) {
      SoldIsTotal(c, lines, sold[k].place.item);
    }
    if Completes(orders, o, sold, asked) {
      forall item: nat ensures Credited(orders, o, item) + Total(asked, OfItem(item)) == SoldOf(c, lines, item) {
        WithinRemaining(c, orders, o, lines, asked, item);
        SoldIsTotal(c, lines, item);
        if k :| 0 <= k < |sold| && sold[k].place.item == item {
        } else {
          TotalNone(sold, OfItem(item));
        }
      }
    }
  }

  lemma RefundedSaleOk(c: Catalog, db: Db, o: nat, now: int, lines: seq<CartLine>, asked: seq<Move>)
    requires o < |db.orders| && IsSale(db.orders[o]) && db.orders[o].status == Shipped && SaleOk(c, db.orders, o)
    requires lines == db.orders[o].audit.value.lines && AllResolve(c, lines)
    requires !BeyondRemaining(db.orders, o, Moves(c, lines), asked)
    ensures SaleOk(c, Booked(db, o, now, Moves(c, lines), asked).orders, o)
  {
    var sold := Moves(c, lines);
    var d := Booked(db, o, now, sold, asked);
    BookedShape(db, o, now, sold, asked);
    CompletesIff(c, db.orders, o, lines, asked);
    forall item: nat
      ensures Credited(d.orders, o, item) == Credited(db.orders, o, item) + Total(asked, OfItem(item))
      ensures Credited(d.orders, o, item) <= SoldOf(c, lines, item)
    {
      BookedSums(db, o, now, sold, asked, o, item);
      WithinRemaining(c, db.orders, o, lines, asked, item);
    }
  }

  lemma BookedKeepsLedger(c: Catalog, db: Db, o: nat, now: int, lines: seq<CartLine>, asked: seq<Move>)
    requires Ledger(c, db.orders) && o < |db.orders| && IsSale(db.orders[o]) && db.orders[o].status == Shipped
    requires lines == db.orders[o].audit.value.lines && AllResolve(c, lines)
    requires !BeyondRemaining(db.orders, o, Moves(c, lines), asked)
    ensures Ledger(c, Booked(db, o, now, Moves(c, lines), asked).orders)
    ensures OrdersKept(db.orders, Booked(db, o, now, Moves(c, lines), asked).orders)
  {
    var d := Booked(db, o, now, Moves(c, lines), asked);
    BookedShape(db, o, now, Moves(c, lines), asked);
    RefundedSaleOk(c, db, o, now, lines, asked);
    forall i | 0 <= i < |db.orders| && i != o ensures SaleOk(c, d.orders, i) && d.orders[i] == db.orders[i] {
      forall item: nat ensures Credited(db.orders, i, item) == Credited(d.orders, i, item) {
        BookedSums(db, o, now, Moves(c, lines), asked, i, item);
      }
      SaleFrame(c, db.orders, d.orders, i);
    }
    assert !IsSale(d.orders[|db.orders|]);
  }

  lemma RefundKeepsLedger(c: Catalog, scope: set<nat>, now: int, db: Db, req: RefundRequest)
    requires Refund(c, scope, now, db, req).Ok? && Ledger(c, db.orders)
    ensures Ledger(c, Refund(c, scope, now, db, req).db.orders)
    ensures OrdersKept(db.orders, Refund(c, scope, now, db, req).db.orders)
  {
    var lines := db.orders[req.original].audit.value.lines;
    BookedKeepsLedger(c, db, req.original, now, lines, Moves(c, if req.lines.Some? then req.lines.value else lines));
  }

  lemma LaterTrans(a: seq<Order>, b: seq<Order>, d: seq<Order>)
    requires OrdersKept(a, b) && OrdersKept(b, d)
    ensures OrdersKept(a, d)
  {}

  /** In every run, no sale is credited beyond what it sold, a sale is REFUNDED with its stamp and memo exactly when
      every item is credited in full, and otherwise it stays as it was. */
  lemma {:induction false} RunsKeepLedger(c: Catalog, home: Option<nat>, db: Db, ops: seq<Op>)
    requires Ledger(c, db.orders) && forall k | 0 <= k < |ops| :: WellFormed(ops[k])
    ensures Ledger(c, ApplyAll(c, home, db, ops).orders)
    ensures OrdersKept(db.orders, ApplyAll(c, home, db, ops).orders)
  {
    if ops != [] {
      var n := |ops| - 1;
      RunsKeepLedger(c, home, db, ops[..n]);
      var m := ApplyAll(c, home, db, ops[..n]);
      match ops[n]
      case CheckoutOp(scope, now, cart) =>
        if Checkout(c, home, scope, now, m, cart).Ok? {
          CheckoutKeepsLedger(c, home, scope, now, m, cart);
          LaterTrans(db.orders, m.orders, Apply(c, home, m, ops[n]).orders);
        }
      case RefundOp(scope, now, req) =>
        if Refund(c, scope, now, m, req).Ok? {
          RefundKeepsLedger(c, scope, now, m, req);
          LaterTrans(db.orders, m.orders, Apply(c, home, m, ops[n]).orders);
        }
    }
  }

  // ----- A sale stays open to partial refunds until it is fully credited -----

  lemma {:induction false} CodeCovers(ms: seq<Move>, k: nat)
    requires k < |ms|
    ensures ms[k].qty <= Total(ms, AtCode(ms[k].code))
  {
    if k < |ms| - 1 { CodeCovers(ms[..|ms| - 1], k); }
  }

  /** A location of the sale can be asked back one unit at a time for as long as its item is not used up, and no
      longer, whatever that location has had back before. */
  lemma OneMoreUnitIff(c: Catalog, scope: set<nat>, now: int, db: Db, o: nat, tender: Tender, k: nat)
    requires RefundGate(scope, now, db, RefundRequest(o, tender, None)).None? && SaleOk(c, db.orders, o)
    requires k < |db.orders[o].audit.value.lines| && AllResolve(c, db.orders[o].audit.value.lines)
    requires FirstRow(db.rows, Resolve(c, db.orders[o].audit.value.lines[k].code).value).Some?
    ensures var lines := db.orders[o].audit.value.lines;
            var item := Resolve(c, lines[k].code).value.item;
            Refund(c, scope, now, db, RefundRequest(o, tender, Some([CartLine(lines[k].code, 1)]))).Ok? <==>
              Credited(db.orders, o, item) < SoldOf(c, lines, item)
  {
    var lines := db.orders[o].audit.value.lines;
    var sold, one := Moves(c, lines), [CartLine(lines[k].code, 1)];
    var asked := Moves(c, one);
    var m := Move(lines[k].code, Resolve(c, lines[k].code).value, 1, 1);
    assert asked == [] + [m];
    TotalSnoc([], m, AtCode(m.code));
    TotalSnoc([], m, OfItem(m.place.item));
    assert sold[k].code == m.code;
    CodeCovers(sold, k);
    SoldIsTotal(c, lines, m.place.item);
    assert RefundGate(scope, now, db, RefundRequest(o, tender, Some(one))).None?;
    assert !BeyondLocation(sold, asked);
    assert BeyondRemaining(db.orders, o, sold, asked) <==>
        Credited(db.orders, o, m.place.item) + 1 > SoldOf(c, lines, m.place.item) by {
      assert asked[0] == m;
    }
  }

  // ----- Refunding a whole order -----

  predicate IsCounterSale(cart: Cart) {
    cart.kind == Sale && !cart.phone && !cart.backorder && Counted(cart.lines)
  }

  /** The counter sale, then any run, then the whole order asked back. */
  lemma SaleThenRun(c: Catalog, home: Option<nat>, scope: set<nat>, now: int, db: Db, cart: Cart, ops: seq<Op>)
        returns (ms: seq<Move>)
    requires Ledger(c, db.orders) && IsCounterSale(cart) && forall k | 0 <= k < |ops| :: WellFormed(ops[k])
    requires Checkout(c, home, scope, now, db, cart).Ok?
    ensures AllResolve(c, cart.lines) && ms == Moves(c, cart.lines)
    ensures var d, o := ApplyAll(c, home, Checkout(c, home, scope, now, db, cart).db, ops), |db.orders|;
            && Ledger(c, d.orders) && o < |d.orders| && IsSale(d.orders[o])
                && d.orders[o].audit.value == Audit(cart.tender, cart.lines)
            && d.orders[o].warehouse == ms[0].place.warehouse && d.orders[o].createdAt == now
            && (d.orders[o].status == Shipped || d.orders[o].status == Refunded)
            && SamePlaces(db.rows, d.rows) && Fits(d.rows, Return, ms)
    ensures Checkout(c, home, scope, now, db, cart).db.rows == Moved(db.rows, Ship, ms)
  {
    ms := Moves(c, cart.lines);
    var first, o := Checkout(c, home, scope, now, db, cart).db, |db.orders|;
    CheckoutKeepsLedger(c, home, scope, now, db, cart);
    RunsKeepLedger(c, home, first, ops);
    var d := ApplyAll(c, home, first, ops);
    assert Later(first.orders[o], d.orders[o]);
    RunsConserve(c, home, first, ops, 0);
    MovedPlaces(db.rows, Ship, ms);
    forall k | 0 <= k < |ms| ensures Room(d.rows, Return, ms[k].place, 0) {
      assert FirstRow(db.rows, ms[k].place).Some?;
      FirstRowSame(db.rows, d.rows, ms[k].place);
    }
  }

  lemma WholeAsksAll(c: Catalog, orders: seq<Order>, o: nat, lines: seq<CartLine>)
    requires AllResolve(c, lines) && CreditWithin(c, orders, o, lines)
    ensures BeyondRemaining(orders, o, Moves(c, lines), Moves(c, lines)) <==> !NothingCredited(orders, o)
  {
    var ms := Moves(c, lines);
    forall item: nat | Credited(orders, o, item) != 0 ensures exists k | 0 <= k < |ms| :: ms[k].place.item == item {
      SoldIsTotal(c, lines, item);
      if forall k | 0 <= k < |ms| :: ms[k].place.item != item { TotalNone(ms, OfItem(item)); }
    }
    if k :| 0 <= k < |ms| && Credited(orders, o, ms[k].place.item) > 0 {
      var item: nat := ms[k].place.item;
      assert Credited(orders, o, item) != 0;
    }
  }

  /** A whole-order refund that passes its gate is refused only by earlier credit. */
  lemma WholeRefundOutcome(c: Catalog, scope: set<nat>, now: int, d: Db, o: nat, tender: Tender, lines: seq<CartLine>)
    requires RefundGate(scope, now, d, RefundRequest(o, tender, None)).None? && lines == d.orders[o].audit.value.lines
    requires AllResolve(c, lines) && CreditWithin(c, d.orders, o, lines) && Fits(d.rows, Return, Moves(c, lines))
    ensures Refund(c, scope, now, d, RefundRequest(o, tender, None)) ==
            if NothingCredited(d.orders, o) then Ok(Booked(d, o, now, Moves(c, lines), Moves(c, lines)))
                else Refused(ExceedsRemaining)
  {
    WholeAsksAll(c, d.orders, o, lines);
  }

  lemma WholeBooked(c: Catalog, d: Db, o: nat, now: int, lines: seq<CartLine>)
    requires o < |d.orders| && d.orders[o].status == Shipped && AllResolve(c, lines)
    requires NothingCredited(d.orders, o)
    ensures var r := Booked(d, o, now, Moves(c, lines), Moves(c, lines));
            o < |r.orders| && r.orders[o].status == Refunded && r.rows == Moved(d.rows, Return, Moves(c, lines))
  {}

  /** From `a` to `b` the sale, from `d` to `e` its reverse, row by row. */
  predicate RowsReversed(a: seq<Row>, b: seq<Row>, d: seq<Row>, e: seq<Row>) {
    && |a| == |b| == |d| == |e|
    && forall k | 0 <= k < |a| ::
         e[k].onHand - d[k].onHand == a[k].onHand - b[k].onHand && e[k].reserved == d[k].reserved
             && e[k].place == d[k].place
  }

  lemma ReturnReverses(a: seq<Row>, d: seq<Row>, ms: seq<Move>)
    requires SamePlaces(a, d)
    ensures RowsReversed(a, Moved(a, Ship, ms), d, Moved(d, Return, ms))
  {
    MovedPlaces(d, Return, ms);
    forall k | 0 <= k < |a|
      ensures Moved(d, Return, ms)[k].onHand - d[k].onHand == a[k].onHand - Moved(a, Ship, ms)[k].onHand
      ensures Moved(d, Return, ms)[k].reserved == d[k].reserved
    {
      ReturnNegatesShip(a, d, ms, k);
    }
  }

  ghost predicate NothingCredited(orders: seq<Order>, o: nat) {
    forall item: nat :: Credited(orders, o, item) == 0
  }

  /** After a counter sale and any run, the whole order is taken back if and only if the token, the date and the tender
      allow it and nothing was credited before; then every row gets back exactly what the sale took from it. */
  lemma WholeRefundReversesSale(c: Catalog, home: Option<nat>, scope: set<nat>, now: int, db: Db, cart: Cart,
                                ops: seq<Op>,
                                scope': set<nat>, now': int, tender: Tender)
    requires Ledger(c, db.orders) && IsCounterSale(cart) && forall k | 0 <= k < |ops| :: WellFormed(ops[k])
    requires Checkout(c, home, scope, now, db, cart).Ok?
    ensures var first, o := Checkout(c, home, scope, now, db, cart).db, |db.orders|;
            var d := ApplyAll(c, home, first, ops);
            var r := Refund(c, scope', now', d, RefundRequest(o, tender, None));
            && o < |d.orders|
            && (r.Ok? <==> d.orders[o].warehouse in scope' && now >= now' - REFUND_WINDOW_DAYS && tender == cart.tender
                           && NothingCredited(d.orders, o))
            && (r.Ok? ==>
                  && RowsReversed(db.rows, first.rows, d.rows, r.db.rows)
                  && o < |r.db.orders| && r.db.orders[o].status == Refunded)
  {
    var first, o := Checkout(c, home, scope, now, db, cart).db, |db.orders|;
    var d := ApplyAll(c, home, first, ops);
    var ms := SaleThenRun(c, home, scope, now, db, cart, ops);
    assert SaleOk(c, d.orders, o);
    WholeRefundGate(c, scope', now', d, cart, o, tender);
    if RefundGate(scope', now', d, RefundRequest(o, tender, None)).None? {
      WholeRefundOutcome(c, scope', now', d, o, tender, cart.lines);
      if NothingCredited(d.orders, o) {
        WholeBooked(c, d, o, now', cart.lines);
        ReturnReverses(db.rows, d.rows, ms);
      }
    }
  }

  lemma WholeRefundGate(c: Catalog, scope: set<nat>, now: int, d: Db, cart: Cart, o: nat, tender: Tender)
    requires o < |d.orders| && IsSale(d.orders[o]) && SaleOk(c, d.orders, o)
        && d.orders[o].audit.value == Audit(cart.tender, cart.lines)
    requires d.orders[o].status == Shipped || d.orders[o].status == Refunded
    requires AllResolve(c, cart.lines)
    ensures RefundGate(scope, now, d, RefundRequest(o, tender, None)).None? <==>
            && d.orders[o].warehouse in scope && d.orders[o].status == Shipped
            && d.orders[o].createdAt >= now - REFUND_WINDOW_DAYS && tender == cart.tender
    ensures NothingCredited(d.orders, o) ==> d.orders[o].status == Shipped
  {
    var item := Resolve(c, cart.lines[0].code).value.item;
    SoldCovers(c, cart.lines, 0);
    assert SoldOf(c, cart.lines, item) > 0;
    if d.orders[o].status == Refunded {
      assert Credited(d.orders, o, item) == SoldOf(c, cart.lines, item);
    }
  }
}
