/**
 Validate-cart against checkout: what a commit says about validation, and when an accepted cart passes the stock gate.
 */
module PosCarts {
  import opened Prelude
  import opened PosLedger
  import opened PosStock

  predicate Sellable(c: Catalog, scope: set<nat>, db: Db, code: Code) {
    && Live(c, code) && Resolve(c, code).Some? && c.warehouses[code.warehouse] in scope
    && FirstRow(db.rows, Resolve(c, code).value).Some?
  }

  function CounterSale(lines: seq<CartLine>): Cart {
    Cart(Sale, None, false, false, Cash, lines, [])
  }

  function FirstAvailable(c: Catalog, db: Db, code: Code): int
    requires Resolve(c, code).Some? && FirstRow(db.rows, Resolve(c, code).value).Some?
  {
    Available(db.rows[FirstRow(db.rows, Resolve(c, code).value).value])
  }

  lemma {:induction false} TotalCovers(ms: seq<Move>, k: nat)
    requires k < |ms|
    ensures ms[k].qty <= Total(ms, AtPlace(ms[k].place))
  {
    if k < |ms| - 1 { TotalCovers(ms[..|ms| - 1], k); }
  }

  /** A row never offers more than its whole location, while no row is over-reserved. */
  lemma {:induction false} RowWithinLocation(rows: seq<Row>, k: nat)
    requires RowsOk(rows) && k < |rows|
    ensures Available(rows[k]) <= AvailableAt(rows, rows[k].place)
  {
    var n := |rows| - 1;
    if k < n { RowWithinLocation(rows[..n], k); } else { NoneOverReserved(rows[..n], rows[k].place); }
  }

  lemma {:induction false} NoneOverReserved(rows: seq<Row>, p: Place)
    requires RowsOk(rows)
    ensures AvailableAt(rows, p) >= 0
  {
    if rows != [] { NoneOverReserved(rows[..|rows| - 1], p); }
  }

  /** A cart that checkout commits fails validate-cart, if at all, on the stock of a whole location. */
  lemma CommittedCartResolves(c: Catalog, home: Option<nat>, scope: set<nat>, now: int, db: Db, cart: Cart, k: nat)
    requires cart.lines != [] && !cart.backorder && k < |cart.lines|
    requires Checkout(c, home, scope, now, db, cart).Ok?
    ensures Sellable(c, scope, db, cart.lines[k].code)
    ensures cart.lines[k].qty <= FirstAvailable(c, db, cart.lines[k].code)
    ensures Classify(c, scope, db.rows, cart.lines[k]).None? <==>
            cart.lines[k].qty <= AvailableAt(db.rows, Resolve(c, cart.lines[k].code).value)
  {
    var ms, ln := Moves(c, cart.lines), cart.lines[k];
    assert Live(c, ln.code) && Resolve(c, ln.code) == Some(ms[k].place);
    TotalCovers(ms, k);
    assert Room(db.rows, CartEffect(cart), ms[k].place, Total(ms, AtPlace(ms[k].place)));
  }

  /** While no row is over-reserved, every cart a counter or phone checkout commits would have been accepted by
      validate-cart just before. */
  lemma CommittedCartWasValid(c: Catalog, home: Option<nat>, scope: set<nat>, now: int, db: Db, cart: Cart)
    requires cart.lines != [] && !cart.backorder && RowsOk(db.rows)
    requires Checkout(c, home, scope, now, db, cart).Ok?
    ensures CartAccepted(c, scope, db.rows, cart.lines)
  {
    forall k | 0 <= k < |cart.lines| ensures Classify(c, scope, db.rows, cart.lines[k]).None? {
      CommittedCartResolves(c, home, scope, now, db, cart, k);
      var p := Resolve(c, cart.lines[k].code).value;
      RowWithinLocation(db.rows, FirstRow(db.rows, p).value);
    }
  }

  const MAX_QUANTITY: nat := 10_000

  const MAX_LINES: nat := 200

  /** What the request schemas admit as a counter or phone cart. */
  predicate InSchema(cart: Cart) {
    && !cart.backorder && Counted(cart.lines) && |cart.lines| <= MAX_LINES
    && forall k | 0 <= k < |cart.lines| :: cart.lines[k].qty <= MAX_QUANTITY
  }

  /** The most one line can take from the code's first row. */
  function LargestLine(c: Catalog, db: Db, code: Code): int
    requires Resolve(c, code).Some? && FirstRow(db.rows, Resolve(c, code).value).Some?
  {
    var a := FirstAvailable(c, db, code);
    if a < MAX_QUANTITY then a else MAX_QUANTITY
  }

  /** A location offers at least what one line can take from its first row. */
  predicate FirstRowCovered(c: Catalog, scope: set<nat>, db: Db, code: Code) {
    Sellable(c, scope, db, code) && LargestLine(c, db, code) >= 1 ==>
      LargestLine(c, db, code) <= AvailableAt(db.rows, Resolve(c, code).value)
  }

  /** Every cart that would commit is also accepted by validate-cart, if and only if no location's other rows are
      over-reserved so far that the location offers less than a line can take from its first row. */
  lemma CommittedCartsAreValidIff(c: Catalog, home: Option<nat>, scope: set<nat>, now: int, db: Db)
    ensures (forall cart | InSchema(cart) && Checkout(c, home, scope, now, db, cart).Ok? ::
               CartAccepted(c, scope, db.rows, cart.lines))
            <==> forall code :: FirstRowCovered(c, scope, db, code)
  {
    if forall code :: FirstRowCovered(c, scope, db, code) {
      forall cart | InSchema(cart) && Checkout(c, home, scope, now, db, cart).Ok?
        ensures CartAccepted(c, scope, db.rows, cart.lines)
      {
        forall k | 0 <= k < |cart.lines| ensures Classify(c, scope, db.rows, cart.lines[k]).None? {
          CommittedCartResolves(c, home, scope, now, db, cart, k);
          assert FirstRowCovered(c, scope, db, cart.lines[k].code);
        }
      }
    }
    forall code | !FirstRowCovered(c, scope, db, code)
      ensures exists cart :: InSchema(cart) && Checkout(c, home, scope, now, db, cart).Ok?
                             && !CartAccepted(c, scope, db.rows, cart.lines)
    {
      var qty: nat := LargestLine(c, db, code);
      OverReservedRowIsMissed(c, home, scope, now, db, code, qty);
      assert InSchema(CounterSale([CartLine(code, qty)]));
    }
  }

  /** A line within the first row and beyond the location, another row of it being over-reserved, is committed though
      validate-cart refuses it. */
  lemma OverReservedRowIsMissed(c: Catalog, home: Option<nat>, scope: set<nat>, now: int, db: Db, code: Code, qty: nat)
    requires Sellable(c, scope, db, code)
    requires AvailableAt(db.rows, Resolve(c, code).value) < qty <= FirstAvailable(c, db, code)
    ensures var cart := CounterSale([CartLine(code, qty)]);
            Checkout(c, home, scope, now, db, cart).Ok? && !CartAccepted(c, scope, db.rows, cart.lines)
  {
    var lines, p := [CartLine(code, qty)], Resolve(c, code).value;
    var first := Move(code, p, qty, 1);
    assert Moves(c, lines) == [] + [first];
    TotalSnoc([], first, AtPlace(p));
    assert Classify(c, scope, db.rows, lines[0]).Some?;
  }

  /** An accepted cart fails checkout on its parent order, on what it takes back or on the stock gate, and on
      nothing else. */
  lemma AcceptedCartCommitsIff(c: Catalog, home: Option<nat>, scope: set<nat>, now: int, db: Db, cart: Cart)
    requires cart.lines != [] && !cart.backorder && CartAccepted(c, scope, db.rows, cart.lines)
    ensures AllResolve(c, cart.lines)
    ensures Checkout(c, home, scope, now, db, cart).Ok? <==>
            && ParentGate(db.orders, scope, cart).None? && ReturnGate(c, db.orders, cart).None?
            && Fits(db.rows, CartEffect(cart), Moves(c, cart.lines))
    ensures cart.kind == Sale && Checkout(c, home, scope, now, db, cart).Refused? ==>
              Checkout(c, home, scope, now, db, cart).why == StockShort
  {
    forall k | 0 <= k < |cart.lines|
      ensures Live(c, cart.lines[k].code) && Resolve(c, cart.lines[k].code).Some?
      ensures c.warehouses[cart.lines[k].code.warehouse] in scope
    {
      assert Classify(c, scope, db.rows, cart.lines[k]).None?;
    }
  }

  predicate DistinctPlaces(ms: seq<Move>) {
    forall i, j | 0 <= i < j < |ms| :: ms[i].place != ms[j].place
  }

  predicate OneRow(rows: seq<Row>, p: Place) {
    forall i, j | 0 <= i < j < |rows| :: !(rows[i].place == p && rows[j].place == p)
  }

  lemma {:induction false} TotalOfOne(ms: seq<Move>, k: nat)
    requires DistinctPlaces(ms) && k < |ms|
    ensures Total(ms, AtPlace(ms[k].place)) == ms[k].qty
  {
    var n := |ms| - 1;
    if k < n { TotalOfOne(ms[..n], k); } else { TotalElsewhere(ms[..n], ms[k].place); }
  }

  lemma {:induction false} NoRowNoStock(rows: seq<Row>, p: Place)
    requires forall k | 0 <= k < |rows| :: rows[k].place != p
    ensures AvailableAt(rows, p) == 0
  {
    if rows != [] { NoRowNoStock(rows[..|rows| - 1], p); }
  }

  lemma {:induction false} LocationIsItsRow(rows: seq<Row>, k: nat)
    requires k < |rows| && OneRow(rows, rows[k].place)
    ensures AvailableAt(rows, rows[k].place) == Available(rows[k])
  {
    var n := |rows| - 1;
    if k < n { LocationIsItsRow(rows[..n], k); } else { NoRowNoStock(rows[..n], rows[k].place); }
  }

  /** With distinct locations and one row in each, acceptance is enough: the sale commits from that same state. */
  lemma AcceptedCartPasses(c: Catalog, home: Option<nat>, scope: set<nat>, now: int, db: Db, cart: Cart)
    requires Counted(cart.lines) && !cart.backorder && CartAccepted(c, scope, db.rows, cart.lines)
        && AllResolve(c, cart.lines)
    requires DistinctPlaces(Moves(c, cart.lines))
    requires forall k | 0 <= k < |cart.lines| :: OneRow(db.rows, Resolve(c, cart.lines[k].code).value)
    ensures Fits(db.rows, CartEffect(cart), Moves(c, cart.lines))
    ensures ParentGate(db.orders, scope, cart).None? && ReturnGate(c, db.orders, cart).None? ==>
              Checkout(c, home, scope, now, db, cart).Ok?
  {
    var ms := Moves(c, cart.lines);
    forall k | 0 <= k < |ms| ensures Room(db.rows, CartEffect(cart), ms[k].place, Total(ms, AtPlace(ms[k].place))) {
      assert Classify(c, scope, db.rows, cart.lines[k]).None?;
      var p := ms[k].place;
      assert OneRow(db.rows, p);
      TotalOfOne(ms, k);
      if FirstRow(db.rows, p).None? {
        NoRowNoStock(db.rows, p);
      } else {
        LocationIsItsRow(db.rows, FirstRow(db.rows, p).value);
      }
    }
    AcceptedCartCommitsIff(c, home, scope, now, db, cart);
  }

  // ----- Neither condition can be dropped -----

  lemma ShortIsRefused(c: Catalog, scope: set<nat>, db: Db, lines: seq<CartLine>)
    requires lines != [] && CartAccepted(c, scope, db.rows, lines) && Sellable(c, scope, db, lines[0].code)
    requires AllResolve(c, lines)
    requires FirstAvailable(c, db, lines[0].code) < Total(Moves(c, lines), AtPlace(Resolve(c, lines[0].code).value))
    ensures Checkout(c, None, scope, 0, db, CounterSale(lines)) == Refused(StockShort)
  {
    AcceptedCartCommitsIff(c, None, scope, 0, db, CounterSale(lines));
    assert Moves(c, lines)[0].place == Resolve(c, lines[0].code).value;
  }

  /** Two lines on one location are accepted one by one and refused together. */
  lemma RepeatedLineCanFail(c: Catalog, scope: set<nat>, db: Db, code: Code, qty: nat)
    requires Sellable(c, scope, db, code)
    requires qty <= AvailableAt(db.rows, Resolve(c, code).value) && FirstAvailable(c, db, code) < 2 * qty
    ensures var lines := [CartLine(code, qty), CartLine(code, qty)];
            CartAccepted(c, scope, db.rows, lines)
                && Checkout(c, None, scope, 0, db, CounterSale(lines)) == Refused(StockShort)
  {
    var lines, p := [CartLine(code, qty), CartLine(code, qty)], Resolve(c, code).value;
    var first, second := Move(code, p, qty, 1), Move(code, p, qty, 2);
    assert Moves(c, lines) == [first] + [second];
    assert [first] == [] + [first];
    TotalSnoc([first], second, AtPlace(p));
    TotalSnoc([], first, AtPlace(p));
    ShortIsRefused(c, scope, db, lines);
  }

  /** Stock split over two rows of one location is accepted in full and refused beyond the first row. */
  lemma SplitStockCanFail(c: Catalog, scope: set<nat>, db: Db, code: Code, qty: nat)
    requires Sellable(c, scope, db, code)
    requires FirstAvailable(c, db, code) < qty <= AvailableAt(db.rows, Resolve(c, code).value)
    ensures var lines := [CartLine(code, qty)];
            CartAccepted(c, scope, db.rows, lines)
                && Checkout(c, None, scope, 0, db, CounterSale(lines)) == Refused(StockShort)
  {
    var lines, p := [CartLine(code, qty)], Resolve(c, code).value;
    var first := Move(code, p, qty, 1);
    assert Moves(c, lines) == [] + [first];
    TotalSnoc([], first, AtPlace(p));
    ShortIsRefused(c, scope, db, lines);
  }

  // ----- Validate-cart, test by test -----

  /** The tests of a line, in order: SKU, activity, warehouse, scope, bin, stock. */
  predicate Passes(c: Catalog, scope: set<nat>, rows: seq<Row>, ln: CartLine, test: nat) {
    var code := ln.code;
    match test
    case 0 => code.sku in c.items
    case 1 => code.sku in c.items && c.items[code.sku].active
    case 2 => code.warehouse in c.warehouses
    case 3 => code.warehouse in c.warehouses && c.warehouses[code.warehouse] in scope
    case 4 => code.warehouse in c.warehouses && (c.warehouses[code.warehouse], code.bin) in c.bins
    case _ =>
      && code.sku in c.items && code.warehouse in c.warehouses
      && var wh := c.warehouses[code.warehouse];
         (wh, code.bin) in c.bins
             && ln.qty <= AvailableAt(rows, Place(c.items[code.sku].id, wh, c.bins[(wh, code.bin)]))
  }

  function TestOf(reason: Reason): nat {
    match reason
    case SkuNotFound => 0
    case ItemInactive => 1
    case WarehouseNotFound => 2
    case WarehouseNotInScope => 3
    case BinNotFound => 4
    case InsufficientStock(_) => 5
  }

  /** A line is accepted when it passes every test, and otherwise gets the reason of the first it fails. */
  lemma ClassifyIsFirstFailure(c: Catalog, scope: set<nat>, rows: seq<Row>, ln: CartLine)
    ensures match Classify(c, scope, rows, ln)
      case None => forall i | 0 <= i < 6 :: Passes(c, scope, rows, ln, i)
      case Some(reason) =>
        !Passes(c, scope, rows, ln, TestOf(reason)) && forall i | 0 <= i < TestOf(reason) ::
            Passes(c, scope, rows, ln, i)
  {}

  /** A location's stock is the sum of its rows'. */
  lemma {:induction false} AvailableAdds(a: seq<Row>, b: seq<Row>, p: Place)
    ensures AvailableAt(a + b, p) == AvailableAt(a, p) + AvailableAt(b, p)
    ensures forall r: Row :: AvailableAt([r], p) == if r.place == p then r.onHand - r.reserved else 0
  {
    forall r: Row ensures AvailableAt([r], p) == if r.place == p then r.onHand - r.reserved else 0 {
      assert [r][..0] == [];
    }
    if b == [] {
      assert a + b == a;
    } else {
      AvailableAdds(a, b[..|b| - 1], p);
      assert (a + b)[..|a + b| - 1] == a + b[..|b| - 1];
    }
  }
}
