/**
 The point-of-sale handlers as they run: line loops that update rows in place, dictionaries that accumulate
 quantities, and a rollback on every refusal.
 */
module PosTill {
  import opened Prelude
  import opened PosLedger
  import opened PosStock

  lemma {:induction false} MoveAllStops(rows: seq<Row>, eff: Effect, ms: seq<Move>, n: nat)
    requires n <= |ms| && MoveAll(rows, eff, ms[..n]).None?
    ensures MoveAll(rows, eff, ms).None?
    decreases |ms|
  {
    if n == |ms| {
      assert ms[..n] == ms;
    } else {
      assert ms[..|ms| - 1][..n] == ms[..n];
      MoveAllStops(rows, eff, ms[..|ms| - 1], n);
    }
  }

  lemma MoveAllNext(rows: seq<Row>, eff: Effect, ms: seq<Move>, i: nat)
    requires i < |ms| && MoveAll(rows, eff, ms[..i]).Some?
    ensures MoveAll(rows, eff, ms[..i + 1]) == MoveOne(MoveAll(rows, eff, ms[..i]).value, eff, ms[i])
  {
    assert ms[..i + 1][..i] == ms[..i];
  }

  // ----- Dictionaries of quantities -----

  function Got<K>(m: map<K, nat>, k: K): nat {
    if k in m then m[k] else 0
  }

  function Codes(ms: seq<Move>): set<Code> {
    set k | 0 <= k < |ms| :: ms[k].code
  }

  function Items(ms: seq<Move>): set<nat> {
    set k | 0 <= k < |ms| :: ms[k].place.item
  }

  /** Totals of `ms` by location and by item, with exactly the keys that occur. */
  ghost predicate Tallies(ms: seq<Move>, byCode: map<Code, nat>, byItem: map<nat, nat>) {
    && (forall code :: Got(byCode, code) == Total(ms, AtCode(code)))
    && (forall item: nat :: Got(byItem, item) == Total(ms, OfItem(item)))
    && byCode.Keys == Codes(ms) && byItem.Keys == Items(ms)
  }

  lemma KeysNext(ms: seq<Move>, m: Move)
    ensures Codes(ms + [m]) == Codes(ms) + {m.code} && Items(ms + [m]) == Items(ms) + {m.place.item}
  {
    var all := ms + [m];
    assert all[|ms|] == m;
    forall code | code in Codes(ms) ensures code in Codes(all) {
      var k :| 0 <= k < |ms| && ms[k].code == code;
      assert all[k].code == code;
    }
    forall item | item in Items(ms) ensures item in Items(all) {
      var k :| 0 <= k < |ms| && ms[k].place.item == item;
      assert all[k].place.item == item;
    }
  }

  lemma TallyNext(ms: seq<Move>, m: Move, byCode: map<Code, nat>, byItem: map<nat, nat>)
    requires Tallies(ms, byCode, byItem)
    ensures Tallies(ms + [m], byCode[m.code := Got(byCode, m.code) + m.qty],
        byItem[m.place.item := Got(byItem, m.place.item) + m.qty])
  {
    KeysNext(ms, m);
    var all, byCode' := ms + [m], byCode[m.code := Got(byCode, m.code) + m.qty];
    var byItem' := byItem[m.place.item := Got(byItem, m.place.item) + m.qty];
    forall code ensures Got(byCode', code) == Total(all, AtCode(code)) { TotalSnoc(ms, m, AtCode(code)); }
    forall item: nat ensures Got(byItem', item) == Total(all, OfItem(item)) { TotalSnoc(ms, m, OfItem(item)); }
    assert byCode'.Keys == byCode.Keys + {m.code} && byItem'.Keys == byItem.Keys + {m.place.item};
  }

  method Tally(ms: seq<Move>) returns (byCode: map<Code, nat>, byItem: map<nat, nat>)
    ensures Tallies(ms, byCode, byItem)
  {
    byCode, byItem := map[], map[];
    for i := 0 to |ms|
      invariant Tallies(ms[..i], byCode, byItem)
    {
      TallyNext(ms[..i], ms[i], byCode, byItem);
      assert ms[..i + 1] == ms[..i] + [ms[i]];
      byCode := byCode[ms[i].code := Got(byCode, ms[i].code) + ms[i].qty];
      byItem := byItem[ms[i].place.item := Got(byItem, ms[i].place.item) + ms[i].qty];
    }
    assert ms[..|ms|] == ms;
  }

  lemma LocationGuard(sold: seq<Move>, asked: seq<Move>, soldAt: map<Code, nat>, soldOf: map<nat, nat>,
        askedAt: map<Code, nat>, askedOf: map<nat, nat>)
    requires Tallies(sold, soldAt, soldOf) && Tallies(asked, askedAt, askedOf)
    ensures (exists code | code in askedAt :: code !in soldAt || askedAt[code] > soldAt[code]) <==>
        BeyondLocation(sold, asked)
  {
    forall code
      ensures code in askedAt ==> askedAt[code] == Total(asked, AtCode(code))
      ensures code in soldAt ==> soldAt[code] == Total(sold, AtCode(code))
    {
      assert Got(askedAt, code) == Total(asked, AtCode(code)) && Got(soldAt, code) == Total(sold, AtCode(code));
    }
    if code :| code in askedAt && (code !in soldAt || askedAt[code] > soldAt[code]) {
      assert code in Codes(asked);
      var k :| 0 <= k < |asked| && asked[k].code == code;
      assert code !in soldAt ==> forall j | 0 <= j < |sold| :: sold[j].code != code;
      assert BeyondLocation(sold, asked);
    }
    if BeyondLocation(sold, asked) {
      var k :| 0 <= k < |asked| && ((forall j | 0 <= j < |sold| :: sold[j].code != asked[k].code)
                                    || Total(asked, AtCode(asked[k].code)) > Total(sold, AtCode(asked[k].code)));
      assert asked[k].code in askedAt;
      assert asked[k].code in soldAt ==> asked[k].code in Codes(sold);
    }
  }

  lemma RemainderGuard(orders: seq<Order>, o: nat, sold: seq<Move>, asked: seq<Move>, soldAt: map<Code, nat>,
        soldOf: map<nat, nat>, askedAt: map<Code, nat>, askedOf: map<nat, nat>)
    requires Tallies(sold, soldAt, soldOf) && Tallies(asked, askedAt, askedOf)
    ensures (exists item | item in askedOf :: Credited(orders, o, item) + askedOf[item] > Got(soldOf, item)) <==>
        BeyondRemaining(orders, o, sold, asked)
  {
    forall item: nat | item in askedOf ensures askedOf[item] == Total(asked, OfItem(item)) {
      assert Got(askedOf, item) == Total(asked, OfItem(item));
    }
    if item: nat :| item in askedOf && Credited(orders, o, item) + askedOf[item] > Got(soldOf, item) {
      assert item in Items(asked);
      var k :| 0 <= k < |asked| && asked[k].place.item == item;
    }
    if k :| 0 <= k < |asked| && var item := asked[k].place.item;
              Credited(orders, o, item) + Total(asked, OfItem(item)) > Total(sold, OfItem(item)) {
      assert asked[k].place.item in askedOf;
    }
  }

  lemma CompletionTest(orders: seq<Order>, o: nat, sold: seq<Move>, asked: seq<Move>, soldAt: map<Code, nat>,
        soldOf: map<nat, nat>, askedAt: map<Code, nat>, askedOf: map<nat, nat>)
    requires Tallies(sold, soldAt, soldOf) && Tallies(asked, askedAt, askedOf)
    ensures (forall item | item in soldOf :: Credited(orders, o, item) + Got(askedOf, item) == soldOf[item]) <==>
        Completes(orders, o, sold, asked)
  {
    forall item: nat | item in soldOf ensures soldOf[item] == Total(sold, OfItem(item)) {
      assert Got(soldOf, item) == Total(sold, OfItem(item));
    }
    if item: nat :| item in soldOf && Credited(orders, o, item) + Got(askedOf, item) != soldOf[item] {
      assert item in Items(sold);
      var k :| 0 <= k < |sold| && sold[k].place.item == item;
    }
    if k :| 0 <= k < |sold| && var item := sold[k].place.item;
              Credited(orders, o, item) + Total(asked, OfItem(item)) != Total(sold, OfItem(item)) {
      assert sold[k].place.item in soldOf;
    }
  }

  /** The quantity guards of a refund, over dictionaries; a whole-order request copies the sale's. */
  method CheckAsked(orders: seq<Order>, o: nat, sold: seq<Move>, asked: seq<Move>, partial: bool)
        returns (why: Option<Refusal>, full: bool)
    requires !partial ==> asked == sold
    ensures why == if partial && BeyondLocation(sold, asked) then Some(NotInOrder)
                   else if BeyondRemaining(orders, o, sold, asked) then Some(ExceedsRemaining) else None
    ensures why.None? ==> full == Completes(orders, o, sold, asked)
  {
    var soldAt, soldOf := Tally(sold);
    var askedAt, askedOf := soldAt, soldOf;
    if partial {
      askedAt, askedOf := Tally(asked);
      LocationGuard(sold, asked, soldAt, soldOf, askedAt, askedOf);
      if exists code | code in askedAt ::
          code !in soldAt || askedAt[code] > soldAt[code] { return Some(NotInOrder), false; }
    }
    RemainderGuard(orders, o, sold, asked, soldAt, soldOf, askedAt, askedOf);
    if exists item | item in askedOf ::
        Credited(orders, o, item) + askedOf[item] > Got(soldOf, item) { return Some(ExceedsRemaining), false; }
    CompletionTest(orders, o, sold, asked, soldAt, soldOf, askedAt, askedOf);
    return None, forall item | item in soldOf :: Credited(orders, o, item) + Got(askedOf, item) == soldOf[item];
  }

  lemma {:induction false} BadReturnStays(c: Catalog, parent: seq<OrderLine>, returned: seq<string>, n: nat)
    requires n <= |returned| && BadReturn(c, parent, returned[..n]).Some?
    ensures BadReturn(c, parent, returned) == BadReturn(c, parent, returned[..n])
    decreases |returned|
  {
    if n == |returned| {
      assert returned[..n] == returned;
    } else {
      assert returned[..|returned| - 1][..n] == returned[..n];
      BadReturnStays(c, parent, returned[..|returned| - 1], n);
    }
  }

  /** Stops at the first SKU that cannot be taken back. */
  method CheckReturns(c: Catalog, parent: seq<OrderLine>, returned: seq<string>) returns (why: Option<Refusal>)
    ensures why == BadReturn(c, parent, returned)
    ensures why.None? <==>
        forall k | 0 <= k < |returned| :: returned[k] in c.items && OnOrder(parent, c.items[returned[k]].id)
  {
    for i := 0 to |returned|
      invariant BadReturn(c, parent, returned[..i]).None?
      invariant forall k | 0 <= k < i :: returned[k] in c.items && OnOrder(parent, c.items[returned[k]].id)
    {
      assert returned[..i + 1][..i] == returned[..i];
      if returned[i] !in c.items || !OnOrder(parent, c.items[returned[i]].id) {
        BadReturnStays(c, parent, returned, i + 1);
        return Some(if returned[i] !in c.items then UnknownReturnedSku else ReturnedNotOnParent);
      }
    }
    assert returned[..|returned|] == returned;
    return None;
  }

  // ----- The handlers -----

  class Till {
    var rows: seq<Row>
    var orders: seq<Order>

    ghost function View(): Db
      reads this
    {
      Db(rows, orders)
    }

    /** One entry per failing line, in cart order, each under its first applicable reason. */
    method ValidateCart(c: Catalog, scope: set<nat>, lines: seq<CartLine>) returns (conflicts: seq<(nat, Reason)>)
      ensures conflicts == [] <==> CartAccepted(c, scope, rows, lines)
      ensures forall i: nat, reason :: (i, reason) in conflicts <==>
          i < |lines| && Classify(c, scope, rows, lines[i]) == Some(reason)
      ensures forall i, j | 0 <= i < j < |conflicts| :: conflicts[i].0 < conflicts[j].0
    {
      conflicts := [];
      for k := 0 to |lines|
        invariant forall i: nat, reason :: (i, reason) in conflicts <==>
            i < k && Classify(c, scope, rows, lines[i]) == Some(reason)
        invariant forall i | 0 <= i < |conflicts| :: conflicts[i].0 < k
        invariant forall i, j | 0 <= i < j < |conflicts| :: conflicts[i].0 < conflicts[j].0
        invariant conflicts == [] <==> forall i | 0 <= i < k :: Classify(c, scope, rows, lines[i]).None?
      {
        var reason := Classify(c, scope, rows, lines[k]);
        if reason.Some? { conflicts := conflicts + [(k, reason.value)]; }
      }
    }

    /** Locks, checks and moves one line at a time; a line that fails leaves the earlier ones moved. */
    method MoveLines(eff: Effect, ms: seq<Move>) returns (ok: bool, lines: seq<OrderLine>)
      modifies this`rows
      ensures ok == MoveAll(old(rows), eff, ms).Some?
      ensures ok ==> rows == MoveAll(old(rows), eff, ms).value && lines == LinesOf(eff, ms)
    {
      lines := [];
      for i := 0 to |ms|
        invariant MoveAll(old(rows), eff, ms[..i]) == Some(rows)
        invariant lines == LinesOf(eff, ms[..i])
      {
        MoveAllNext(old(rows), eff, ms, i);
        var f := FirstRow(rows, ms[i].place);
        if f.None? || (eff != Return && Available(rows[f.value]) < ms[i].qty) {
          MoveAllStops(old(rows), eff, ms, i + 1);
          return false, [];
        }
        lines := lines + [LineOf(eff, ms[i])];
        rows := rows[f.value := Shift(rows[f.value], eff, ms[i].qty)];
      }
      assert ms[..|ms|] == ms;
      return true, lines;
    }

    method Checkout(c: Catalog, home: Option<nat>, scope: set<nat>, now: int, cart: Cart) returns (why: Option<Refusal>)
      requires cart.lines != []
      modifies this
      ensures var want := PosLedger.Checkout(c, home, scope, now, old(View()), cart);
              if want.Ok? then why.None? && View() == want.db else why == Some(want.why) && View() == old(View())
    {
      if !InScope(c, scope, cart.lines) { return Some(OutOfScope); }
      if exists k | 0 <= k < |cart.lines| :: !Live(c, cart.lines[k].code) { return Some(Unresolved); }
      if !cart.backorder && !AllResolve(c, cart.lines) { return Some(Unresolved); }
      why := ParentGate(orders, scope, cart);
      if why.Some? { return; }
      if cart.backorder && home.None? { return Some(NoBackorderWarehouse); }
      var rows0 := rows;
      var order;
      if cart.backorder {
        order := NewOrder(cart, WaitingStock, home.value, now, BackorderLines(c, cart.lines));
      } else {
        var ms, eff := Moves(c, cart.lines), CartEffect(cart);
        LockedLoopIsDemand(rows, eff, ms);
        var ok, lines := MoveLines(eff, InLockOrder(ms));
        if !ok {
          rows := rows0;
          return Some(StockShort);
        }
        order := NewOrder(cart, if cart.phone then Open else Shipped, ms[0].place.warehouse, now, lines);
      }
      if cart.kind == Exchange {
        why := CheckReturns(c, orders[cart.parent.value].lines, cart.returned);
        if why.Some? {
          rows := rows0;
          return;
        }
      }
      orders := orders + [order];
    }

    method Refund(c: Catalog, scope: set<nat>, now: int, req: RefundRequest) returns (why: Option<Refusal>)
      modifies this
      ensures var want := PosLedger.Refund(c, scope, now, old(View()), req);
              if want.Ok? then why.None? && View() == want.db else why == Some(want.why) && View() == old(View())
    {
      var gate := RefundGate(scope, now, Db(rows, orders), req);
      if gate.Some? { return gate; }
      var soldLines := orders[req.original].audit.value.lines;
      if !AllResolve(c, soldLines) { return Some(OriginalNotFound); }
      var askedLines := if req.lines.Some? then req.lines.value else soldLines;
      if !AllResolve(c, askedLines) { return Some(NotInOrder); }
      var sold, asked := Moves(c, soldLines), Moves(c, askedLines);
      var bad, full := CheckAsked(orders, req.original, sold, asked, req.lines.Some?);
      if bad.Some? { return bad; }
      why := Book(req.original, now, sold, asked, full);
    }

    /** Returns the goods, adds the credit memo and closes the sale once it is credited in full. */
    method Book(o: nat, now: int, sold: seq<Move>, asked: seq<Move>, full: bool) returns (why: Option<Refusal>)
      requires o < |orders| && full == Completes(orders, o, sold, asked)
      modifies this
      ensures if Fits(old(rows), Return, asked) then why.None? && View() == Booked(old(View()), o, now, sold, asked)
              else why == Some(OriginalNotFound) && View() == old(View())
    {
      var original, rows0 := orders[o], rows;
      LockedLoopIsDemand(rows, Return, asked);
      var ok, lines := MoveLines(Return, InLockOrder(asked));
      if !ok {
        rows := rows0;
        return Some(OriginalNotFound);
      }
      var n := |orders|;
      orders := orders + [Order(true, CreditMemo, Shipped, original.warehouse, now, lines, Some(o), None, None, None)];
      if full {
        orders := orders[o := original.(status := Refunded, refundedAt := Some(now), memo := Some(n))];
      }
      return None;
    }
  }
}
