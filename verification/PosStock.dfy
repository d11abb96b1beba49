/**
 Stock movements of the till: gating and moving one line at a time, in lock order, comes to one comparison of
 each location's total demand with its first row, and one shift of that row.
 */
module PosStock {
  import opened Prelude
  import opened PosLedger

  // ----- The loop -----

  function MoveOne(rows: seq<Row>, eff: Effect, m: Move): Option<seq<Row>> {
    var f := FirstRow(rows, m.place);
    if f.None? || (eff != Return && Available(rows[f.value]) < m.qty) then None
    else Some(rows[f.value := Shift(rows[f.value], eff, m.qty)])
  }

  function MoveAll(rows: seq<Row>, eff: Effect, ms: seq<Move>): Option<seq<Row>> {
    if ms == [] then Some(rows)
    else
      var r := MoveAll(rows, eff, ms[..|ms| - 1]);
      if r.None? then None else MoveOne(r.value, eff, ms[|ms| - 1])
  }

  predicate SamePlaces(a: seq<Row>, b: seq<Row>) {
    |a| == |b| && forall k | 0 <= k < |a| :: a[k].place == b[k].place
  }

  lemma FirstRowSame(a: seq<Row>, b: seq<Row>, p: Place)
    requires SamePlaces(a, b)
    ensures FirstRow(a, p) == FirstRow(b, p)
  {}

  lemma MovedPlaces(rows: seq<Row>, eff: Effect, ms: seq<Move>)
    ensures SamePlaces(rows, Moved(rows, eff, ms))
  {}

  predicate Room(rows: seq<Row>, eff: Effect, p: Place, demand: nat) {
    var f := FirstRow(rows, p);
    f.Some? && (eff == Return || demand <= Available(rows[f.value]))
  }

  lemma TotalSnoc(ms: seq<Move>, m: Move, f: Move -> bool)
    ensures Total(ms + [m], f) == Total(ms, f) + if f(m) then m.qty else 0
  {}

  lemma MovedRowNext(rows: seq<Row>, eff: Effect, ms: seq<Move>, m: Move, k: nat)
    requires k < |rows|
    ensures MovedRow(rows, eff, ms + [m], k) ==
            if FirstRow(rows, m.place) == Some(k) then Shift(MovedRow(rows, eff, ms, k), eff, m.qty)
                else MovedRow(rows, eff, ms, k)
  {}

  lemma MoveNext(rows: seq<Row>, eff: Effect, ms: seq<Move>, m: Move)
    ensures MoveOne(Moved(rows, eff, ms), eff, m) ==
            if Room(rows, eff, m.place, Total(ms + [m], AtPlace(m.place))) then Some(Moved(rows, eff, ms + [m]))
                else None
  {
    var now := Moved(rows, eff, ms);
    MovedPlaces(rows, eff, ms);
    FirstRowSame(rows, now, m.place);
    TotalSnoc(ms, m, AtPlace(m.place));
    var r := MoveOne(now, eff, m);
    if r.Some? {
      forall k | 0 <= k < |rows|
          ensures r.value[k] == Moved(rows, eff, ms + [m])[k] { MovedRowNext(rows, eff, ms, m, k); }
      assert r.value == Moved(rows, eff, ms + [m]);
    }
  }

  lemma FitsNext(rows: seq<Row>, eff: Effect, ms: seq<Move>, m: Move)
    ensures Fits(rows, eff, ms + [m]) <==>
        Fits(rows, eff, ms) && Room(rows, eff, m.place, Total(ms + [m], AtPlace(m.place)))
  {
    var all := ms + [m];
    forall k | 0 <= k < |ms|
      ensures all[k] == ms[k]
      ensures ms[k].place != m.place ==> Total(all, AtPlace(ms[k].place)) == Total(ms, AtPlace(ms[k].place))
      ensures Total(ms, AtPlace(ms[k].place)) <= Total(all, AtPlace(ms[k].place))
    {
      TotalSnoc(ms, m, AtPlace(ms[k].place));
    }
    assert all[|ms|] == m;
    if Fits(rows, eff, all) {
      forall k | 0 <= k < |ms| ensures Room(rows, eff, ms[k].place, Total(ms, AtPlace(ms[k].place))) {
        assert Room(rows, eff, all[k].place, Total(all, AtPlace(all[k].place)));
      }
    }
    if Fits(rows, eff, ms) && Room(rows, eff, m.place, Total(all, AtPlace(m.place))) {
      forall k | 0 <= k < |all| ensures Room(rows, eff, all[k].place, Total(all, AtPlace(all[k].place))) {
        if k < |ms| { assert Room(rows, eff, ms[k].place, Total(ms, AtPlace(ms[k].place))); }
      }
    }
  }

  /** The running check passes every line if and only if every location's total demand fits its first row. */
  lemma {:induction false} LoopIsDemand(rows: seq<Row>, eff: Effect, ms: seq<Move>)
    ensures MoveAll(rows, eff, ms) == if Fits(rows, eff, ms) then Some(Moved(rows, eff, ms)) else None
  {
    if ms == [] {
      forall k | 0 <= k < |rows| ensures Moved(rows, eff, ms)[k] == rows[k] {}
      assert Moved(rows, eff, ms) == rows;
    } else {
      var rest, m := ms[..|ms| - 1], ms[|ms| - 1];
      assert ms == rest + [m];
      LoopIsDemand(rows, eff, rest);
      FitsNext(rows, eff, rest, m);
      MoveNext(rows, eff, rest, m);
    }
  }

  lemma {:induction false} TotalElsewhere(ms: seq<Move>, p: Place)
    requires forall k | 0 <= k < |ms| :: ms[k].place != p
    ensures Total(ms, AtPlace(p)) == 0
  {
    if ms != [] { TotalElsewhere(ms[..|ms| - 1], p); }
  }

  // ----- Lock order does not matter -----

  lemma {:induction false} InsertKeeps(s: seq<Move>, m: Move, f: Move -> bool)
    ensures Total(Insert(s, m), f) == Total(s, f) + if f(m) then m.qty else 0
    ensures multiset(Insert(s, m)) == multiset(s) + multiset{m}
  {
    if s == [] || Before(s[|s| - 1], m) {
      TotalSnoc(s, m, f);
    } else {
      var rest, last := s[..|s| - 1], s[|s| - 1];
      assert s == rest + [last];
      InsertKeeps(rest, m, f);
      TotalSnoc(Insert(rest, m), last, f);
    }
  }

  lemma {:induction false} LockOrderKeeps(ms: seq<Move>, f: Move -> bool)
    ensures Total(InLockOrder(ms), f) == Total(ms, f)
    ensures multiset(InLockOrder(ms)) == multiset(ms)
  {
    if ms != [] {
      var rest, m := ms[..|ms| - 1], ms[|ms| - 1];
      assert ms == rest + [m];
      LockOrderKeeps(rest, f);
      InsertKeeps(InLockOrder(rest), m, f);
    }
  }

  predicate Ordered(ms: seq<Move>) {
    forall i, j | 0 <= i < j < |ms| :: Before(ms[i], ms[j])
  }

  lemma InsertFrom(s: seq<Move>, m: Move, x: Move)
    requires x in Insert(s, m)
    ensures x == m || x in s
  {
    InsertKeeps(s, m, OfItem(0));
    assert x in multiset(Insert(s, m));
  }

  lemma {:induction false} InsertOrdered(s: seq<Move>, m: Move)
    requires Ordered(s)
    ensures Ordered(Insert(s, m))
  {
    if s != [] && !Before(s[|s| - 1], m) {
      var rest, last := s[..|s| - 1], s[|s| - 1];
      InsertOrdered(rest, m);
      var t := Insert(rest, m);
      forall i | 0 <= i < |t| ensures Before(t[i], last) {
        InsertFrom(rest, m, t[i]);
        if t[i] != m {
          var k :| 0 <= k < |rest| && rest[k] == t[i];
          assert Before(s[k], s[|s| - 1]);
        }
      }
    }
  }

  /** Two transactions that lock several lines take them in the same order. */
  lemma {:induction false} LockOrderOrdered(ms: seq<Move>)
    ensures Ordered(InLockOrder(ms))
  {
    if ms != [] {
      LockOrderOrdered(ms[..|ms| - 1]);
      InsertOrdered(InLockOrder(ms[..|ms| - 1]), ms[|ms| - 1]);
    }
  }

  lemma FitsPermuted(rows: seq<Row>, eff: Effect, a: seq<Move>, b: seq<Move>)
    requires multiset(a) == multiset(b) && forall p :: Total(a, AtPlace(p)) == Total(b, AtPlace(p))
    requires Fits(rows, eff, a)
    ensures Fits(rows, eff, b)
  {
    forall k | 0 <= k < |b| ensures Room(rows, eff, b[k].place, Total(b, AtPlace(b[k].place))) {
      assert b[k] in multiset(a);
      var j :| 0 <= j < |a| && a[j] == b[k];
      assert Room(rows, eff, a[j].place, Total(a, AtPlace(a[j].place)));
    }
  }

  /** The handlers' loop over lines in lock order decides and does what the cart's demand says. */
  lemma LockedLoopIsDemand(rows: seq<Row>, eff: Effect, ms: seq<Move>)
    ensures MoveAll(rows, eff, InLockOrder(ms)) == if Fits(rows, eff, ms) then Some(Moved(rows, eff, ms)) else None
  {
    var s := InLockOrder(ms);
    LoopIsDemand(rows, eff, s);
    LockOrderKeeps(ms, OfItem(0));
    forall p ensures Total(s, AtPlace(p)) == Total(ms, AtPlace(p)) { LockOrderKeeps(ms, AtPlace(p)); }
    if Fits(rows, eff, s) { FitsPermuted(rows, eff, s, ms); }
    if Fits(rows, eff, ms) { FitsPermuted(rows, eff, ms, s); }
    forall k | 0 <= k < |rows| ensures Moved(rows, eff, s)[k] == Moved(rows, eff, ms)[k] {}
    assert Moved(rows, eff, s) == Moved(rows, eff, ms);
  }

  // ----- What a movement keeps -----

  predicate RowsOk(rows: seq<Row>) {
    forall k | 0 <= k < |rows| :: 0 <= rows[k].reserved <= rows[k].onHand
  }

  function OnHandOf(rows: seq<Row>, item: nat): int {
    if rows == [] then 0
    else OnHandOf(rows[..|rows| - 1], item) + if rows[|rows| - 1].place.item == item then rows[|rows| - 1].onHand else 0
  }

  function ReservedOf(rows: seq<Row>, item: nat): int {
    if rows == [] then 0
    else ReservedOf(rows[..|rows| - 1], item) + if rows[|rows| - 1].place.item == item then rows[|rows| - 1].reserved
        else 0
  }

  lemma {:induction false} SumsUpdate(rows: seq<Row>, k: nat, r: Row, item: nat)
    requires k < |rows| && r.place == rows[k].place
    ensures ReservedOf(rows[k := r], item) == ReservedOf(rows, item) + if r.place.item == item then
        r.reserved - rows[k].reserved else 0
    ensures OnHandOf(rows[k := r], item) == OnHandOf(rows, item) + if r.place.item == item then
        r.onHand - rows[k].onHand else 0
  {
    var n := |rows| - 1;
    if k == n {
      assert rows[k := r][..n] == rows[..n];
    } else {
      SumsUpdate(rows[..n], k, r, item);
      assert rows[k := r][..n] == rows[..n][k := r];
    }
  }

  /** What leaves the shelves when `qty` moves. */
  function Outflow(eff: Effect, qty: int): int {
    match eff
    case Ship => qty
    case Reserve => 0
    case Return => -qty
  }

  /** What becomes reserved. */
  function Hold(eff: Effect, qty: int): int {
    if eff == Reserve then qty else 0
  }

  lemma {:induction false} LoopKeeps(rows: seq<Row>, eff: Effect, ms: seq<Move>, item: nat)
    requires MoveAll(rows, eff, ms).Some?
    ensures var r := MoveAll(rows, eff, ms).value;
            && (RowsOk(rows) ==> RowsOk(r))
            && OnHandOf(r, item) == OnHandOf(rows, item) - Outflow(eff, Total(ms, OfItem(item)))
            && ReservedOf(r, item) == ReservedOf(rows, item) + Hold(eff, Total(ms, OfItem(item)))
  {
    if ms != [] {
      var rest, m := ms[..|ms| - 1], ms[|ms| - 1];
      LoopKeeps(rows, eff, rest, item);
      var mid := MoveAll(rows, eff, rest).value;
      var k := FirstRow(mid, m.place).value;
      SumsUpdate(mid, k, Shift(mid[k], eff, m.qty), item);
    }
  }

  /** A movement that fits keeps 0 <= reserved <= on hand everywhere and moves each item's totals by its demand. */
  lemma MovedKeeps(rows: seq<Row>, eff: Effect, ms: seq<Move>, item: nat)
    requires Fits(rows, eff, ms)
    ensures RowsOk(rows) ==> RowsOk(Moved(rows, eff, ms))
    ensures OnHandOf(Moved(rows, eff, ms), item) == OnHandOf(rows, item) - Outflow(eff, Total(ms, OfItem(item)))
    ensures ReservedOf(Moved(rows, eff, ms), item) == ReservedOf(rows, item) + Hold(eff, Total(ms, OfItem(item)))
  {
    LoopIsDemand(rows, eff, ms);
    LoopKeeps(rows, eff, ms, item);
  }

  /** Returning what was shipped puts back exactly what each row lost. */
  lemma ReturnNegatesShip(a: seq<Row>, b: seq<Row>, ms: seq<Move>, k: nat)
    requires SamePlaces(a, b) && k < |a|
    ensures Moved(b, Return, ms)[k].onHand - b[k].onHand == a[k].onHand - Moved(a, Ship, ms)[k].onHand
    ensures Moved(b, Return, ms)[k].reserved == b[k].reserved
  {}
}
