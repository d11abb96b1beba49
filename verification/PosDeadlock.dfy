/**
 Waits between checkouts and refunds: the cycles that their locks, keys and shared parents can close, exactly.
 */
module PosDeadlock {
  import opened Prelude
  import opened PosLedger
  import opened PosStock
  import opened PosTxn
  import opened PosSerial

  // ----- Waits -----

  /** `t`'s next statement waits for something `u` holds. */
  predicate WaitsFor(s: State, t: nat, u: nat) {
    && t in s.txns && u in s.txns && t != u
    && var x, y := s.txns[t], s.txns[u];
       || (x.phase.Probed? && x.ask.body.RefundBody?
           && (HoldsOrder(y, x.ask.body.req.original) || SharesOrder(y, x.ask.body.req.original)))
       || (x.phase.Checked? && HoldsKey(y) && y.ask.key == x.ask.key)
       || (x.phase.Keyed? && ParentOf(x.ask).Some? && HoldsOrder(y, ParentOf(x.ask).value))
       || (x.phase.Moving? && x.phase.done < |x.phase.plan.lines|
           && NextRow(s, t).Some? && NextRow(s, t).value in y.rows)
  }

  /** Rows are waited for in (item, bin) order. */
  predicate Earlier(x: Txn, y: Txn) {
    && x.phase.Moving? && y.phase.Moving? && x.phase.done < |x.phase.plan.lines| && y.phase.done < |y.phase.plan.lines|
    && !Before(y.phase.plan.lines[y.phase.done], x.phase.plan.lines[x.phase.done])
  }

  /** Bin ids are a primary key, so one bin has one warehouse. */
  predicate BinsUnique(c: Catalog) {
    forall a, b | a in c.bins && b in c.bins && c.bins[a] == c.bins[b] :: a == b
  }

  predicate InCatalog(c: Catalog, p: Place) {
    exists key | key in c.bins :: key.0 == p.warehouse && c.bins[key] == p.bin
  }

  lemma MovesInCatalog(c: Catalog, lines: seq<CartLine>)
    requires AllResolve(c, lines)
    ensures forall m | m in InLockOrder(Moves(c, lines)) :: InCatalog(c, m.place)
  {
    var ms := Moves(c, lines);
    LockOrderKeeps(ms, OfItem(0));
    forall m | m in InLockOrder(ms) ensures InCatalog(c, m.place) {
      assert m in multiset(ms);
      var k :| 0 <= k < |ms| && ms[k] == m;
      assert Resolve(c, lines[k].code) == Some(m.place);
      assert (m.place.warehouse, lines[k].code.bin) in c.bins;
    }
  }

  lemma PlanLines(c: Catalog, home: Option<nat>, db: Db, x: Txn)
    requires HasPlan(x) && PlanIntact(c, home, db, x)
    ensures Ordered(x.phase.plan.lines) && forall m | m in x.phase.plan.lines :: InCatalog(c, m.place)
  {
    var lines := match x.ask.body
      case SaleBody(cart) => cart.lines
      case RefundBody(req) =>
        if req.lines.Some? then req.lines.value else db.orders[req.original].audit.value.lines;
    if x.phase.plan.lines != [] {
      MovesInCatalog(c, lines);
      LockOrderOrdered(Moves(c, lines));
    }
  }

  lemma TiedPlaces(c: Catalog, m: Move, n: Move)
    requires BinsUnique(c) && InCatalog(c, m.place) && InCatalog(c, n.place) && Before(m, n) && Before(n, m)
    ensures m.place == n.place
  {}

  /** The rows a moving transaction holds belong to lines before its next one. */
  lemma HeldBefore(rows: seq<Row>, y: Txn, k: nat, p: Place)
    requires RowsIntact(rows, y) && y.phase.Moving? && y.phase.done < |y.phase.plan.lines|
        && Ordered(y.phase.plan.lines)
    requires k in y.rows && FirstRow(rows, p) == Some(k)
    ensures var n := y.phase.plan.lines[y.phase.done];
            p.item < n.place.item || (p.item == n.place.item && p.bin <= n.place.bin)
  {
    assert Named(rows, y.rows.Keys, y.phase.plan.lines, y.phase.done);
    var j :| 0 <= j < y.phase.done && y.phase.plan.lines[j].place == rows[k].place;
    assert Before(y.phase.plan.lines[j], y.phase.plan.lines[y.phase.done]);
  }

  lemma RowWaitRises(c: Catalog, home: Option<nat>, db: Db, x: Txn, y: Txn, k: nat)
    requires BinsUnique(c) && PlanIntact(c, home, db, x) && PlanIntact(c, home, db, y) && RowsIntact(db.rows, y)
    requires x.phase.Moving? && x.phase.done < |x.phase.plan.lines|
    requires y.phase.Moving? && y.phase.done < |y.phase.plan.lines|
    requires FirstRow(db.rows, x.phase.plan.lines[x.phase.done].place) == Some(k) && k in y.rows
    requires FirstRow(db.rows, y.phase.plan.lines[y.phase.done].place) != Some(k)
    ensures Earlier(x, y)
  {
    var m, n := x.phase.plan.lines[x.phase.done], y.phase.plan.lines[y.phase.done];
    PlanLines(c, home, db, x);
    PlanLines(c, home, db, y);
    HeldBefore(db.rows, y, k, m.place);
    assert m in x.phase.plan.lines && n in y.phase.plan.lines;
    if Before(n, m) { TiedPlaces(c, m, n); }
  }

  /** A refund that has locked its original meets the key of a child order, or that child meets its locked parent. */
  predicate Crossing(s: State, t: nat, u: nat) {
    && t in s.txns && u in s.txns && t != u
    && var x, y := s.txns[t], s.txns[u];
       || (x.phase.Checked? && x.ask.body.RefundBody? && y.phase.Keyed? && ParentOf(y.ask).Some?
           && y.ask.key == x.ask.key)
       || (x.phase.Keyed? && y.phase.Checked? && y.ask.body.RefundBody?
           && ParentOf(x.ask) == Some(y.ask.body.req.original))
  }

  /** Whoever waits and is waited for is a refund before its insert, a child before its share lock, or moving lines. */
  lemma WaitsAndHolds(c: Catalog, home: Option<nat>, s: State, t: nat, u: nat, v: nat)
    requires Locks(c, home, s) && WaitsFor(s, t, u) && WaitsFor(s, u, v)
    ensures var y := s.txns[u];
            (y.phase.Checked? && y.ask.body.RefundBody?) || (y.phase.Keyed? && ParentOf(y.ask).Some?) || y.phase.Moving?
  {
    assert TxnIntact(c, home, s.db, s.txns[u]);
  }

  predicate IsMoving(s: State, t: nat) {
    t in s.txns && s.txns[t].phase.Moving?
  }

  predicate Rises(s: State, t: nat, u: nat) {
    t in s.txns && u in s.txns && Earlier(s.txns[t], s.txns[u])
  }

  /** In a cycle a wait is a crossing, or leads to a transaction moving lines; and from there on to a later line. */
  lemma CycleStep(c: Catalog, home: Option<nat>, s: State, r: nat, t: nat, u: nat, v: nat)
    requires BinsUnique(c) && Locks(c, home, s) && WaitsFor(s, r, t) && WaitsFor(s, t, u) && WaitsFor(s, u, v)
    ensures Crossing(s, t, u) || IsMoving(s, u)
    ensures IsMoving(s, t) ==> Rises(s, t, u)
  {
    var x, y := s.txns[t], s.txns[u];
    WaitsAndHolds(c, home, s, r, t, u);
    WaitsAndHolds(c, home, s, t, u, v);
    assert TxnIntact(c, home, s.db, x) && TxnIntact(c, home, s.db, y) && Apart(y, s.txns[v]);
    if x.phase.Moving? {
      assert y.phase.Moving?;
      RowWaitRises(c, home, s.db, x, y, NextRow(s, t).value);
    }
  }

  lemma EarlierIsStrict(x: Txn)
    ensures !Earlier(x, x)
  {}

  lemma EarlierTrans(x: Txn, y: Txn, z: Txn)
    requires Earlier(x, y) && Earlier(y, z)
    ensures Earlier(x, z)
  {}

  lemma {:induction false} ChainRises(s: State, ts: seq<nat>)
    requires |ts| >= 2 && forall i | 0 <= i < |ts| - 1 :: Rises(s, ts[i], ts[i + 1])
    ensures Rises(s, ts[0], ts[|ts| - 1])
  {
    var n := |ts| - 1;
    if n > 1 {
      ChainRises(s, ts[..n]);
      assert Rises(s, ts[n - 1], ts[n - 1 + 1]);
      EarlierTrans(s.txns[ts[0]], s.txns[ts[n - 1]], s.txns[ts[n]]);
    }
  }

  predicate Closed(ts: seq<nat>) {
    |ts| >= 2 && ts[0] == ts[|ts| - 1]
  }

  predicate WaitCycle(s: State, ts: seq<nat>) {
    Closed(ts) && forall i | 0 <= i < |ts| - 1 :: WaitsFor(s, ts[i], ts[i + 1])
  }

  predicate CrossingCycle(s: State, ts: seq<nat>) {
    Closed(ts) && forall i | 0 <= i < |ts| - 1 :: Crossing(s, ts[i], ts[i + 1])
  }

  predicate MovesOn(s: State, ts: seq<nat>, k: nat)
    requires k < |ts| - 1
  {
    IsMoving(s, ts[k]) ==> Rises(s, ts[k], ts[k + 1])
  }

  lemma {:induction false} MovingStays(s: State, ts: seq<nat>, i: nat, j: nat)
    requires i <= j < |ts| && IsMoving(s, ts[i])
    requires forall k | 0 <= k < |ts| - 1 :: MovesOn(s, ts, k)
    ensures IsMoving(s, ts[j])
  {
    if i < j {
      MovingStays(s, ts, i, j - 1);
      assert MovesOn(s, ts, j - 1);
    }
  }

  /** Line locks alone never close a cycle, being taken in (item, bin) order. */
  lemma CycleMovesNoLines(s: State, ts: seq<nat>, i: nat)
    requires Closed(ts) && i < |ts|
    requires forall k | 0 <= k < |ts| - 1 :: MovesOn(s, ts, k)
    ensures !IsMoving(s, ts[i])
  {
    if IsMoving(s, ts[i]) {
      MovingStays(s, ts, i, |ts| - 1);
      forall k | 0 <= k < |ts| - 1 ensures Rises(s, ts[k], ts[k + 1]) {
        MovingStays(s, ts, 0, k);
        assert MovesOn(s, ts, k);
      }
      ChainRises(s, ts);
      EarlierIsStrict(s.txns[ts[0]]);
    }
  }

  lemma CrossingsWait(s: State, t: nat, u: nat)
    requires Crossing(s, t, u)
    ensures WaitsFor(s, t, u)
  {}

  /** In a cycle everyone is waited for and waits, the last one for the first. */
  lemma Neighbours(s: State, ts: seq<nat>, i: nat) returns (r: nat, v: nat)
    requires WaitCycle(s, ts) && i < |ts| - 1
    ensures WaitsFor(s, r, ts[i]) && WaitsFor(s, ts[i], ts[i + 1]) && WaitsFor(s, ts[i + 1], v)
  {
    var n := |ts| - 1;
    var before, after := if i == 0 then n - 1 else i - 1, if i + 1 == n then 0 else i + 1;
    assert WaitsFor(s, ts[before], ts[before + 1]) && WaitsFor(s, ts[after], ts[after + 1]);
    r, v := ts[before], ts[after + 1];
  }

  lemma CycleEdge(c: Catalog, home: Option<nat>, s: State, ts: seq<nat>, i: nat)
    requires Locks(c, home, s) && BinsUnique(c) && WaitCycle(s, ts) && i < |ts| - 1
    ensures Crossing(s, ts[i], ts[i + 1]) || IsMoving(s, ts[i + 1])
    ensures IsMoving(s, ts[i]) ==> Rises(s, ts[i], ts[i + 1])
  {
    var r, v := Neighbours(s, ts, i);
    CycleStep(c, home, s, r, ts[i], ts[i + 1], v);
  }

  lemma CycleCrosses(c: Catalog, home: Option<nat>, s: State, ts: seq<nat>)
    requires Locks(c, home, s) && BinsUnique(c) && WaitCycle(s, ts)
    ensures CrossingCycle(s, ts)
  {
    forall k | 0 <= k < |ts| - 1 ensures MovesOn(s, ts, k) { CycleEdge(c, home, s, ts, k); }
    forall i | 0 <= i < |ts| - 1 ensures Crossing(s, ts[i], ts[i + 1]) {
      CycleEdge(c, home, s, ts, i);
      CycleMovesNoLines(s, ts, i + 1);
    }
  }

  lemma CrossingsCycle(s: State, ts: seq<nat>)
    requires CrossingCycle(s, ts)
    ensures WaitCycle(s, ts)
  {
    forall i | 0 <= i < |ts| - 1 ensures WaitsFor(s, ts[i], ts[i + 1]) { CrossingsWait(s, ts[i], ts[i + 1]); }
  }

  /** Exactly when checkouts and refunds deadlock: a ring of transactions wait for each other if and only if they are
      by turns refunds before their insert and children before their share lock, each refund under the key of the child
      after it and each child under the original of the refund after it. */
  lemma DeadlockIff(c: Catalog, home: Option<nat>, start: Db, s: State, ts: seq<nat>)
    requires Reachable(c, home, start, s) && BinsUnique(c)
    ensures WaitCycle(s, ts) <==> CrossingCycle(s, ts)
  {
    ReachableSerial(c, home, start, s);
    if CrossingCycle(s, ts) { CrossingsCycle(s, ts); }
    if WaitCycle(s, ts) { CycleCrosses(c, home, s, ts); }
  }

  /** A refund and a replacement or exchange are under way with one key. */
  predicate KeyCrossed(s: State) {
    exists t, u | t in s.txns && u in s.txns ::
      s.txns[t].ask.body.RefundBody? && ParentOf(s.txns[u].ask).Some? && s.txns[t].ask.key == s.txns[u].ask.key
  }

  lemma CrossingsShareKey(s: State, ts: seq<nat>)
    requires CrossingCycle(s, ts)
    ensures KeyCrossed(s)
  {
    var next := if |ts| > 2 then 1 else 0;
    assert Crossing(s, ts[0], ts[0 + 1]) && Crossing(s, ts[next], ts[next + 1]);
  }

  /** As long as no key is used for a refund and for a replacement or exchange, no deadlock can form. */
  lemma NoDeadlock(c: Catalog, home: Option<nat>, start: Db, s: State, ts: seq<nat>)
    requires Reachable(c, home, start, s) && BinsUnique(c) && !KeyCrossed(s)
    ensures !WaitCycle(s, ts)
  {
    if WaitCycle(s, ts) {
      DeadlockIff(c, home, start, s, ts);
      CrossingsShareKey(s, ts);
    }
  }

  // ----- The cycle can be reached -----

  lemma StepReaches(c: Catalog, home: Option<nat>, start: Db, s: State, step: Step, d: State)
    requires Reachable(c, home, start, s) && Enabled(s, step) && Take(c, home, s, step) == d
    ensures Reachable(c, home, start, d)
  {
    var steps :| Legal(c, home, Init(start), steps) && s == Run(c, home, Init(start), steps);
    assert (steps + [step])[..|steps|] == steps;
    assert Legal(c, home, Init(start), steps + [step]);
  }

  /** Two transactions, nothing committed yet. */
  function Two(start: Db, x: Txn, y: Txn): State {
    State(start, [], map[0 := x, 1 := y], [], [])
  }

  function At(a: Ask, phase: Phase): Txn {
    Txn(a, phase, map[], [])
  }

  /** The other one, seen from `t`. */
  function Put(start: Db, t: nat, x: Txn, y: Txn): State {
    if t == 0 then Two(start, x, y) else Two(start, y, x)
  }

  lemma PutGoto(start: Db, t: nat, a: Ask, phase: Phase, phase': Phase, y: Txn)
    requires t <= 1
    ensures var s := Put(start, t, At(a, phase), y);
            t in s.txns && s.txns[t] == At(a, phase) && Goto(s, t, phase') == Put(start, t, At(a, phase'), y)
    ensures forall u | u in Put(start, t, At(a, phase), y).txns && u != t :: Put(start, t, At(a, phase), y).txns[u] == y
  {}

  lemma BothBegin(c: Catalog, home: Option<nat>, start: Db, a: Ask, b: Ask)
    requires BodyOk(a.body) && BodyOk(b.body)
    ensures Reachable(c, home, start, Two(start, At(a, Begun), At(b, Begun)))
  {
    var one := State(start, [], map[0 := At(a, Begun)], [], []);
    assert Legal(c, home, Init(start), []) && Init(start) == Run(c, home, Init(start), []);
    StepReaches(c, home, start, Init(start), Begin(0, a), one);
    StepReaches(c, home, start, one, Begin(1, b), Two(start, At(a, Begun), At(b, Begun)));
  }

  lemma OneProbes(c: Catalog, home: Option<nat>, start: Db, t: nat, a: Ask, y: Txn)
    requires t <= 1 && Reachable(c, home, start, Put(start, t, At(a, Begun), y))
    ensures Reachable(c, home, start, Put(start, t, At(a, Probed), y))
  {
    PutGoto(start, t, a, Begun, Probed, y);
    StepReaches(c, home, start, Put(start, t, At(a, Begun), y), Probe(t), Put(start, t, At(a, Probed), y));
  }

  lemma RefundLocks(c: Catalog, home: Option<nat>, start: Db, a: Ask, y: Txn)
    requires a.body.RefundBody? && RefundGate(a.scope, a.now, start, a.body.req).None? && y.phase == Probed
    requires Reachable(c, home, start, Put(start, 0, At(a, Probed), y))
    ensures Reachable(c, home, start, Put(start, 0, At(a, Locked(start.orders[a.body.req.original])), y))
  {
    var phase, s := Locked(start.orders[a.body.req.original]), Put(start, 0, At(a, Probed), y);
    PutGoto(start, 0, a, Probed, phase, y);
    assert !OrderHeldByPeer(s, 0, a.body.req.original) && !OrderSharedByPeer(s, 0, a.body.req.original);
    StepReaches(c, home, start, s, LockOriginal(0), Put(start, 0, At(a, phase), y));
  }

  lemma OneChecks(c: Catalog, home: Option<nat>, start: Db, t: nat, a: Ask, phase: Phase, plan: Plan, y: Txn)
    requires t <= 1 && BodyOk(a.body) && Planned(c, home, start, a, plan)
    requires if a.body.SaleBody? then phase == Probed else phase == Locked(start.orders[a.body.req.original])
    requires Reachable(c, home, start, Put(start, t, At(a, phase), y))
    ensures Reachable(c, home, start, Put(start, t, At(a, Checked(plan)), y))
  {
    PutGoto(start, t, a, phase, Checked(plan), y);
    StepReaches(c, home, start, Put(start, t, At(a, phase), y), Check(t), Put(start, t, At(a, Checked(plan)), y));
  }

  lemma RefundSide(c: Catalog, home: Option<nat>, start: Db, a: Ask, memo: Plan, y: Txn)
    requires BodyOk(a.body) && a.body.RefundBody? && Planned(c, home, start, a, memo) && y.phase == Probed
    requires Reachable(c, home, start, Put(start, 0, At(a, Probed), y))
    ensures Reachable(c, home, start, Put(start, 0, At(a, Checked(memo)), y))
  {
    RefundLocks(c, home, start, a, y);
    OneChecks(c, home, start, 0, a, Locked(start.orders[a.body.req.original]), memo, y);
  }

  lemma ChildInserts(c: Catalog, home: Option<nat>, start: Db, a: Ask, plan: Plan, y: Txn)
    requires ParentOf(a).Some? && !HoldsKey(y) && Reachable(c, home, start, Put(start, 1, At(a, Checked(plan)), y))
    ensures Reachable(c, home, start, Put(start, 1, At(a, Keyed(plan)), y))
  {
    var s := Put(start, 1, At(a, Checked(plan)), y);
    PutGoto(start, 1, a, Checked(plan), Keyed(plan), y);
    assert !KeyHeldByPeer(s, 1, a.key);
    StepReaches(c, home, start, s, Insert(1), Put(start, 1, At(a, Keyed(plan)), y));
  }

  /** A refund of an order and a replacement or exchange of it under one key, each of which could commit, can deadlock:
      the refund has locked the order, the child has inserted the key. */
  lemma CrossedKeysDeadlock(c: Catalog, home: Option<nat>, start: Db, refund: Ask, child: Ask, memo: Plan, plan: Plan)
    requires BodyOk(refund.body) && BodyOk(child.body) && refund.key == child.key
    requires refund.body.RefundBody? && Planned(c, home, start, refund, memo)
    requires Planned(c, home, start, child, plan) && ParentOf(child) == Some(refund.body.req.original)
    ensures var s := Two(start, At(refund, Checked(memo)), At(child, Keyed(plan)));
            Reachable(c, home, start, s) && WaitCycle(s, [0, 1, 0])
  {
    BothBegin(c, home, start, refund, child);
    OneProbes(c, home, start, 0, refund, At(child, Begun));
    OneProbes(c, home, start, 1, child, At(refund, Probed));
    RefundSide(c, home, start, refund, memo, At(child, Probed));
    OneChecks(c, home, start, 1, child, Probed, plan, At(refund, Checked(memo)));
    ChildInserts(c, home, start, child, plan, At(refund, Checked(memo)));
    TheyCross(start, refund, child, memo, plan);
  }

  lemma TheyCross(start: Db, refund: Ask, child: Ask, memo: Plan, plan: Plan)
    requires refund.body.RefundBody? && refund.key == child.key && ParentOf(child) == Some(refund.body.req.original)
    ensures WaitCycle(Two(start, At(refund, Checked(memo)), At(child, Keyed(plan))), [0, 1, 0])
  {
    var s := Two(start, At(refund, Checked(memo)), At(child, Keyed(plan)));
    assert Crossing(s, 0, 1) && Crossing(s, 1, 0);
    CrossingsWait(s, 0, 1);
    CrossingsWait(s, 1, 0);
  }
}
