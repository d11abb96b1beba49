/**
 Locks make interleaved checkouts and refunds serial: each transaction's plan and each row it has written stay what
 they would be if everything committed so far had run before it.
 */
module PosSerial {
  import opened Prelude
  import opened PosLedger
  import opened PosStock
  import opened PosTxn
  import PosRefunds
  import PosKeys

  // ----- Invariant -----

  /** Made now, the checks would decide the same. */
  predicate Planned(c: Catalog, home: Option<nat>, db: Db, a: Ask, plan: Plan) {
    match a.body
    case SaleBody(cart) => cart.lines != [] && PlanSale(c, home, db.orders, a, cart) == Some(plan)
    case RefundBody(req) =>
      RefundGate(a.scope, a.now, db, req).None?
          && PlanRefund(c, db.orders, a, req, db.orders[req.original]) == Some(plan)
  }

  /** Each locked row is its place's first and shows what `ms` make of the row now committed. */
  predicate Shown(rows: seq<Row>, mine: map<nat, Row>, eff: Effect, ms: seq<Move>) {
    forall k | k in mine ::
        k < |rows| && FirstRow(rows, rows[k].place) == Some(k) && mine[k] == MovedRow(rows, eff, ms, k)
  }

  /** Only rows of the first `upto` lines are locked. */
  predicate Named(rows: seq<Row>, held: set<nat>, lines: seq<Move>, upto: nat)
    requires upto <= |lines|
  {
    forall k | k in held :: k < |rows| && exists j | 0 <= j < upto :: lines[j].place == rows[k].place
  }

  /** The rows of the first `done` lines are locked. */
  predicate Reached(rows: seq<Row>, held: set<nat>, lines: seq<Move>, done: nat)
    requires done <= |lines|
  {
    forall j | 0 <= j < done :: FirstRow(rows, lines[j].place).Some? && FirstRow(rows, lines[j].place).value in held
  }

  predicate Written(rows: seq<Row>, x: Txn, plan: Plan, done: nat, upto: nat) {
    && done <= upto <= |plan.lines|
    && Shown(rows, x.rows, plan.eff, plan.lines[..done]) && Named(rows, x.rows.Keys, plan.lines, upto)
    && Reached(rows, x.rows.Keys, plan.lines, done)
    && Fits(rows, plan.eff, plan.lines[..done]) && x.lines == LinesOf(plan.eff, plan.lines[..done])
  }

  predicate RowsIntact(rows: seq<Row>, x: Txn) {
    match x.phase
    case Moving(plan, done) => Written(rows, x, plan, done, done)
    case Gating(plan, done, k) =>
      && done < |plan.lines| && Written(rows, x, plan, done, done + 1)
      && FirstRow(rows, plan.lines[done].place) == Some(k) && k in x.rows
    case _ => x.rows == map[] && x.lines == []
  }

  predicate HasPlan(x: Txn) {
    x.phase.Checked? || x.phase.Keyed? || x.phase.Moving? || x.phase.Gating?
  }

  predicate PlanIntact(c: Catalog, home: Option<nat>, db: Db, x: Txn) {
    && (HasPlan(x) ==> Planned(c, home, db, x.ask, x.phase.plan)) && (x.phase.Keyed? ==> ParentOf(x.ask).Some?)
    && (x.phase.Locked? ==>
          && x.ask.body.RefundBody? && RefundGate(x.ask.scope, x.ask.now, db, x.ask.body.req).None?
          && x.phase.original == db.orders[x.ask.body.req.original])
  }

  predicate Apart(x: Txn, y: Txn) {
    && x.rows.Keys !! y.rows.Keys
    && (x.ask.body.RefundBody? && HoldsOrder(x, x.ask.body.req.original) ==> !HoldsOrder(y, x.ask.body.req.original))
  }

  predicate Exclusive(s: State) {
    forall t, u | t in s.txns && u in s.txns && t != u :: Apart(s.txns[t], s.txns[u])
  }

  predicate TxnIntact(c: Catalog, home: Option<nat>, db: Db, x: Txn) {
    BodyOk(x.ask.body) && RowsIntact(db.rows, x) && PlanIntact(c, home, db, x)
  }

  predicate Locks(c: Catalog, home: Option<nat>, s: State) {
    Exclusive(s) && forall t | t in s.txns :: TxnIntact(c, home, s.db, s.txns[t])
  }

  // ----- A step that commits nothing -----

  /** A row none of whose place's lines are written yet shows itself. */
  lemma UnwrittenRow(rows: seq<Row>, held: set<nat>, eff: Effect, lines: seq<Move>, done: nat, k: nat)
    requires done <= |lines| && Reached(rows, held, lines, done) && k < |rows| && k !in held
    requires FirstRow(rows, rows[k].place) == Some(k)
    ensures MovedRow(rows, eff, lines[..done], k) == rows[k]
  {
    forall j | 0 <= j < done ensures lines[..done][j].place != rows[k].place {
      assert FirstRow(rows, lines[j].place).value in held;
    }
    TotalElsewhere(lines[..done], rows[k].place);
  }

  lemma RowLocked(rows: seq<Row>, mine: map<nat, Row>, eff: Effect, lines: seq<Move>, done: nat, k: nat)
    requires done < |lines| && FirstRow(rows, lines[done].place) == Some(k)
    requires Shown(rows, mine, eff, lines[..done]) && Named(rows, mine.Keys, lines, done)
    requires Reached(rows, mine.Keys, lines, done)
    ensures var mine' := mine[k := if k in mine then mine[k] else rows[k]];
            && Shown(rows, mine', eff, lines[..done]) && Named(rows, mine'.Keys, lines, done + 1)
            && Reached(rows, mine'.Keys, lines, done)
  {
    if k !in mine { UnwrittenRow(rows, mine.Keys, eff, lines, done, k); }
    NamedNext(rows, mine.Keys, lines, done, k);
    assert mine[k := if k in mine then mine[k] else rows[k]].Keys == mine.Keys + {k};
  }

  lemma NamedNext(rows: seq<Row>, held: set<nat>, lines: seq<Move>, done: nat, k: nat)
    requires done < |lines| && Named(rows, held, lines, done) && k < |rows| && rows[k].place == lines[done].place
    ensures Named(rows, held + {k}, lines, done + 1)
  {}

  lemma LockLineRows(s: State, t: nat)
    requires Enabled(s, LockLine(t)) && RowsIntact(s.db.rows, s.txns[t])
    ensures RowsIntact(s.db.rows, DoLockLine(s, t).txns[t])
  {
    var x, f := s.txns[t], NextRow(s, t);
    if f.Some? { RowLocked(s.db.rows, x.rows, x.phase.plan.eff, x.phase.plan.lines, x.phase.done, f.value); }
  }

  /** The gate against the locked row is the gate against what the earlier lines leave of it. */
  lemma RowMoved(rows: seq<Row>, mine: map<nat, Row>, eff: Effect, lines: seq<Move>, done: nat, k: nat)
    requires done < |lines| && FirstRow(rows, lines[done].place) == Some(k) && k in mine
    requires Shown(rows, mine, eff, lines[..done]) && Fits(rows, eff, lines[..done])
    requires eff == Return || Available(mine[k]) >= lines[done].qty
    ensures var mine' := mine[k := Shift(mine[k], eff, lines[done].qty)];
            Shown(rows, mine', eff, lines[..done + 1]) && Fits(rows, eff, lines[..done + 1])
  {
    var m, before := lines[done], lines[..done];
    assert lines[..done + 1] == before + [m];
    TotalSnoc(before, m, AtPlace(m.place));
    FitsNext(rows, eff, before, m);
    assert Room(rows, eff, m.place, Total(before + [m], AtPlace(m.place)));
    forall i | i in mine ensures MovedRow(rows, eff, before + [m], i) ==
        if i == k then Shift(MovedRow(rows, eff, before, i), eff, m.qty) else MovedRow(rows, eff, before, i)
    {
      MovedRowNext(rows, eff, before, m, i);
    }
  }

  lemma LinesSnoc(eff: Effect, lines: seq<Move>, done: nat)
    requires done < |lines|
    ensures LinesOf(eff, lines[..done]) + [LineOf(eff, lines[done])] == LinesOf(eff, lines[..done + 1])
  {}

  lemma LineWritten(rows: seq<Row>, x: Txn, x': Txn, plan: Plan, done: nat, k: nat)
    requires done < |plan.lines| && Written(rows, x, plan, done, done + 1)
    requires Shown(rows, x'.rows, plan.eff, plan.lines[..done + 1]) && Fits(rows, plan.eff, plan.lines[..done + 1])
    requires FirstRow(rows, plan.lines[done].place) == Some(k) && x'.rows.Keys == x.rows.Keys && k in x.rows
    requires x'.lines == LinesOf(plan.eff, plan.lines[..done + 1])
    ensures Written(rows, x', plan, done + 1, done + 1)
  {
    assert Reached(rows, x'.rows.Keys, plan.lines, done + 1);
  }

  lemma AfterLineRows(rows: seq<Row>, x: Txn, plan: Plan, done: nat, k: nat)
    requires done < |plan.lines| && Written(rows, x, plan, done, done + 1)
    requires FirstRow(rows, plan.lines[done].place) == Some(k) && k in x.rows
    requires plan.eff == Return || Available(x.rows[k]) >= plan.lines[done].qty
    ensures Written(rows, AfterLine(x, plan, done, k), plan, done + 1, done + 1)
  {
    var x' := AfterLine(x, plan, done, k);
    RowMoved(rows, x.rows, plan.eff, plan.lines, done, k);
    LinesSnoc(plan.eff, plan.lines, done);
    assert x'.rows.Keys == x.rows.Keys;
    LineWritten(rows, x, x', plan, done, k);
  }

  lemma MoveLineRows(rows: seq<Row>, x: Txn)
    requires x.phase.Gating? && RowsIntact(rows, x)
    requires x.phase.plan.eff == Return || Available(x.rows[x.phase.row]) >= x.phase.plan.lines[x.phase.done].qty
    ensures RowsIntact(rows, AfterLine(x, x.phase.plan, x.phase.done, x.phase.row))
  {
    AfterLineRows(rows, x, x.phase.plan, x.phase.done, x.phase.row);
  }

  lemma MoveLineStep(s: State, t: nat)
    requires Enabled(s, MoveLine(t)) && RowsIntact(s.db.rows, s.txns[t])
    ensures RowsIntact(s.db.rows, DoMoveLine(s, t).txns[t])
  {
    var x := s.txns[t];
    if x.phase.plan.eff == Return || Available(x.rows[x.phase.row]) >= x.phase.plan.lines[x.phase.done].qty {
      MoveLineRows(s.db.rows, x);
    }
  }

  lemma QuietRows(c: Catalog, home: Option<nat>, s: State, step: Step)
    requires Enabled(s, step) && !step.Commit? && (step.t in s.txns ==> RowsIntact(s.db.rows, s.txns[step.t]))
    ensures RowsIntact(s.db.rows, Take(c, home, s, step).txns[step.t])
  {
    match step
    case LockLine(t) => LockLineRows(s, t);
    case MoveLine(t) => MoveLineStep(s, t);
    case _ =>
  }

  lemma CheckPlan(c: Catalog, home: Option<nat>, s: State, t: nat)
    requires Enabled(s, Check(t)) && PlanIntact(c, home, s.db, s.txns[t])
    ensures PlanIntact(c, home, s.db, DoCheck(c, home, s, t).txns[t])
  {}

  /** Steps that decide nothing carry the plan along. */
  lemma SamePlan(c: Catalog, home: Option<nat>, s: State, step: Step)
    requires Enabled(s, step) && !step.Commit? && !step.Check? && step.t in s.txns
    ensures var x, y := s.txns[step.t], Take(c, home, s, step).txns[step.t];
            && y.ask == x.ask && (HasPlan(y) ==> HasPlan(x) && y.phase.plan == x.phase.plan)
            && (y.phase.Keyed? ==> ParentOf(x.ask).Some? || x.phase.Keyed?)
            && (y.phase.Locked? ==> step.LockOriginal? || y.phase == x.phase)
  {}

  lemma QuietPlan(c: Catalog, home: Option<nat>, s: State, step: Step)
    requires Enabled(s, step) && !step.Commit? && (step.t in s.txns ==> PlanIntact(c, home, s.db, s.txns[step.t]))
    ensures PlanIntact(c, home, s.db, Take(c, home, s, step).txns[step.t])
  {
    if step.Check? {
      CheckPlan(c, home, s, step.t);
    } else if step.t in s.txns {
      SamePlan(c, home, s, step);
    }
  }

  // ----- Exclusive locks -----

  /** A step takes only what no peer holds. */
  lemma QuietApart(c: Catalog, home: Option<nat>, s: State, step: Step, u: nat)
    requires Exclusive(s) && Enabled(s, step) && !step.Commit? && u in s.txns && u != step.t
    ensures var d := Take(c, home, s, step); Apart(d.txns[step.t], s.txns[u]) && Apart(s.txns[u], d.txns[step.t])
  {
    var t := step.t;
    if t in s.txns { assert Apart(s.txns[t], s.txns[u]) && Apart(s.txns[u], s.txns[t]); }
  }

  // ----- What a commit publishes -----

  lemma OverlayIsMoved(rows: seq<Row>, x: Txn, plan: Plan)
    requires Written(rows, x, plan, |plan.lines|, |plan.lines|)
    ensures Overlay(rows, x.rows) == Moved(rows, plan.eff, plan.lines)
  {
    assert plan.lines[..|plan.lines|] == plan.lines;
    forall k | 0 <= k < |rows| ensures Overlay(rows, x.rows)[k] == MovedRow(rows, plan.eff, plan.lines, k) {
      if k !in x.rows && FirstRow(rows, rows[k].place) == Some(k) {
        forall j | 0 <= j < |plan.lines| ensures plan.lines[j].place != rows[k].place {
          assert FirstRow(rows, plan.lines[j].place).value in x.rows;
        }
        TotalElsewhere(plan.lines, rows[k].place);
      }
    }
  }

  /** Fitting and moving do not depend on the lock order. */
  lemma LockedSame(rows: seq<Row>, eff: Effect, ms: seq<Move>)
    ensures Fits(rows, eff, InLockOrder(ms)) <==> Fits(rows, eff, ms)
    ensures Fits(rows, eff, ms) ==> Moved(rows, eff, InLockOrder(ms)) == Moved(rows, eff, ms)
  {
    LoopIsDemand(rows, eff, InLockOrder(ms));
    LockedLoopIsDemand(rows, eff, ms);
  }

  function OutcomeOf(c: Catalog, home: Option<nat>, db: Db, a: Ask): Outcome
    requires BodyOk(a.body)
  {
    match a.body
    case SaleBody(cart) => Checkout(c, home, a.scope, a.now, db, cart)
    case RefundBody(req) => Refund(c, a.scope, a.now, db, req)
  }

  predicate Finished(x: Txn) {
    x.phase.Moving? && x.phase.done == |x.phase.plan.lines|
  }

  lemma SalePublishes(c: Catalog, home: Option<nat>, db: Db, x: Txn)
    requires BodyOk(x.ask.body) && x.ask.body.SaleBody? && Finished(x)
    requires RowsIntact(db.rows, x) && PlanIntact(c, home, db, x)
    ensures x.phase.plan.original.None?
    ensures OutcomeOf(c, home, db, x.ask) == Ok(Published(db, x, x.phase.plan))
  {
    var plan, cart := x.phase.plan, x.ask.body.cart;
    assert plan.lines[..|plan.lines|] == plan.lines;
    OverlayIsMoved(db.rows, x, plan);
    if cart.backorder {
      assert plan.header.lines + x.lines == plan.header.lines;
      MovedNothing(db.rows);
    } else {
      LockedSame(db.rows, plan.eff, Moves(c, cart.lines));
      assert plan.header.lines + x.lines == x.lines;
    }
  }

  lemma MovedNothing(rows: seq<Row>)
    ensures Moved(rows, Ship, []) == rows
  {
    forall k | 0 <= k < |rows| ensures Moved(rows, Ship, [])[k] == rows[k] {}
  }

  lemma RefundPublishes(c: Catalog, home: Option<nat>, db: Db, x: Txn)
    requires BodyOk(x.ask.body) && x.ask.body.RefundBody? && Finished(x)
    requires RowsIntact(db.rows, x) && PlanIntact(c, home, db, x)
    ensures x.phase.plan.original == Some(x.ask.body.req.original) && x.ask.body.req.original < |db.orders|
    ensures OutcomeOf(c, home, db, x.ask) == Ok(Published(db, x, x.phase.plan))
  {
    var plan, req := x.phase.plan, x.ask.body.req;
    var soldLines := db.orders[req.original].audit.value.lines;
    var asked := Moves(c, if req.lines.Some? then req.lines.value else soldLines);
    assert plan.lines[..|plan.lines|] == plan.lines;
    OverlayIsMoved(db.rows, x, plan);
    LockedSame(db.rows, Return, asked);
    assert plan.header.lines + x.lines == x.lines;
    assert db.orders[req.original := db.orders[req.original]] == db.orders;
  }

  // ----- A peer's commit -----

  lemma PeerShown(a: seq<Row>, b: seq<Row>, mine: map<nat, Row>, eff: Effect, ms: seq<Move>)
    requires SamePlaces(a, b) && Shown(a, mine, eff, ms) && forall k | k in mine :: a[k] == b[k]
    ensures Shown(b, mine, eff, ms)
  {
    forall k | k in mine ensures FirstRow(b, b[k].place) == Some(k) && mine[k] == MovedRow(b, eff, ms, k) {
      FirstRowSame(a, b, a[k].place);
    }
  }

  lemma PeerFits(a: seq<Row>, b: seq<Row>, held: set<nat>, eff: Effect, lines: seq<Move>, done: nat)
    requires done <= |lines| && SamePlaces(a, b) && Reached(a, held, lines, done) && Fits(a, eff, lines[..done])
    requires forall k | k in held && k < |a| :: a[k] == b[k]
    ensures Reached(b, held, lines, done) && Fits(b, eff, lines[..done])
  {
    var before := lines[..done];
    forall j | 0 <= j < done
      ensures FirstRow(b, lines[j].place) == FirstRow(a, lines[j].place)
      ensures Room(b, eff, before[j].place, Total(before, AtPlace(before[j].place)))
    {
      FirstRowSame(a, b, lines[j].place);
      assert before[j] == lines[j];
      assert Room(a, eff, before[j].place, Total(before, AtPlace(before[j].place)));
    }
  }

  lemma PeerRows(a: seq<Row>, b: seq<Row>, y: Txn)
    requires SamePlaces(a, b) && RowsIntact(a, y) && forall k | k in y.rows && k < |a| :: a[k] == b[k]
    ensures RowsIntact(b, y)
  {
    if y.phase.Moving? || y.phase.Gating? {
      var plan, done := y.phase.plan, y.phase.done;
      PeerShown(a, b, y.rows, plan.eff, plan.lines[..done]);
      PeerFits(a, b, y.rows.Keys, plan.eff, plan.lines, done);
      if y.phase.Gating? { FirstRowSame(a, b, plan.lines[done].place); }
      assert Written(b, y, plan, done, if y.phase.Moving? then done else done + 1);
    }
  }

  /** The original a refund has locked looks the same to it: its row, and what has been credited against it. */
  ghost predicate SameOriginal(a: seq<Order>, b: seq<Order>, o: nat) {
    && (o < |a| ==> o < |b| && b[o] == a[o])
    && forall item: nat :: Credited(b, o, item) == Credited(a, o, item)
  }

  lemma PeerSalePlan(c: Catalog, home: Option<nat>, a: Db, b: Db, y: Txn)
    requires PlanIntact(c, home, a, y) && y.ask.body.SaleBody? && PosRefunds.OrdersKept(a.orders, b.orders)
    ensures PlanIntact(c, home, b, y)
  {
    if HasPlan(y) {
      var cart := y.ask.body.cart;
      if cart.kind != Sale && cart.parent.Some? && cart.parent.value < |a.orders| {
        assert PosRefunds.Later(a.orders[cart.parent.value], b.orders[cart.parent.value]);
      }
      SaleGatesKept(c, a.orders, b.orders, y.ask.scope, cart);
    }
  }

  /** A parent that was visible stays visible, with the lines it had. */
  lemma SaleGatesKept(c: Catalog, a: seq<Order>, b: seq<Order>, scope: set<nat>, cart: Cart)
    requires PosRefunds.OrdersKept(a, b) && ParentGate(a, scope, cart).None?
    ensures ParentGate(b, scope, cart).None? && ReturnGate(c, b, cart) == ReturnGate(c, a, cart)
  {
    if cart.kind != Sale { assert PosRefunds.Later(a[cart.parent.value], b[cart.parent.value]); }
  }

  lemma PeerRefundPlan(c: Catalog, home: Option<nat>, a: Db, b: Db, y: Txn)
    requires PlanIntact(c, home, a, y) && y.ask.body.RefundBody?
    requires HasPlan(y) || y.phase.Locked? ==> SameOriginal(a.orders, b.orders, y.ask.body.req.original)
    ensures PlanIntact(c, home, b, y)
  {
    if HasPlan(y) {
      var req := y.ask.body.req;
      CreditGuardsKept(c, a.orders, b.orders, y.ask, req, a.orders[req.original]);
    }
  }

  lemma CreditGuardsKept(c: Catalog, a: seq<Order>, b: seq<Order>, ask: Ask, req: RefundRequest, original: Order)
    requires forall item: nat :: Credited(b, req.original, item) == Credited(a, req.original, item)
    ensures PlanRefund(c, b, ask, req, original) == PlanRefund(c, a, ask, req, original)
  {
    forall sold, asked
      ensures BeyondRemaining(b, req.original, sold, asked) == BeyondRemaining(a, req.original, sold, asked)
      ensures Completes(b, req.original, sold, asked) == Completes(a, req.original, sold, asked)
    {
      GuardSame(a, b, req.original, sold, asked);
    }
  }

  lemma GuardSame(a: seq<Order>, b: seq<Order>, o: nat, sold: seq<Move>, asked: seq<Move>)
    requires forall item: nat :: Credited(b, o, item) == Credited(a, o, item)
    ensures BeyondRemaining(b, o, sold, asked) == BeyondRemaining(a, o, sold, asked)
    ensures Completes(b, o, sold, asked) == Completes(a, o, sold, asked)
  {}

  /** A commit changes only the rows and the original it holds, besides adding its order. */
  lemma PublishedFrame(c: Catalog, home: Option<nat>, db: Db, x: Txn)
    requires BodyOk(x.ask.body) && Finished(x) && RowsIntact(db.rows, x) && PlanIntact(c, home, db, x)
    requires x.phase.plan.original.Some? ==> x.phase.plan.original.value < |db.orders|
    ensures var d := Published(db, x, x.phase.plan);
            && SamePlaces(db.rows, d.rows) && (forall k | 0 <= k < |db.rows| && k !in x.rows :: d.rows[k] == db.rows[k])
            && PosRefunds.OrdersKept(db.orders, d.orders)
  {
    OverlayIsMoved(db.rows, x, x.phase.plan);
    MovedPlaces(db.rows, x.phase.plan.eff, x.phase.plan.lines);
  }

  lemma PublishedOriginals(c: Catalog, home: Option<nat>, db: Db, x: Txn, o: nat)
    requires BodyOk(x.ask.body) && Finished(x) && PlanIntact(c, home, db, x)
    requires x.phase.plan.original.Some? ==> x.phase.plan.original.value < |db.orders|
    requires x.ask.body.RefundBody? ==> x.ask.body.req.original != o
    ensures SameOriginal(db.orders, Published(db, x, x.phase.plan).orders, o)
  {
    var d, n := Published(db, x, x.phase.plan), |db.orders|;
    var order, marked := d.orders[n], d.orders[..n];
    assert d.orders == marked + [order];
    forall item: nat ensures Credited(d.orders, o, item) == Credited(db.orders, o, item) {
      PosRefunds.SumsSnoc(marked, order, o, item);
      if x.phase.plan.original.Some? && x.phase.plan.full {
        var p := x.phase.plan.original.value;
        assert marked == db.orders[p := marked[p]];
        PosRefunds.SumsIgnoreStatus(db.orders, p, marked[p], o, item);
      } else {
        assert marked == db.orders;
      }
    }
  }

  lemma PeerKept(c: Catalog, home: Option<nat>, db: Db, x: Txn, y: Txn)
    requires BodyOk(x.ask.body) && Finished(x) && RowsIntact(db.rows, x) && PlanIntact(c, home, db, x)
    requires x.phase.plan.original.Some? ==> x.phase.plan.original.value < |db.orders|
    requires Apart(x, y) && RowsIntact(db.rows, y) && PlanIntact(c, home, db, y)
    ensures var d := Published(db, x, x.phase.plan); RowsIntact(d.rows, y) && PlanIntact(c, home, d, y)
  {
    var d := Published(db, x, x.phase.plan);
    PublishedFrame(c, home, db, x);
    PeerRows(db.rows, d.rows, y);
    if y.ask.body.SaleBody? {
      PeerSalePlan(c, home, db, d, y);
    } else {
      if HasPlan(y) || y.phase.Locked? { PublishedOriginals(c, home, db, x, y.ask.body.req.original); }
      PeerRefundPlan(c, home, db, d, y);
    }
  }

  lemma CommitApart(s: State, t: nat)
    requires Exclusive(s) && Enabled(s, Commit(t))
    ensures Exclusive(DoCommit(s, t))
  {
    var d := DoCommit(s, t);
    forall u, v | u in d.txns && v in d.txns && u != v ensures Apart(d.txns[u], d.txns[v]) {
      assert Apart(s.txns[u], s.txns[v]);
    }
  }

  lemma CommitKeepsPeer(c: Catalog, home: Option<nat>, s: State, t: nat, u: nat)
    requires Locks(c, home, s) && Enabled(s, Commit(t)) && u in s.txns && u != t
    ensures TxnIntact(c, home, DoCommit(s, t).db, s.txns[u])
  {
    assert TxnIntact(c, home, s.db, s.txns[t]) && TxnIntact(c, home, s.db, s.txns[u]) && Apart(s.txns[t], s.txns[u]);
    CommitEnds(s, t);
    PeerKept(c, home, s.db, s.txns[t], s.txns[u]);
  }

  lemma CommitEnds(s: State, t: nat)
    requires Enabled(s, Commit(t))
    ensures var d := DoCommit(s, t);
            d.txns == s.txns[t := Txn(s.txns[t].ask, Ended, map[], [])]
                && d.db == Published(s.db, s.txns[t], s.txns[t].phase.plan)
  {}

  lemma EndedIntact(c: Catalog, home: Option<nat>, db: Db, x: Txn)
    requires BodyOk(x.ask.body) && x.phase.Ended? && x.rows == map[] && x.lines == []
    ensures TxnIntact(c, home, db, x)
  {}

  lemma CommitKeepsLocks(c: Catalog, home: Option<nat>, s: State, t: nat)
    requires Locks(c, home, s) && Enabled(s, Commit(t))
    ensures Locks(c, home, DoCommit(s, t))
  {
    var d := DoCommit(s, t);
    CommitApart(s, t);
    CommitEnds(s, t);
    assert TxnIntact(c, home, s.db, s.txns[t]);
    forall u | u in d.txns ensures TxnIntact(c, home, d.db, d.txns[u]) {
      if u == t { EndedIntact(c, home, d.db, d.txns[t]); } else { CommitKeepsPeer(c, home, s, t, u); }
    }
  }

  lemma QuietKeepsLocks(c: Catalog, home: Option<nat>, s: State, step: Step)
    requires Locks(c, home, s) && Enabled(s, step) && !step.Commit?
    ensures Locks(c, home, Take(c, home, s, step))
  {
    var d, t := Take(c, home, s, step), step.t;
    PosKeys.QuietStepFrame(c, home, s, step);
    PosKeys.QuietStepPhase(c, home, s, step);
    QuietRows(c, home, s, step);
    QuietPlan(c, home, s, step);
    forall u | u in s.txns && u != t ensures Apart(d.txns[t], d.txns[u]) && Apart(d.txns[u], d.txns[t]) {
      QuietApart(c, home, s, step, u);
    }
    LocksFrame(c, home, s, d, t);
  }

  lemma LocksFrame(c: Catalog, home: Option<nat>, s: State, d: State, t: nat)
    requires Locks(c, home, s) && d.db == s.db && t in d.txns && d.txns == s.txns[t := d.txns[t]]
    requires BodyOk(d.txns[t].ask.body) && RowsIntact(d.db.rows, d.txns[t]) && PlanIntact(c, home, d.db, d.txns[t])
    requires forall u | u in s.txns && u != t :: Apart(d.txns[t], d.txns[u]) && Apart(d.txns[u], d.txns[t])
    ensures Locks(c, home, d)
  {
    forall u, v | u in d.txns && v in d.txns && u != v ensures Apart(d.txns[u], d.txns[v]) {
      if u != t && v != t { assert Apart(s.txns[u], s.txns[v]); }
    }
  }

  // ----- Serial equivalence -----

  predicate BodyMatches(op: Op, body: Body) {
    match op
    case CheckoutOp(_, _, cart) => body == SaleBody(cart)
    case RefundOp(_, _, req) => body == RefundBody(req)
  }

  /** Each committed operation is accepted by what the ones before it leave. */
  predicate AllAccepted(c: Catalog, home: Option<nat>, start: Db, ops: seq<Op>)
    requires forall k | 0 <= k < |ops| :: WellFormed(ops[k])
  {
    forall k | 0 <= k < |ops| :: Decide(c, home, ApplyAll(c, home, start, ops[..k]), ops[k]).Ok?
  }

  lemma AcceptedNext(c: Catalog, home: Option<nat>, start: Db, ops: seq<Op>, op: Op)
    requires WellFormed(op) && forall k | 0 <= k < |ops| :: WellFormed(ops[k])
    requires AllAccepted(c, home, start, ops) && Decide(c, home, ApplyAll(c, home, start, ops), op).Ok?
    ensures AllAccepted(c, home, start, ops + [op])
  {
    var all := ops + [op];
    forall k | 0 <= k < |all| ensures Decide(c, home, ApplyAll(c, home, start, all[..k]), all[k]).Ok? {
      assert all[..k] == ops[..k];
      assert ops[..|ops|] == ops;
    }
  }

  /** The tables are what the committed operations, in commit order, make of the start; each left one key row. */
  predicate Serial(c: Catalog, home: Option<nat>, start: Db, s: State) {
    && (forall k | 0 <= k < |s.applied| :: WellFormed(s.applied[k]))
    && s.db == ApplyAll(c, home, start, s.applied) && AllAccepted(c, home, start, s.applied)
    && |s.saved| == |s.applied|
    && forall k | 0 <= k < |s.saved| :: BodyMatches(s.applied[k], s.saved[k].body)
  }

  lemma ApplyNext(c: Catalog, home: Option<nat>, start: Db, ops: seq<Op>, op: Op)
    requires WellFormed(op) && forall k | 0 <= k < |ops| :: WellFormed(ops[k])
    ensures ApplyAll(c, home, start, ops + [op]) == Apply(c, home, ApplyAll(c, home, start, ops), op)
  {
    assert (ops + [op])[..|ops|] == ops;
  }

  /** Publishing a transaction's buffered rows and lines is running its whole request on what is committed now. */
  lemma CommitIsApply(c: Catalog, home: Option<nat>, s: State, t: nat)
    requires Locks(c, home, s) && Enabled(s, Commit(t))
    ensures WellFormed(OpOf(s.txns[t].ask)) && Decide(c, home, s.db, OpOf(s.txns[t].ask)) == Ok(DoCommit(s, t).db)
  {
    var x := s.txns[t];
    assert DoCommit(s, t).db == Published(s.db, x, x.phase.plan);
    if x.ask.body.SaleBody? { SalePublishes(c, home, s.db, x); } else { RefundPublishes(c, home, s.db, x); }
    OutcomeIsApply(c, home, s.db, x.ask);
  }

  lemma OutcomeIsApply(c: Catalog, home: Option<nat>, db: Db, a: Ask)
    requires BodyOk(a.body) && OutcomeOf(c, home, db, a).Ok?
    ensures WellFormed(OpOf(a)) && Decide(c, home, db, OpOf(a)) == OutcomeOf(c, home, db, a)
  {}

  lemma SerialNext(c: Catalog, home: Option<nat>, start: Db, s: State, d: State, op: Op, row: Saved)
    requires Serial(c, home, start, s) && WellFormed(op) && BodyMatches(op, row.body)
    requires Decide(c, home, s.db, op).Ok? && d.db == Apply(c, home, s.db, op)
    requires d.applied == s.applied + [op] && d.saved == s.saved + [row]
    ensures Serial(c, home, start, d)
  {
    AcceptedNext(c, home, start, s.applied, op);
    ApplyNext(c, home, start, s.applied, op);
  }

  lemma CommitKeepsSerial(c: Catalog, home: Option<nat>, start: Db, s: State, t: nat)
    requires Serial(c, home, start, s) && Locks(c, home, s) && Enabled(s, Commit(t))
    ensures Serial(c, home, start, DoCommit(s, t))
  {
    var d, op := DoCommit(s, t), OpOf(s.txns[t].ask);
    CommitIsApply(c, home, s, t);
    SerialNext(c, home, start, s, d, op, d.saved[|s.saved|]);
  }

  lemma {:induction false} RunIsSerial(c: Catalog, home: Option<nat>, start: Db, steps: seq<Step>)
    requires Legal(c, home, Init(start), steps)
    ensures Locks(c, home, Run(c, home, Init(start), steps)) && Serial(c, home, start, Run(c, home, Init(start), steps))
  {
    if steps != [] {
      var n := |steps| - 1;
      RunIsSerial(c, home, start, steps[..n]);
      var s := Run(c, home, Init(start), steps[..n]);
      match steps[n]
      case Commit(t) =>
        CommitKeepsLocks(c, home, s, t);
        CommitKeepsSerial(c, home, start, s, t);
      case _ =>
        QuietKeepsLocks(c, home, s, steps[n]);
        PosKeys.QuietStepFrame(c, home, s, steps[n]);
    }
  }

  lemma ReachableSerial(c: Catalog, home: Option<nat>, start: Db, s: State)
    requires Reachable(c, home, start, s)
    ensures Locks(c, home, s) && Serial(c, home, start, s)
  {
    var steps :| Legal(c, home, Init(start), steps) && s == Run(c, home, Init(start), steps);
    RunIsSerial(c, home, start, steps);
  }

  /** Every interleaving of locks, line writes and commits leaves what its committed requests leave when run one after
      another in commit order, each once; so the refund ledger and the stock balances hold under concurrency too. */
  lemma InterleavingsAreSerial(c: Catalog, home: Option<nat>, start: Db, s: State, item: nat)
    requires Reachable(c, home, start, s) && PosRefunds.Ledger(c, start.orders)
    ensures Serial(c, home, start, s)
    ensures PosRefunds.Ledger(c, s.db.orders) && PosRefunds.Balanced(start, s.db, item)
    ensures RowsOk(start.rows) ==> RowsOk(s.db.rows)
  {
    ReachableSerial(c, home, start, s);
    PosRefunds.RunsKeepLedger(c, home, start, s.applied);
    PosRefunds.RunsConserve(c, home, start, s.applied, item);
  }
}
