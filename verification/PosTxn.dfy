/**
 Checkout and refund as concurrent transactions, statement by statement: the warm probe, the lock on a refund's
 original, the checks, the insert under the idempotency key and its share lock on a parent order, one row lock and one
 write per line, and the commit.
 Writes stay in the transaction until it commits; a statement waits while a peer holds what it needs.
 */
module PosTxn {
  import opened Prelude
  import opened PosLedger

  // ----- Requests and key columns -----

  /** What is hashed: the request without its key. The hash is taken to be injective. */
  datatype Body = SaleBody(cart: Cart) | RefundBody(req: RefundRequest)

  datatype Reply = SaleReply(order: nat) | RefundReply(memo: nat, original: nat, full: bool)

  /** The key columns of a committed order. */
  datatype Saved = Saved(key: string, body: Body, reply: Option<Reply>)

  datatype Result = Replied(reply: Reply) | DifferentBody | Busy | Rejected

  datatype Answer = Answer(txn: nat, key: string, body: Body, result: Result)

  function FindSaved(saved: seq<Saved>, key: string): (r: Option<Saved>)
    ensures r.Some? ==> r.value in saved && r.value.key == key
    ensures r.None? ==> forall k | 0 <= k < |saved| :: saved[k].key != key
  {
    if saved == [] then None
    else
      var r := FindSaved(saved[..|saved| - 1], key);
      if r.Some? then r else if saved[|saved| - 1].key == key then Some(saved[|saved| - 1]) else None
  }

  // ----- Transactions -----

  /** What the checks decide: the lines to move in lock order, the order row to insert, and for a refund its original
      and whether it completes it. A backorder moves no lines and inserts its order lines with the header. */
  datatype Plan = Plan(eff: Effect, lines: seq<Move>, header: Order, original: Option<nat>, full: bool)

  datatype Phase =
    | Begun                                      // before the warm probe
    | Probed
    | Locked(original: Order)                    // a refund, with its original's row as read under the lock
    | Checked(plan: Plan)                        // every check before the insert has passed
    | Keyed(plan: Plan)                          // a child's order row is inserted, its parent not yet share-locked
    | Moving(plan: Plan, done: nat)              // the order row is inserted, `done` lines are written
    | Gating(plan: Plan, done: nat, row: nat)    // the next line's inventory row is locked
    | Conflicted                                 // the insert met a committed order with this key
    | Ended

  /** NOW() is the time the transaction began. */
  datatype Ask = Ask(key: string, body: Body, scope: set<nat>, now: int)

  /** `rows` are the inventory rows it has locked, as it sees them; `lines` the order lines it has inserted. */
  datatype Txn = Txn(ask: Ask, phase: Phase, rows: map<nat, Row>, lines: seq<OrderLine>)

  /** `db` and `saved` are what is committed; `applied` is the history of committed operations. */
  datatype State = State(db: Db, saved: seq<Saved>, txns: map<nat, Txn>, answers: seq<Answer>, applied: seq<Op>)

  function OpOf(a: Ask): Op {
    match a.body
    case SaleBody(cart) => CheckoutOp(a.scope, a.now, cart)
    case RefundBody(req) => RefundOp(a.scope, a.now, req)
  }

  predicate BodyOk(body: Body) {
    match body
    case SaleBody(cart) => Counted(cart.lines)
        && (cart.kind == Sale || cart.kind == Replacement || cart.kind == Exchange)
    case RefundBody(req) => req.lines.Some? ==> Counted(req.lines.value)
  }

  // ----- Checks -----

  function PlanSale(c: Catalog, home: Option<nat>, orders: seq<Order>, a: Ask, cart: Cart): Option<Plan>
    requires cart.lines != []
  {
    if !InScope(c, a.scope, cart.lines) || exists k | 0 <= k < |cart.lines| :: !Live(c, cart.lines[k].code) then None
    else if !cart.backorder && !AllResolve(c, cart.lines) then None
    else if ParentGate(orders, a.scope, cart).Some? || ReturnGate(c, orders, cart).Some? then None
    else if cart.backorder then
      if home.None? then None
      else Some(Plan(Ship, [], NewOrder(cart, WaitingStock, home.value, a.now, BackorderLines(c, cart.lines)), None,
          false))
    else
      var ms := Moves(c, cart.lines);
      var status := if cart.phone then Open else Shipped;
      Some(Plan(CartEffect(cart), InLockOrder(ms), NewOrder(cart, status, ms[0].place.warehouse, a.now, []), None,
          false))
  }

  /** The guards over quantities, from the original as read under its lock and the credit memos committed by now. */
  function PlanRefund(c: Catalog, orders: seq<Order>, a: Ask, req: RefundRequest, original: Order): Option<Plan> {
    if original.audit.None? then None
    else
      var soldLines := original.audit.value.lines;
      var askedLines := if req.lines.Some? then req.lines.value else soldLines;
      if !AllResolve(c, soldLines) || !AllResolve(c, askedLines) then None
      else
        var sold, asked := Moves(c, soldLines), Moves(c, askedLines);
        if (req.lines.Some? && BeyondLocation(sold, asked))
            || BeyondRemaining(orders, req.original, sold, asked) then None
        else
          var header := Order(true, CreditMemo, Shipped, original.warehouse, a.now, [], Some(req.original), None,
              None, None);
          Some(Plan(Return, InLockOrder(asked), header, Some(req.original),
              Completes(orders, req.original, sold, asked)))
  }

  // ----- Locks -----

  predicate HoldsKey(x: Txn) {
    x.phase.Keyed? || x.phase.Moving? || x.phase.Gating?
  }

  /** A replacement or exchange is a child of its parent; the foreign key share-locks the parent's row. */
  function ParentOf(a: Ask): Option<nat> {
    match a.body
    case SaleBody(cart) => if cart.kind == Sale then None else cart.parent
    case RefundBody(_) => None
  }

  predicate SharesOrder(x: Txn, o: nat) {
    ParentOf(x.ask) == Some(o) && (x.phase.Moving? || x.phase.Gating?)
  }

  predicate HoldsOrder(x: Txn, o: nat) {
    && x.ask.body.RefundBody? && x.ask.body.req.original == o
    && (x.phase.Locked? || x.phase.Checked? || x.phase.Moving? || x.phase.Gating? || x.phase.Conflicted?)
  }

  predicate KeyHeldByPeer(s: State, t: nat, key: string) {
    exists u | u in s.txns :: u != t && HoldsKey(s.txns[u]) && s.txns[u].ask.key == key
  }

  predicate OrderHeldByPeer(s: State, t: nat, o: nat) {
    exists u | u in s.txns :: u != t && HoldsOrder(s.txns[u], o)
  }

  predicate OrderSharedByPeer(s: State, t: nat, o: nat) {
    exists u | u in s.txns :: u != t && SharesOrder(s.txns[u], o)
  }

  predicate RowHeldByPeer(s: State, t: nat, row: nat) {
    exists u | u in s.txns :: u != t && row in s.txns[u].rows
  }

  // ----- Steps -----

  datatype Step =
    | Begin(t: nat, ask: Ask)
    | Probe(t: nat)
    | LockOriginal(t: nat)
    | Check(t: nat)
    | Insert(t: nat)
    | ShareParent(t: nat)
    | Reread(t: nat)
    | LockLine(t: nat)
    | MoveLine(t: nat)
    | Commit(t: nat)
    | GiveUp(t: nat, result: Result)

  /** The row the next line goes to. */
  function NextRow(s: State, t: nat): Option<nat>
    requires t in s.txns && s.txns[t].phase.Moving? && s.txns[t].phase.done < |s.txns[t].phase.plan.lines|
  {
    FirstRow(s.db.rows, s.txns[t].phase.plan.lines[s.txns[t].phase.done].place)
  }

  predicate Enabled(s: State, step: Step) {
    if step.Begin? then step.t !in s.txns && BodyOk(step.ask.body)
    else if step.t !in s.txns then false
    else
      var t, x := step.t, s.txns[step.t];
      match step
      case Probe(_) => x.phase.Begun?
      case LockOriginal(_) =>
        && x.phase.Probed? && x.ask.body.RefundBody?
        && !OrderHeldByPeer(s, t, x.ask.body.req.original) && !OrderSharedByPeer(s, t, x.ask.body.req.original)
      case Check(_) => BodyOk(x.ask.body) && (if x.ask.body.SaleBody? then x.phase.Probed? else x.phase.Locked?)
      case Insert(_) => x.phase.Checked? && !KeyHeldByPeer(s, t, x.ask.key)
      case ShareParent(_) =>
        x.phase.Keyed? && ParentOf(x.ask).Some? && !OrderHeldByPeer(s, t, ParentOf(x.ask).value)
      case Reread(_) => x.phase.Conflicted?
      case LockLine(_) =>
        && x.phase.Moving? && x.phase.done < |x.phase.plan.lines|
        && (NextRow(s, t).Some? ==> !RowHeldByPeer(s, t, NextRow(s, t).value))
      case MoveLine(_) => x.phase.Gating? && x.phase.done < |x.phase.plan.lines| && x.phase.row in x.rows
      case Commit(_) =>
        && x.phase.Moving? && x.phase.done == |x.phase.plan.lines|
        && (x.phase.plan.original.Some? ==> x.phase.plan.original.value < |s.db.orders|)
      case GiveUp(_, result) => !x.phase.Ended? && (result == Busy || result == Rejected)
  }

  function Goto(s: State, t: nat, phase: Phase): State
    requires t in s.txns
  {
    s.(txns := s.txns[t := s.txns[t].(phase := phase)])
  }

  /** The request is answered; its locks and whatever it had not committed are gone. */
  function Conclude(s: State, t: nat, result: Result): State
    requires t in s.txns
  {
    var x := s.txns[t];
    s.(txns := s.txns[t := x.(phase := Ended, rows := map[], lines := [])],
       answers := s.answers + [Answer(t, x.ask.key, x.ask.body, result)])
  }

  /** Row locks read the committed row, or the transaction's own earlier write. */
  function DoLockLine(s: State, t: nat): State
    requires t in s.txns && s.txns[t].phase.Moving? && s.txns[t].phase.done < |s.txns[t].phase.plan.lines|
  {
    var x, row := s.txns[t], NextRow(s, t);
    if row.None? then Conclude(s, t, Rejected)
    else
      var k := row.value;
      var seen := if k in x.rows then x.rows[k] else s.db.rows[k];
      s.(txns := s.txns[t := x.(phase := Gating(x.phase.plan, x.phase.done, k), rows := x.rows[k := seen])])
  }

  /** The transaction after a line has been written to its locked row. */
  function AfterLine(x: Txn, plan: Plan, done: nat, k: nat): Txn
    requires done < |plan.lines| && k in x.rows
  {
    Txn(x.ask, Moving(plan, done + 1), x.rows[k := Shift(x.rows[k], plan.eff, plan.lines[done].qty)],
        x.lines + [LineOf(plan.eff, plan.lines[done])])
  }

  /** The check against the locked row, and the two writes. */
  function DoMoveLine(s: State, t: nat): State
    requires t in s.txns && s.txns[t].phase.Gating? && s.txns[t].phase.done < |s.txns[t].phase.plan.lines|
    requires s.txns[t].phase.row in s.txns[t].rows
  {
    var x := s.txns[t];
    var plan, done, k := x.phase.plan, x.phase.done, x.phase.row;
    if plan.eff != Return && Available(x.rows[k]) < plan.lines[done].qty then Conclude(s, t, Rejected)
    else s.(txns := s.txns[t := AfterLine(x, plan, done, k)])
  }

  function Overlay(rows: seq<Row>, mine: map<nat, Row>): (r: seq<Row>)
    ensures |r| == |rows|
  {
    seq(|rows|, k requires 0 <= k < |rows| => if k in mine then mine[k] else rows[k])
  }

  /** What the commit makes visible. */
  function Published(db: Db, x: Txn, plan: Plan): Db
    requires plan.original.Some? ==> plan.original.value < |db.orders|
  {
    var order := plan.header.(lines := plan.header.lines + x.lines);
    var orders :=
      if plan.original.Some? && plan.full then
        var o := plan.original.value;
        db.orders[o := db.orders[o].(status := Refunded, refundedAt := Some(x.ask.now), memo := Some(|db.orders|))]
      else db.orders;
    Db(Overlay(db.rows, x.rows), orders + [order])
  }

  function ReplyOf(db: Db, plan: Plan): Reply {
    if plan.original.Some? then RefundReply(|db.orders|, plan.original.value, plan.full) else SaleReply(|db.orders|)
  }

  function DoCommit(s: State, t: nat): State
    requires t in s.txns && s.txns[t].phase.Moving?
    requires s.txns[t].phase.plan.original.Some? ==> s.txns[t].phase.plan.original.value < |s.db.orders|
  {
    var x := s.txns[t];
    var plan := x.phase.plan;
    var reply := ReplyOf(s.db, plan);
    Conclude(s, t, Replied(reply)).(db := Published(s.db, x, plan),
                                   saved := s.saved + [Saved(x.ask.key, x.ask.body, Some(reply))],
                                   applied := s.applied + [OpOf(x.ask)])
  }

  /** The answer to a request whose key belongs to a committed order. */
  function FromCache(x: Txn, row: Saved): Result {
    if row.body != x.ask.body then DifferentBody else if row.reply.None? then Busy else Replied(row.reply.value)
  }

  function DoCheck(c: Catalog, home: Option<nat>, s: State, t: nat): State
    requires t in s.txns && BodyOk(s.txns[t].ask.body) && (s.txns[t].ask.body.RefundBody? ==> s.txns[t].phase.Locked?)
  {
    var x := s.txns[t];
    var plan := match x.ask.body
      case SaleBody(cart) => PlanSale(c, home, s.db.orders, x.ask, cart)
      case RefundBody(req) => PlanRefund(c, s.db.orders, x.ask, req, x.phase.original);
    if plan.None? then Conclude(s, t, Rejected) else Goto(s, t, Checked(plan.value))
  }

  function Take(c: Catalog, home: Option<nat>, s: State, step: Step): State
    requires Enabled(s, step)
  {
    match step
    case Begin(t, ask) => s.(txns := s.txns[t := Txn(ask, Begun, map[], [])])
    case Probe(t) =>
      var x := s.txns[t];
      var cached := FindSaved(s.saved, x.ask.key);
      if cached.None? || (cached.value.body == x.ask.body && cached.value.reply.None?) then Goto(s, t, Probed)
      else Conclude(s, t, FromCache(x, cached.value))
    case LockOriginal(t) =>
      var x := s.txns[t];
      if RefundGate(x.ask.scope, x.ask.now, s.db, x.ask.body.req).Some? then Conclude(s, t, Rejected)
      else Goto(s, t, Locked(s.db.orders[x.ask.body.req.original]))
    case Check(t) => DoCheck(c, home, s, t)
    case Insert(t) =>
      var x := s.txns[t];
      if FindSaved(s.saved, x.ask.key).Some? then Goto(s, t, Conflicted)
      else if ParentOf(x.ask).Some? then Goto(s, t, Keyed(x.phase.plan))
      else Goto(s, t, Moving(x.phase.plan, 0))
    case ShareParent(t) => Goto(s, t, Moving(s.txns[t].phase.plan, 0))
    case Reread(t) =>
      var x := s.txns[t];
      var peer := FindSaved(s.saved, x.ask.key);
      Conclude(s, t, if peer.None? then Busy else FromCache(x, peer.value))
    case LockLine(t) => DoLockLine(s, t)
    case MoveLine(t) => DoMoveLine(s, t)
    case Commit(t) => DoCommit(s, t)
    case GiveUp(t, result) => Conclude(s, t, result)
  }

  // ----- Runs -----

  predicate Legal(c: Catalog, home: Option<nat>, s: State, steps: seq<Step>)
    decreases |steps|, 0
  {
    steps == []
    || (Legal(c, home, s, steps[..|steps| - 1]) && Enabled(Run(c, home, s, steps[..|steps| - 1]), steps[|steps| - 1]))
  }

  function Run(c: Catalog, home: Option<nat>, s: State, steps: seq<Step>): State
    requires Legal(c, home, s, steps)
    decreases |steps|, 1
  {
    if steps == [] then s else Take(c, home, Run(c, home, s, steps[..|steps| - 1]), steps[|steps| - 1])
  }

  function Init(db: Db): State {
    State(db, [], map[], [], [])
  }

  /** Some interleaving leads from `start`, with no key used yet, to `s`. */
  ghost predicate Reachable(c: Catalog, home: Option<nat>, start: Db, s: State) {
    exists steps :: Legal(c, home, Init(start), steps) && s == Run(c, home, Init(start), steps)
  }
}
