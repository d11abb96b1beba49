/**
 What every run of the dockd protocol keeps: one answer per idempotency key, and
 one live shipment per order.
 */
module DockdProofs {
  import opened Prelude
  import opened Dockd

  // ----- Idempotency -----

  /** What the history says is cached under a slot: the last commit, unless a prune came after it. */
  function Cached(h: seq<Answer>, slot: Slot): Option<IdemRow> {
    if h == [] then None
    else
      var a, rest := h[|h| - 1], h[..|h| - 1];
      if a.slot != slot || a.Replay? then Cached(rest, slot)
      else if a.Pruned? then None
      else Some(IdemRow(a.endpoint, BodyHash(a.body), Some(a.response)))
  }

  /** Commits happen only on an empty slot; replays return what the slot holds; prunes remove something. */
  predicate AnswerOk(before: seq<Answer>, a: Answer) {
    match a
    case Committed(slot, _, _, _) => Cached(before, slot) == None
    case Replay(slot, endpoint, body, cached) => Cached(before, slot) == Some(IdemRow(endpoint, BodyHash(body), cached))
    case Pruned(slot) => Cached(before, slot).Some?
  }

  predicate AnswersOk(h: seq<Answer>) {
    forall i | 0 <= i < |h| :: AnswerOk(h[..i], h[i])
  }

  function Lookup(m: map<Slot, IdemRow>, slot: Slot): Option<IdemRow> {
    if slot in m then Some(m[slot]) else None
  }

  predicate SlotExclusive(s: State) {
    forall t, u | t in s.txns && u in s.txns && t != u && s.txns[t].req.Dockd? ::
      HoldsSlot(s.txns[t], SlotOf(s.txns[t].req)) ==> !HoldsSlot(s.txns[u], SlotOf(s.txns[t].req))
  }

  predicate ClaimsUncommitted(s: State) {
    forall t | t in s.txns && s.txns[t].req.Dockd? ::
      HoldsSlot(s.txns[t], SlotOf(s.txns[t].req)) ==> SlotOf(s.txns[t].req) !in s.idem
  }

  ghost predicate CacheIsHistory(s: State) {
    forall slot :: Lookup(s.idem, slot) == Cached(s.answers, slot)
  }

  ghost predicate InvIdem(s: State) {
    SlotExclusive(s) && ClaimsUncommitted(s) && CacheIsHistory(s) && AnswersOk(s.answers)
  }

  lemma CachedSnoc(h: seq<Answer>, a: Answer)
    ensures forall slot :: Cached(h + [a], slot) == (
                             if a.slot != slot || a.Replay? then Cached(h, slot)
                             else if a.Pruned? then None
                             else Some(IdemRow(a.endpoint, BodyHash(a.body), Some(a.response))))
  {}

  lemma AnswersSnoc(h: seq<Answer>, a: Answer)
    requires AnswersOk(h) && AnswerOk(h, a)
    ensures AnswersOk(h + [a])
  {
    var g := h + [a];
    forall i | 0 <= i < |g| ensures AnswerOk(g[..i], g[i]) {
      assert g[..i] == h[..i];
      assert h[..|h|] == h;
    }
  }

  lemma {:induction false} CachedAnswered(h: seq<Answer>, slot: Slot)
    ensures Cached(h, slot).Some? ==> Cached(h, slot).value.response.Some?
  {
    if h != [] { CachedAnswered(h[..|h| - 1], slot); }
  }

  predicate Slots(s: State) {
    SlotExclusive(s) && ClaimsUncommitted(s)
  }

  /** Moving one transaction keeps the slots exclusive unless it newly claims one. */
  lemma GotoKeepsSlots(s: State, t: TxnId, p: Phase)
    requires Slots(s) && t in s.txns
    requires s.txns[t].req.Dockd? && !HoldsSlot(s.txns[t], SlotOf(s.txns[t].req)) ==>
               !(p.Claimed? || p.Holding? || p.Ready?)
    ensures Slots(Goto(s, t, p))
  {}

  lemma SlotsFrame(s: State, s': State)
    requires Slots(s) && s'.txns == s.txns && s'.idem.Keys <= s.idem.Keys
    ensures Slots(s')
  {}

  lemma ClaimKeepsSlots(s: State, t: TxnId)
    requires Slots(s) && Enabled(s, InsertSentinel(t))
    ensures Slots(Take(s, InsertSentinel(t)))
  {}

  /** A cache read only ends the request or sends it on to the sentinel insert. */
  lemma ReplayShape(s: State, t: TxnId, s': State) returns (p: Phase)
    requires t in s.txns && s.txns[t].req.Dockd?
    requires s' == DoProbe(s, t) || s' == DoReread(s, t)
    ensures p.Missed? || p.Done?
    ensures s'.txns == Goto(s, t, p).txns && s'.idem == s.idem
    ensures s'.orders == s.orders && s'.shipments == s.shipments && s'.moves == s.moves && s'.sold == s.sold
  {
    p := s'.txns[t].phase;
  }

  lemma ReplayKeepsSlots(s: State, t: TxnId, s': State)
    requires Slots(s) && t in s.txns && s.txns[t].req.Dockd?
    requires s' == DoProbe(s, t) || s' == DoReread(s, t)
    ensures Slots(s')
  {
    var p := ReplayShape(s, t, s');
    GotoKeepsSlots(s, t, p);
    SlotsFrame(Goto(s, t, p), s');
  }

  lemma StepKeepsSlots(s: State, e: Step)
    requires Slots(s) && Enabled(s, e)
    ensures Slots(Take(s, e))
  {
    var s' := Take(s, e);
    match e
    case Begin(t, req) =>
    case InsertSentinel(t) => ClaimKeepsSlots(s, t);
    case Commit(t) => CommitKeepsSlots(s, t);
    case ProbeCache(t) => ReplayKeepsSlots(s, t, s');
    case RereadPeer(t) => ReplayKeepsSlots(s, t, s');
    case LockOrder(t) => GotoKeepsSlots(s, t, s'.txns[t].phase);
    case PassGate(t, packing, shipment) => GotoKeepsSlots(s, t, s'.txns[t].phase);
    case Abort(t) => GotoKeepsSlots(s, t, s'.txns[t].phase);
    case _ => SlotsFrame(s, s');
  }

  lemma CommitKeepsSlots(s: State, t: TxnId)
    requires Slots(s) && Enabled(s, Commit(t))
    ensures Slots(DoCommit(s, t))
  {
    var s' := DoCommit(s, t);
    GotoKeepsSlots(s, t, Done(Fresh(s.txns[t].phase.response)));
    assert s'.txns == Goto(s, t, Done(Fresh(s.txns[t].phase.response))).txns;
    forall u | u in s'.txns && s'.txns[u].req.Dockd? && HoldsSlot(s'.txns[u], SlotOf(s'.txns[u].req))
      ensures SlotOf(s'.txns[u].req) !in s'.idem
    {
      assert u != t && s'.txns[u] == s.txns[u];
    }
  }

  function Effect(m: map<Slot, IdemRow>, a: Answer): map<Slot, IdemRow> {
    match a
    case Committed(slot, endpoint, body, r) => m[slot := IdemRow(endpoint, BodyHash(body), Some(r))]
    case Replay(_, _, _, _) => m
    case Pruned(slot) => m - {slot}
  }

  predicate History(s: State, s': State, a: Answer) {
    s'.answers == s.answers + [a] && s'.idem == Effect(s.idem, a) && AnswerOk(s.answers, a)
  }

  lemma HistoryGrows(s: State, s': State, a: Answer)
    requires CacheIsHistory(s) && AnswersOk(s.answers) && History(s, s', a)
    ensures CacheIsHistory(s') && AnswersOk(s'.answers)
  {
    CachedSnoc(s.answers, a);
    AnswersSnoc(s.answers, a);
    forall slot ensures Lookup(s'.idem, slot) == Cached(s'.answers, slot) {
      assert Lookup(s.idem, slot) == Cached(s.answers, slot);
    }
  }

  /** A step either leaves cache and history alone or extends both by the same answer. */
  lemma StepHistory(s: State, e: Step)
    requires InvIdem(s) && Enabled(s, e)
    ensures (Take(s, e).answers == s.answers && Take(s, e).idem == s.idem)
            || (exists a :: History(s, Take(s, e), a))
  {
    var s' := Take(s, e);
    match e
    case Commit(t) =>
      var r := s.txns[t].req;
      if r.Dockd? {
        assert Lookup(s.idem, SlotOf(r)) == Cached(s.answers, SlotOf(r));
        assert History(s, s', Committed(SlotOf(r), r.endpoint, r.body, s.txns[t].phase.response));
      }
    case Prune(slot) =>
      assert Lookup(s.idem, slot) == Cached(s.answers, slot);
      assert History(s, s', Pruned(slot));
    case ProbeCache(t) => ReplayHistory(s, t, s');
    case RereadPeer(t) => ReplayHistory(s, t, s');
    case _ =>
  }

  lemma ReplayHistory(s: State, t: TxnId, s': State)
    requires InvIdem(s) && t in s.txns && s.txns[t].req.Dockd? && (s' == DoProbe(s, t) || s' == DoReread(s, t))
    ensures (s'.answers == s.answers && s'.idem == s.idem) || (exists a :: History(s, s', a))
  {
    var r := s.txns[t].req;
    if s'.answers != s.answers {
      assert Lookup(s.idem, SlotOf(r)) == Cached(s.answers, SlotOf(r));
      assert History(s, s', Replay(SlotOf(r), r.endpoint, r.body, s.idem[SlotOf(r)].response));
    }
  }

  lemma StepKeepsHistory(s: State, e: Step)
    requires InvIdem(s) && Enabled(s, e)
    ensures CacheIsHistory(Take(s, e)) && AnswersOk(Take(s, e).answers)
  {
    StepHistory(s, e);
    var s' := Take(s, e);
    if a :| History(s, s', a) { HistoryGrows(s, s', a); }
  }

  lemma StepKeepsIdem(s: State, e: Step)
    requires InvIdem(s) && Enabled(s, e)
    ensures InvIdem(Take(s, e))
  {
    StepKeepsSlots(s, e);
    StepKeepsHistory(s, e);
  }

  // ----- Orders -----

  /** The latest ship or void of an order. */
  function LastMove(h: seq<Move>, so: string): Option<Move> {
    if h == [] then None
    else if h[|h| - 1].so == so then Some(h[|h| - 1])
    else LastMove(h[..|h| - 1], so)
  }

  predicate IsShipped(m: Option<Move>) {
    m.Some? && m.value.WasShipped?
  }

  /** Ships and voids of one order alternate, and a void undoes the dockd ship right before it. */
  predicate MoveOk(before: seq<Move>, m: Move) {
    match m
    case WasShipped(so, _, st, _) => st != Shipped && !IsShipped(LastMove(before, so))
    case WasVoided(so, id, st) => LastMove(before, so) == Some(WasShipped(so, id, st, true))
  }

  predicate MovesOk(h: seq<Move>) {
    forall i | 0 <= i < |h| :: MoveOk(h[..i], h[i])
  }

  predicate LockExclusive(s: State) {
    forall t, u | t in s.txns && u in s.txns && t != u ::
      HoldsOrder(s.txns[t], s.txns[t].req.so) ==> !HoldsOrder(s.txns[u], s.txns[t].req.so)
  }

  /** What a lock holder has read or is about to write is still true of the committed row. */
  predicate HolderOk(s: State, t: TxnId)
    requires t in s.txns
  {
    var so := s.txns[t].req.so;
    match s.txns[t].phase
    case Holding(row) => so in s.orders && s.orders[so] == row
    case Ready(MarkShipped(pre), _) =>
      so in s.orders && s.orders[so].status != Shipped
      && pre == (if s.txns[t].req.Dockd? then Some(s.orders[so].status) else None)
    case Ready(MarkVoided(id, revertTo), _) =>
      so in s.orders && s.orders[so].status == Shipped && Live(s, id, so) && s.shipments[id].preShip == Some(revertTo)
    case _ => true
  }

  predicate Holders(s: State) {
    LockExclusive(s) && forall t | t in s.txns :: HolderOk(s, t)
  }

  /** The order row, the fulfillment rows and the history tell one story. */
  predicate OrderOk(s: State, so: string) {
    var m := LastMove(s.moves, so);
    && ((so in s.orders && s.orders[so].status == Shipped) <==> IsShipped(m) || so in s.sold)
    && (so in s.sold ==> m.None?) && (m.Some? ==> so in s.orders)
    && (IsShipped(m) ==>
          && m.value.so == so && m.value.before != Shipped
          && m.value.shipment in s.shipments
          && s.shipments[m.value.shipment] ==
             Shipment(so, if m.value.byDockd then Some(m.value.before) else None, false))
  }

  predicate ShipmentOk(s: State, id: TxnId)
    requires id in s.shipments
  {
    && id in s.txns && s.txns[id].phase.Done?
    && s.shipments[id].so in s.orders
    && (s.shipments[id].preShip.Some? <==> s.txns[id].req.Dockd?)
    && (s.shipments[id].voided ==> s.shipments[id].preShip.Some?)
    && (!s.shipments[id].voided ==>
          var m := LastMove(s.moves, s.shipments[id].so);
          IsShipped(m) && m.value.shipment == id)
  }

  predicate ShipmentsOk(s: State) {
    forall id | id in s.shipments :: ShipmentOk(s, id)
  }

  ghost predicate InvOrders(s: State) {
    Holders(s) && (forall so :: OrderOk(s, so)) && ShipmentsOk(s) && MovesOk(s.moves)
  }

  lemma LastMoveSnoc(h: seq<Move>, m: Move)
    ensures forall so :: LastMove(h + [m], so) == if m.so == so then Some(m) else LastMove(h, so)
  {}

  lemma MovesSnoc(h: seq<Move>, m: Move)
    requires MovesOk(h) && MoveOk(h, m)
    ensures MovesOk(h + [m])
  {
    var g := h + [m];
    forall i | 0 <= i < |g| ensures MoveOk(g[..i], g[i]) {
      assert g[..i] == h[..i];
      assert h[..|h|] == h;
    }
  }

  /** Moving one transaction forward, when it is not newly taking a lock. */
  lemma GotoKeepsOrders(s: State, t: TxnId, p: Phase)
    requires InvOrders(s) && t in s.txns && !s.txns[t].phase.Done?
    requires (p.Holding? || p.Ready?) ==> s.txns[t].phase.Holding? || OrderFree(s, s.txns[t].req.so)
    requires HolderOk(Goto(s, t, p), t)
    ensures InvOrders(Goto(s, t, p))
  {
    var s' := Goto(s, t, p);
    forall so ensures OrderOk(s', so) { assert OrderOk(s, so); }
    forall u | u in s'.txns ensures HolderOk(s', u) {
      assert u != t ==> HolderOk(s, u);
    }
  }

  lemma OrdersFrame(s: State, s': State)
    requires InvOrders(s)
    requires s'.txns == s.txns && s'.orders == s.orders && s'.shipments == s.shipments && s'.moves == s.moves
        && s'.sold == s.sold
    ensures InvOrders(s')
  {
    forall so ensures OrderOk(s', so) { assert OrderOk(s, so); }
    forall t | t in s'.txns ensures HolderOk(s', t) { assert HolderOk(s, t); }
  }

  lemma BeginKeepsOrders(s: State, t: TxnId, req: Request)
    requires InvOrders(s) && t !in s.txns
    ensures InvOrders(Take(s, Begin(t, req)))
  {
    var s' := Take(s, Begin(t, req));
    forall so ensures OrderOk(s', so) { assert OrderOk(s, so); }
    forall u | u in s'.txns ensures HolderOk(s', u) { assert u != t ==> HolderOk(s, u); }
  }

  lemma GateKeepsOrders(s: State, t: TxnId, packing: bool, shipment: TxnId)
    requires InvOrders(s) && Enabled(s, PassGate(t, packing, shipment))
    ensures InvOrders(Take(s, PassGate(t, packing, shipment)))
  {
    assert HolderOk(s, t);
    var p := Gate(s, t, packing, shipment);
    assert HolderOk(Goto(s, t, p), t);
    GotoKeepsOrders(s, t, p);
  }

  /** An order that was not there has no fulfillment and no history. */
  lemma NewKeepsOrders(s: State, so: string, row: Order)
    requires InvOrders(s) && so !in s.orders
    ensures InvOrders(Take(s, NewOrder(so, row)))
  {
    var s' := Take(s, NewOrder(so, row));
    assert OrderOk(s, so);
    forall x ensures OrderOk(s', x) { assert OrderOk(s, x); }
    forall t | t in s'.txns ensures HolderOk(s', t) { assert HolderOk(s, t); }
  }

  /** Changing the status of an order nobody holds, within the statuses short of SHIPPED. */
  lemma AdvanceKeepsOrders(s: State, so: string, row: Order)
    requires InvOrders(s) && row.status != Shipped
    requires so in s.orders ==> OrderFree(s, so) && s.orders[so].status != Shipped
    ensures InvOrders(s.(orders := s.orders[so := row]))
  {
    var s' := s.(orders := s.orders[so := row]);
    forall x ensures OrderOk(s', x) { assert OrderOk(s, x); }
    forall t | t in s'.txns ensures HolderOk(s', t) { assert HolderOk(s, t); }
  }

  lemma CommitKeepsOrders(s: State, t: TxnId)
    requires InvOrders(s) && Enabled(s, Commit(t))
    ensures InvOrders(DoCommit(s, t))
  {
    var s', so := WriteOrder(s, t), s.txns[t].req.so;
    assert HolderOk(s, t);
    assert OrderOk(s, so);
    var m := s'.moves[|s.moves|];
    assert s'.moves == s.moves + [m];
    LastMoveSnoc(s.moves, m);
    MovesSnoc(s.moves, m);
    CommitKeepsOrderOk(s, t, s', m);
    CommitKeepsShipments(s, t, s', m);
    CommitKeepsHolders(s, t);
    OrdersFrame(s', DoCommit(s, t));
  }

  lemma CommitKeepsOrderOk(s: State, t: TxnId, s': State, m: Move)
    requires InvOrders(s) && Enabled(s, Commit(t)) && s' == WriteOrder(s, t) && s'.moves == s.moves + [m]
    ensures forall so :: OrderOk(s', so)
  {
    LastMoveSnoc(s.moves, m);
    assert HolderOk(s, t);
    assert OrderOk(s, s.txns[t].req.so);
    forall x ensures OrderOk(s', x) { assert OrderOk(s, x); }
  }

  lemma CommitKeepsShipments(s: State, t: TxnId, s': State, m: Move)
    requires InvOrders(s) && Enabled(s, Commit(t)) && s' == WriteOrder(s, t) && s'.moves == s.moves + [m]
    ensures ShipmentsOk(s')
  {
    LastMoveSnoc(s.moves, m);
    assert HolderOk(s, t) && OrderOk(s, s.txns[t].req.so);
    forall id | id in s'.shipments ensures ShipmentOk(s', id) {
      if id in s.shipments { assert ShipmentOk(s, id); }
    }
  }

  /** A commit leaves every other lock holder's view intact. */
  lemma CommitKeepsHolders(s: State, t: TxnId)
    requires InvOrders(s) && Enabled(s, Commit(t))
    ensures Holders(WriteOrder(s, t))
  {
    var s' := WriteOrder(s, t);
    assert HolderOk(s, t);
    forall u | u in s'.txns ensures HolderOk(s', u) {
      if u != t && (s.txns[u].phase.Holding? || s.txns[u].phase.Ready?) {
        assert HolderOk(s, u) && s'.txns[u] == s.txns[u] && s.txns[u].req.so != s.txns[t].req.so;
      }
    }
  }

  lemma ReplayKeepsOrders(s: State, t: TxnId, s': State)
    requires InvOrders(s) && t in s.txns && s.txns[t].req.Dockd? && !s.txns[t].phase.Done?
    requires s' == DoProbe(s, t) || s' == DoReread(s, t)
    ensures InvOrders(s')
  {
    var p := ReplayShape(s, t, s');
    GotoKeepsOrders(s, t, p);
    OrdersFrame(Goto(s, t, p), s');
  }

  lemma StepKeepsOrders(s: State, e: Step)
    requires InvOrders(s) && Enabled(s, e)
    ensures InvOrders(Take(s, e))
  {
    match e
    case Begin(t, req) => BeginKeepsOrders(s, t, req);
    case ProbeCache(t) => ReplayKeepsOrders(s, t, Take(s, e));
    case InsertSentinel(t) => GotoKeepsOrders(s, t, Take(s, e).txns[t].phase);
    case RereadPeer(t) => ReplayKeepsOrders(s, t, Take(s, e));
    case LockOrder(t) => GotoKeepsOrders(s, t, Take(s, e).txns[t].phase);
    case PassGate(t, packing, shipment) => GateKeepsOrders(s, t, packing, shipment);
    case Commit(t) => CommitKeepsOrders(s, t);
    case Abort(t) => GotoKeepsOrders(s, t, Done(Refused(RolledBack)));
    case Prune(slot) => OrdersFrame(s, Take(s, e));
    case NewOrder(so, order) => NewKeepsOrders(s, so, order);
    case AdvanceOrder(so, to) => AdvanceKeepsOrders(s, so, s.orders[so].(status := to));
  }

  // ----- Every run -----

  ghost predicate Inv(s: State) {
    InvIdem(s) && InvOrders(s)
  }

  lemma InitInv(s: State)
    requires Init(s)
    ensures Inv(s)
  {}

  lemma {:induction false} RunKeepsInv(s: State, steps: seq<Step>)
    requires Inv(s) && Legal(s, steps)
    ensures Inv(Run(s, steps))
    decreases |steps|
  {
    if steps != [] {
      StepKeepsIdem(s, steps[0]);
      StepKeepsOrders(s, steps[0]);
      RunKeepsInv(Take(s, steps[0]), steps[1..]);
    }
  }

  lemma ReachableInv(s0: State, steps: seq<Step>)
    requires Init(s0) && Legal(s0, steps)
    ensures Inv(Run(s0, steps))
  {
    InitInv(s0);
    RunKeepsInv(s0, steps);
  }

  function Commits(h: seq<Answer>, slot: Slot): nat {
    if h == [] then 0
    else Commits(h[..|h| - 1], slot) + if h[|h| - 1].Committed? && h[|h| - 1].slot == slot then 1 else 0
  }

  function Prunes(h: seq<Answer>, slot: Slot): nat {
    if h == [] then 0
    else Prunes(h[..|h| - 1], slot) + if h[|h| - 1].Pruned? && h[|h| - 1].slot == slot then 1 else 0
  }

  lemma {:induction false} CommitsArePruned(h: seq<Answer>, slot: Slot)
    requires AnswersOk(h)
    ensures Commits(h, slot) == Prunes(h, slot) + if Cached(h, slot).Some? then 1 else 0
  {
    if h != [] {
      var rest := h[..|h| - 1];
      assert forall i | 0 <= i < |rest| :: rest[..i] == h[..i];
      CommitsArePruned(rest, slot);
      assert AnswerOk(rest, h[|h| - 1]);
    }
  }

  /** Exactly once: a key commits once per retention window, and no committed row lacks its answer. */
  lemma KeyCommitsOncePerWindow(s0: State, steps: seq<Step>, slot: Slot)
    requires Init(s0) && Legal(s0, steps)
    ensures var s := Run(s0, steps);
            && Commits(s.answers, slot) == Prunes(s.answers, slot) + (if slot in s.idem then 1 else 0)
            && (slot in s.idem ==> s.idem[slot].response.Some?)
  {
    ReachableInv(s0, steps);
    var s := Run(s0, steps);
    assert Lookup(s.idem, slot) == Cached(s.answers, slot);
    CommitsArePruned(s.answers, slot);
    CachedAnswered(s.answers, slot);
  }

  /** The in-flight branch of the warm probe is dead: a probe that finds a row always ends the request,
      and no replay is ever empty. */
  lemma InFlightBranchUnreachable(s0: State, steps: seq<Step>, t: TxnId)
    requires Init(s0) && Legal(s0, steps) && Enabled(Run(s0, steps), ProbeCache(t))
    ensures var s := Run(s0, steps);
            Take(s, ProbeCache(t)).txns[t].phase.Missed? <==> SlotOf(s.txns[t].req) !in s.idem
    ensures forall i | 0 <= i < |Run(s0, steps).answers| ::
              Run(s0, steps).answers[i].Replay? ==> Run(s0, steps).answers[i].cached.Some?
  {
    var s := Run(s0, steps);
    ReachableInv(s0, steps);
    KeyCommitsOncePerWindow(s0, steps, SlotOf(s.txns[t].req));
    forall i | 0 <= i < |s.answers| && s.answers[i].Replay? ensures s.answers[i].cached.Some? {
      assert AnswerOk(s.answers[..i], s.answers[i]);
      CachedAnswered(s.answers[..i], s.answers[i].slot);
    }
  }

  predicate IsOk(a: Answer, slot: Slot) {
    !a.Pruned? && a.slot == slot
  }

  function Told(a: Answer): IdemRow
    requires !a.Pruned?
  {
    IdemRow(a.endpoint, BodyHash(a.body), if a.Committed? then Some(a.response) else a.cached)
  }

  lemma {:induction false} CachePersists(h: seq<Answer>, i: nat, j: nat)
    requires AnswersOk(h) && i < j <= |h| && !h[i].Pruned?
    requires forall k | i < k < j :: h[k] != Pruned(h[i].slot)
    ensures Cached(h[..j], h[i].slot) == Some(Told(h[i]))
    decreases j
  {
    var slot := h[i].slot;
    assert h[..j] == h[..j - 1] + [h[j - 1]];
    CachedSnoc(h[..j - 1], h[j - 1]);
    assert AnswerOk(h[..j - 1], h[j - 1]);
    if i < j - 1 { CachePersists(h, i, j - 1); }
  }

  /** Idempotence: two 200 answers under one key, with no prune between them, carry the same body and were
      asked for by the same request, and the later one is a replay. */
  lemma AnswersAgree(s0: State, steps: seq<Step>, slot: Slot, i: nat, j: nat)
    requires Init(s0) && Legal(s0, steps)
    requires i < j < |Run(s0, steps).answers|
    requires IsOk(Run(s0, steps).answers[i], slot) && IsOk(Run(s0, steps).answers[j], slot)
    requires forall k | i < k < j :: Run(s0, steps).answers[k] != Pruned(slot)
    ensures var h := Run(s0, steps).answers; h[j].Replay? && Told(h[i]) == Told(h[j])
  {
    ReachableInv(s0, steps);
    var h := Run(s0, steps).answers;
    CachePersists(h, i, j);
    assert AnswerOk(h[..j], h[j]);
  }

  predicate Owns(h: seq<Answer>, i: nat, slot: Slot) {
    i < |h| && h[i].Committed? && h[i].slot == slot && forall k | i < k < |h| :: h[k].slot == slot ==> h[k].Replay?
  }

  lemma {:induction false} OwnerExists(h: seq<Answer>, slot: Slot) returns (i: nat)
    requires Cached(h, slot).Some?
    ensures Owns(h, i, slot) && Told(h[i]) == Cached(h, slot).value
  {
    var n := |h| - 1;
    if h[n].slot == slot && h[n].Committed? { i := n; } else { i := OwnerExists(h[..n], slot); }
  }

  /** Every kept row was written by exactly one committed transaction, and holds its answer. */
  lemma KeptRowHasOneOwner(s0: State, steps: seq<Step>, slot: Slot)
    requires Init(s0) && Legal(s0, steps) && slot in Run(s0, steps).idem
    ensures var s := Run(s0, steps);
            && (exists i: nat :: Owns(s.answers, i, slot) && s.idem[slot] == Told(s.answers[i]))
            && (forall i: nat, j: nat :: Owns(s.answers, i, slot) && Owns(s.answers, j, slot) ==> i == j)
  {
    ReachableInv(s0, steps);
    var s := Run(s0, steps);
    assert Lookup(s.idem, slot) == Cached(s.answers, slot);
    var i := OwnerExists(s.answers, slot);
  }

  /** At most one live shipment per order, and SHIPPED exactly when there is one or the order was sold over the counter;
      such an order never has one. */
  lemma OrderShipsOnce(s0: State, steps: seq<Step>, so: string)
    requires Init(s0) && Legal(s0, steps) && so in Run(s0, steps).orders
    ensures var s := Run(s0, steps);
            && (forall a, b :: Live(s, a, so) && Live(s, b, so) ==> a == b)
            && (s.orders[so].status == Shipped <==> AnyLive(s, so) || so in s.sold)
            && (so in s.sold ==> !AnyLive(s, so))
  {
    ReachableInv(s0, steps);
    var s := Run(s0, steps);
    assert OrderOk(s, so);
    if s.orders[so].status == Shipped && so !in s.sold { assert Live(s, LastMove(s.moves, so).value.shipment, so); }
  }

  lemma {:induction false} LastMoveAt(h: seq<Move>, so: string) returns (i: nat)
    requires LastMove(h, so).Some?
    ensures i < |h| && h[i] == LastMove(h, so).value && h[i].so == so && forall k | i < k < |h| :: h[k].so != so
  {
    var n := |h| - 1;
    if h[n].so == so { i := n; } else { i := LastMoveAt(h[..n], so); }
  }

  /** A void returns the order to the status it had before the ship it undoes, with nothing in between. */
  lemma VoidRestoresStatus(s0: State, steps: seq<Step>, j: nat) returns (i: nat)
    requires Init(s0) && Legal(s0, steps)
    requires j < |Run(s0, steps).moves| && Run(s0, steps).moves[j].WasVoided?
    ensures var h := Run(s0, steps).moves;
            && i < j && h[i] == WasShipped(h[j].so, h[j].shipment, h[j].after, true)
            && forall k | i < k < j :: h[k].so != h[j].so
  {
    ReachableInv(s0, steps);
    var h := Run(s0, steps).moves;
    assert MoveOk(h[..j], h[j]);
    i := LastMoveAt(h[..j], h[j].so);
  }

  /** A handheld ship records no pre-ship status, so dockd can never void it. */
  lemma HandheldShipIsFinal(s0: State, steps: seq<Step>, id: TxnId)
    requires Init(s0) && Legal(s0, steps) && id in Run(s0, steps).shipments
    ensures var s := Run(s0, steps);
            id in s.txns && (s.txns[id].req.Fulfill? ==> !s.shipments[id].voided)
  {
    ReachableInv(s0, steps);
  }
}
