/**
 What the locks, gates and caches of ship and void decide, written out over the rows they read, and what that means for
 every run.
 */
module DockdGates {
  import opened Prelude
  import opened Dockd
  import opened DockdProofs

  // ----- One step -----

  /** The lock reads the order if it exists in the caller's warehouses, and answers not-found otherwise. */
  lemma LockIff(s: State, t: TxnId)
    requires Enabled(s, LockOrder(t))
    ensures var so, scope, p := s.txns[t].req.so, s.txns[t].req.scope, Take(s, LockOrder(t)).txns[t].phase;
            if so in s.orders && s.orders[so].warehouse in scope then p == Holding(s.orders[so])
            else p == Done(Refused(NotFound))
  {}

  predicate Ships(r: Request) {
    r.Fulfill? || r.endpoint == ShipEndpoint
  }

  /** A ship passes the gate if and only if the order is PACKED, or PICKED where packing is not required; it then
      records the status it read, unless it is handheld. */
  lemma ShipGateIff(s: State, t: TxnId, packingRequired: bool, shipment: TxnId)
    requires Enabled(s, PassGate(t, packingRequired, shipment)) && Ships(s.txns[t].req)
    ensures var st, p := s.txns[t].phase.row.status, Take(s, PassGate(t, packingRequired, shipment)).txns[t].phase;
            && (p.Ready? <==> st == Packed || (st == Picked && !packingRequired))
            && (p.Ready? ==> p.response == ShipResponse(t)
                             && p.write == MarkShipped(if s.txns[t].req.Fulfill? then None else Some(st)))
            && (!p.Ready? ==>
                  p == Done(Refused(if s.txns[t].req.Dockd? && st == Shipped then AlreadyShipped else NotShippable)))
  {}

  /** A void passes the gate if and only if the order is SHIPPED and has a live shipment that recorded the status before
      it; it then reverts to that status. */
  lemma VoidGateIff(s: State, t: TxnId, packingRequired: bool, shipment: TxnId)
    requires Enabled(s, PassGate(t, packingRequired, shipment)) && !Ships(s.txns[t].req)
    ensures var so, st := s.txns[t].req.so, s.txns[t].phase.row.status;
            var p := Take(s, PassGate(t, packingRequired, shipment)).txns[t].phase;
            var live := shipment in s.shipments && s.shipments[shipment].so == so && !s.shipments[shipment].voided;
            && (p.Ready? <==> st == Shipped && live && s.shipments[shipment].preShip.Some?)
            && (p.Ready? ==>
                  var pre := s.shipments[shipment].preShip.value;
                  p == Ready(MarkVoided(shipment, pre), VoidResponse(pre)))
            && (!p.Ready? ==> p == Done(Refused(if st == Shipped && AnyLive(s, so) then ServerError else NotShipped)))
  {
    assert AnyLive(s, s.txns[t].req.so) ==> Live(s, shipment, s.txns[t].req.so);
  }

  // ----- Every run -----

  /** Ready ships and past ships left PICKED or PACKED; PACKED only, where every gate so far required packing. */
  predicate GatesOk(s: State, strict: bool) {
    && (forall t | t in s.txns && s.txns[t].phase.Ready? && s.txns[t].phase.write.MarkShipped? ::
          s.txns[t].req.so in s.orders && MayShip(s.orders[s.txns[t].req.so].status, strict))
    && (forall k | 0 <= k < |s.moves| && s.moves[k].WasShipped? :: MayShip(s.moves[k].before, strict))
  }

  predicate MayShip(st: Status, strict: bool) {
    st == Packed || (st == Picked && !strict)
  }

  lemma GatePasses(s: State, t: TxnId, packingRequired: bool, shipment: TxnId, strict: bool)
    requires Inv(s) && GatesOk(s, strict) && Enabled(s, PassGate(t, packingRequired, shipment))
        && (strict ==> packingRequired)
    ensures GatesOk(Take(s, PassGate(t, packingRequired, shipment)), strict)
  {
    assert HolderOk(s, t);
    if Ships(s.txns[t].req) {
      ShipGateIff(s, t, packingRequired, shipment);
    } else {
      VoidGateIff(s, t, packingRequired, shipment);
    }
  }

  lemma CommitKeepsGates(s: State, t: TxnId, strict: bool)
    requires Inv(s) && GatesOk(s, strict) && Enabled(s, Commit(t))
    ensures GatesOk(Take(s, Commit(t)), strict)
  {
    var d := Take(s, Commit(t));
    assert HolderOk(s, t);
    forall u | u in d.txns && d.txns[u].phase.Ready? && d.txns[u].phase.write.MarkShipped?
      ensures d.txns[u].req.so in d.orders && MayShip(d.orders[d.txns[u].req.so].status, strict)
    {
      assert u != t && s.txns[u] == d.txns[u];
      assert HoldsOrder(s.txns[t], s.txns[t].req.so) && HoldsOrder(s.txns[u], s.txns[u].req.so);
      assert s.txns[u].req.so != s.txns[t].req.so;
    }
  }

  /** Other routes do not touch an order that is locked. */
  lemma AdvanceKeepsGates(s: State, so: string, to: Status, strict: bool)
    requires GatesOk(s, strict) && Enabled(s, AdvanceOrder(so, to))
    ensures GatesOk(Take(s, AdvanceOrder(so, to)), strict)
  {
    forall t | t in s.txns && s.txns[t].phase.Ready? ensures s.txns[t].req.so != so {
      assert HoldsOrder(s.txns[t], s.txns[t].req.so);
    }
  }

  predicate KeepsGates(s: State, d: State) {
    && d.moves == s.moves
    && (forall so | so in s.orders :: so in d.orders && d.orders[so] == s.orders[so])
    && (forall t | t in d.txns && d.txns[t].phase.Ready? :: t in s.txns && d.txns[t] == s.txns[t])
  }

  lemma AnswerKeepsGates(s: State, t: TxnId)
    requires t in s.txns && s.txns[t].req.Dockd?
    ensures KeepsGates(s, DoProbe(s, t)) && KeepsGates(s, DoReread(s, t))
  {}

  /** Nor does any other step bring a transaction to its commit, or move an order that was there. */
  lemma QuietStepFrame(s: State, e: Step)
    requires Enabled(s, e) && !e.PassGate? && !e.Commit? && !e.AdvanceOrder?
    ensures KeepsGates(s, Take(s, e))
  {
    if e.ProbeCache? || e.RereadPeer? { AnswerKeepsGates(s, e.t); }
  }

  lemma StepKeepsGates(s: State, e: Step, strict: bool)
    requires Inv(s) && GatesOk(s, strict) && Enabled(s, e) && (strict && e.PassGate? ==> e.packingRequired)
    ensures GatesOk(Take(s, e), strict)
  {
    match e
    case PassGate(t, packing, shipment) => GatePasses(s, t, packing, shipment, strict);
    case Commit(t) => CommitKeepsGates(s, t, strict);
    case AdvanceOrder(so, to) => AdvanceKeepsGates(s, so, to, strict);
    case _ => QuietStepFrame(s, e);
  }

  predicate AlwaysPacked(steps: seq<Step>) {
    forall k | 0 <= k < |steps| && steps[k].PassGate? :: steps[k].packingRequired
  }

  lemma {:induction false} RunKeepsGates(s: State, steps: seq<Step>, strict: bool)
    requires Inv(s) && GatesOk(s, strict) && Legal(s, steps) && (strict ==> AlwaysPacked(steps))
    ensures GatesOk(Run(s, steps), strict)
    decreases |steps|
  {
    if steps != [] {
      StepKeepsGates(s, steps[0], strict);
      StepKeepsIdem(s, steps[0]);
      StepKeepsOrders(s, steps[0]);
      RunKeepsGates(Take(s, steps[0]), steps[1..], strict);
    }
  }

  /** In every run an order ships only from PICKED or PACKED, and only from PACKED where every gate required packing. */
  lemma ShipsFromPickedOrPacked(s0: State, steps: seq<Step>, k: nat)
    requires Init(s0) && Legal(s0, steps)
    requires k < |Run(s0, steps).moves| && Run(s0, steps).moves[k].WasShipped?
    ensures var before := Run(s0, steps).moves[k].before;
            (before == Picked || before == Packed) && (AlwaysPacked(steps) ==> before == Packed)
  {
    InitInv(s0);
    RunKeepsGates(s0, steps, false);
    if AlwaysPacked(steps) { RunKeepsGates(s0, steps, true); }
  }

  // ----- Retries -----

  /** The same request but for the key itself. */
  predicate SameRequest(a: Answer, r: Request)
    requires a.Committed? && r.Dockd?
  {
    a.endpoint == r.endpoint && a.body.(idempotencyKey := r.body.idempotencyKey) == r.body
  }

  /** A retry gets its answer: a probe or a re-read that finds its key's kept row is answered with the response of
      the commit that wrote it if the request is the same, and refused as a reused key if it is another. */
  lemma RetryGetsItsResponse(s0: State, steps: seq<Step>, e: Step) returns (i: nat)
    requires Init(s0) && Legal(s0, steps) && (e.ProbeCache? || e.RereadPeer?) && Enabled(Run(s0, steps), e)
    requires SlotOf(Run(s0, steps).txns[e.t].req) in Run(s0, steps).idem
    ensures var s, r := Run(s0, steps), Run(s0, steps).txns[e.t].req;
            var d := Take(s, e);
            && i < |s.answers| && Owns(s.answers, i, SlotOf(r))
            && var a := s.answers[i];
               if SameRequest(a, r) then
                 && d.txns[e.t].phase == Done(Replayed(Some(a.response)))
                 && d.answers == s.answers + [Replay(SlotOf(r), r.endpoint, r.body, Some(a.response))]
               else d.txns[e.t].phase == Done(Refused(KeyReused)) && d.answers == s.answers
  {
    var s := Run(s0, steps);
    var slot := SlotOf(s.txns[e.t].req);
    ReachableInv(s0, steps);
    assert Lookup(s.idem, slot) == Cached(s.answers, slot);
    i := OwnerExists(s.answers, slot);
  }
}
