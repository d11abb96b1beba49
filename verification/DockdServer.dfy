/**
 The server's handlers on mutable tables.  Every database round trip of a handler is
 one method, proved to be one step of the protocol; calls of different requests may
 interleave freely as long as each step is enabled.  `ClaimOrReplay` and `LockAndWrite`
 chain them for a request that meets no contention.
 */
module DockdServer {
  import opened Prelude
  import opened Dockd

  lemma {:induction false} Extend(s: State, steps: seq<Step>, e: Step)
    requires Legal(s, steps) && Enabled(Run(s, steps), e)
    ensures Legal(s, steps + [e]) && Run(s, steps + [e]) == Take(Run(s, steps), e)
    decreases |steps|
  {
    if steps == [] {
      assert (steps + [e])[1..] == [];
    } else {
      assert (steps + [e])[1..] == steps[1..] + [e];
      Extend(Take(s, steps[0]), steps[1..], e);
    }
  }

  class Server {
    var idem: map<Slot, IdemRow>
    var orders: map<string, Order>
    var shipments: map<TxnId, Shipment>
    var txns: map<TxnId, Txn>
    var answers: seq<Answer>
    var moves: seq<Move>
    var sold: set<string>

    function View(): (s: State)
      reads this
    {
      State(idem, orders, shipments, txns, answers, moves, sold)
    }

    method SetPhase(t: TxnId, p: Phase)
      requires t in txns
      modifies this`txns
      ensures View() == Goto(old(View()), t, p)
    {
      txns := txns[t := txns[t].(phase := p)];
    }

    method Replay(t: TxnId, row: IdemRow)
      requires t in txns && txns[t].req.Dockd?
      modifies this`txns, this`answers
      ensures View() == SendReplay(old(View()), t, row)
    {
      var r := txns[t].req;
      SetPhase(t, Done(Replayed(row.response)));
      answers := answers + [Answer.Replay(SlotOf(r), r.endpoint, r.body, row.response)];
    }

    /** Step 0a: the warm-cache short circuit. */
    method Probe(t: TxnId)
      requires Enabled(View(), ProbeCache(t))
      modifies this
      ensures View() == Take(old(View()), ProbeCache(t))
    {
      var r := txns[t].req;
      if SlotOf(r) in idem {
        var row := idem[SlotOf(r)];
        if !Matches(row, r) {
          SetPhase(t, Done(Refused(KeyReused)));
          return;
        }
        if row.response.Some? {
          Replay(t, row);
          return;
        }
      }
      SetPhase(t, Missed);
    }

    /** Step 1: INSERT ... ON CONFLICT DO NOTHING. */
    method Claim(t: TxnId)
      requires Enabled(View(), InsertSentinel(t))
      modifies this
      ensures View() == Take(old(View()), InsertSentinel(t))
    {
      if SlotOf(txns[t].req) in idem { SetPhase(t, Conflicted); } else { SetPhase(t, Claimed); }
    }

    /** The peer's row, re-read after a conflict. */
    method Reread(t: TxnId)
      requires Enabled(View(), RereadPeer(t))
      modifies this
      ensures View() == Take(old(View()), RereadPeer(t))
    {
      var r := txns[t].req;
      if SlotOf(r) !in idem {
        SetPhase(t, Done(Refused(LockTimeout)));
      } else if !Matches(idem[SlotOf(r)], r) {
        SetPhase(t, Done(Refused(KeyReused)));
      } else {
        Replay(t, idem[SlotOf(r)]);
      }
    }

    /** Step 2: SELECT ... FOR UPDATE, scoped to the caller's warehouses. */
    method Lock(t: TxnId)
      requires Enabled(View(), LockOrder(t))
      modifies this
      ensures View() == Take(old(View()), LockOrder(t))
    {
      var r := txns[t].req;
      if r.so in orders && orders[r.so].warehouse in r.scope {
        SetPhase(t, Holding(orders[r.so]));
      } else {
        SetPhase(t, Done(Refused(NotFound)));
      }
    }

    /** The order's un-voided shipment, by search. */
    method FindShipment(so: string) returns (found: Option<TxnId>)
      ensures found.Some? ==> Live(View(), found.value, so)
      ensures found.None? ==> !AnyLive(View(), so)
    {
      var todo := shipments.Keys;
      while todo != {}
        invariant todo <= shipments.Keys
        invariant forall id | Live(View(), id, so) :: id in todo
        decreases todo
      {
        var id :| id in todo;
        if shipments[id].so == so && !shipments[id].voided { return Some(id); }
        todo := todo - {id};
      }
      return None;
    }

    /** The status gate of each endpoint and the writes it lets through. A handheld ship records no status before
        it, and a void needs one, sales_orders.status being NOT NULL. */
    method CheckGate(t: TxnId, packingRequired: bool) returns (ghost shipment: TxnId)
      requires t in txns && txns[t].phase.Holding?
      modifies this
      ensures Enabled(old(View()), PassGate(t, packingRequired, shipment))
      ensures View() == Take(old(View()), PassGate(t, packingRequired, shipment))
    {
      var r, st := txns[t].req, txns[t].phase.row.status;
      var found := FindShipment(r.so);
      shipment := if found.Some? then found.value else t;
      var allowed := st == Packed || (!packingRequired && st == Picked);
      if r.Fulfill? {
        SetPhase(t, if allowed then Ready(MarkShipped(None), ShipResponse(t)) else Done(Refused(NotShippable)));
      } else if r.endpoint == ShipEndpoint {
        if st == Shipped {
          SetPhase(t, Done(Refused(AlreadyShipped)));
        } else if !allowed {
          SetPhase(t, Done(Refused(NotShippable)));
        } else {
          SetPhase(t, Ready(MarkShipped(Some(st)), ShipResponse(t)));
        }
      } else if st != Shipped || found.None? {
        SetPhase(t, Done(Refused(NotShipped)));
      } else {
        var before := shipments[found.value].preShip;
        if before.None? {
          SetPhase(t, Done(Refused(ServerError)));
        } else {
          SetPhase(t, Ready(MarkVoided(found.value, before.value), VoidResponse(before.value)));
        }
      }
    }

    /** Steps 5 and 6: fill in the sentinel row and commit. */
    method CommitWrites(t: TxnId)
      requires Enabled(View(), Commit(t))
      modifies this
      ensures View() == Take(old(View()), Commit(t))
    {
      var r, p := txns[t].req, txns[t].phase;
      var row := orders[r.so];
      match p.write {
        case MarkShipped(pre) =>
          orders := orders[r.so := row.(status := Shipped)];
          shipments := shipments[t := Shipment(r.so, pre, false)];
          moves := moves + [WasShipped(r.so, t, row.status, r.Dockd?)];
        case MarkVoided(id, revertTo) =>
          orders := orders[r.so := row.(status := revertTo)];
          if id in shipments { shipments := shipments[id := shipments[id].(voided := true)]; }
          moves := moves + [WasVoided(r.so, id, revertTo)];
      }
      txns := txns[t := Txn(r, Done(Fresh(p.response)))];
      if r.Dockd? {
        idem := idem[SlotOf(r) := IdemRow(r.endpoint, BodyHash(r.body), Some(p.response))];
        answers := answers + [Committed(SlotOf(r), r.endpoint, r.body, p.response)];
      }
    }

    /** No other request is in progress. */
    predicate Alone(t: TxnId)
      reads this
    {
      t in txns && forall u | u in txns && u != t :: txns[u].phase.Done?
    }

    /** An uncontended sentinel insert: the request ends up owning its key, or answered from the cache. */
    method ClaimOrReplay(t: TxnId) returns (ghost steps: seq<Step>)
      requires Alone(t) && txns[t].req.Dockd? && txns[t].phase.Missed?
      modifies this
      ensures Legal(old(View()), steps) && View() == Run(old(View()), steps)
      ensures Alone(t) && txns[t].req == old(txns)[t].req && (txns[t].phase.Claimed? || txns[t].phase.Done?)
      ensures orders == old(orders) && shipments == old(shipments)
    {
      ghost var s0 := View();
      Extend(s0, [], InsertSentinel(t));
      Claim(t);
      steps := [InsertSentinel(t)];
      if txns[t].phase.Conflicted? {
        Extend(s0, steps, RereadPeer(t));
        Reread(t);
        steps := steps + [RereadPeer(t)];
      }
    }

    /** From the row lock to the reply: the gate and, past it, the writes. */
    method GateAndWrite(t: TxnId, packingRequired: bool, ghost s0: State, ghost before: seq<Step>)
          returns (ghost steps: seq<Step>)
      requires Alone(t) && txns[t].phase.Holding? && txns[t].req.so in orders
      requires Legal(s0, before) && View() == Run(s0, before)
      modifies this
      ensures Legal(s0, steps) && View() == Run(s0, steps)
      ensures Alone(t) && txns[t].req == old(txns)[t].req && txns[t].phase.Done?
    {
      ghost var shipment := CheckGate(t, packingRequired);
      Extend(s0, before, PassGate(t, packingRequired, shipment));
      steps := before + [PassGate(t, packingRequired, shipment)];
      if txns[t].phase.Ready? {
        Extend(s0, steps, Commit(t));
        CommitWrites(t);
        steps := steps + [Commit(t)];
      }
    }

    /** An uncontended request from the row lock to its reply; `fulfill` starts here. */
    method LockAndWrite(t: TxnId, packingRequired: bool) returns (reply: Reply, ghost steps: seq<Step>)
      requires Alone(t) && (if txns[t].req.Dockd? then txns[t].phase.Claimed? else txns[t].phase.Arrived?)
      modifies this
      ensures Legal(old(View()), steps) && View() == Run(old(View()), steps)
      ensures Alone(t) && txns[t] == Txn(old(txns)[t].req, Done(reply))
    {
      ghost var s0 := View();
      Extend(s0, [], LockOrder(t));
      Lock(t);
      steps := [LockOrder(t)];
      if txns[t].phase.Holding? { steps := GateAndWrite(t, packingRequired, s0, steps); }
      reply := txns[t].phase.reply;
    }
  }
}
