/**
 Idempotency keys of checkout and refund under concurrency. A key lives on the order row it created; the unique
 constraint on it is the only thing that orders two requests with one key.
 */
module PosKeys {
  import opened Prelude
  import opened PosLedger
  import opened PosTxn

  predicate OneRowPerKey(s: State) {
    forall i, j | 0 <= i < j < |s.saved| :: s.saved[i].key != s.saved[j].key
  }

  predicate EveryRowReplies(s: State) {
    forall k | 0 <= k < |s.saved| :: s.saved[k].reply.Some?
  }

  predicate TxnOk(s: State, t: nat)
    requires t in s.txns
  {
    var x := s.txns[t];
    && BodyOk(x.ask.body)
    && (HoldsKey(x) ==> FindSaved(s.saved, x.ask.key).None? && !KeyHeldByPeer(s, t, x.ask.key))
    && (x.phase == Conflicted ==> FindSaved(s.saved, x.ask.key).Some?)
  }

  predicate AnswerOk(s: State, a: Answer) {
    a.result.Replied? ==> Saved(a.key, a.body, Some(a.result.reply)) in s.saved
  }

  predicate Keys(s: State) {
    && OneRowPerKey(s) && EveryRowReplies(s)
    && (forall t | t in s.txns :: TxnOk(s, t))
    && (forall k | 0 <= k < |s.answers| :: AnswerOk(s, s.answers[k]))
  }

  lemma FindAppend(saved: seq<Saved>, x: Saved, key: string)
    ensures FindSaved(saved + [x], key) ==
            if FindSaved(saved, key).Some? then FindSaved(saved, key) else if x.key == key then Some(x) else None
  {}

  lemma FindUnique(s: State, x: Saved)
    requires OneRowPerKey(s) && x in s.saved
    ensures FindSaved(s.saved, x.key) == Some(x)
  {}

  /** Only a commit touches the tables and the key columns. */
  lemma QuietStepFrame(c: Catalog, home: Option<nat>, s: State, step: Step)
    requires Enabled(s, step) && !step.Commit?
    ensures var d := Take(c, home, s, step);
            && d.db == s.db && d.saved == s.saved && d.applied == s.applied
            && step.t in d.txns && d.txns == s.txns[step.t := d.txns[step.t]]
  {}

  /** How a quiet step moves its own transaction with respect to its key. */
  lemma QuietStepPhase(c: Catalog, home: Option<nat>, s: State, step: Step)
    requires Enabled(s, step) && !step.Commit? && (step.t in s.txns ==> BodyOk(s.txns[step.t].ask.body))
    ensures var d := Take(c, home, s, step);
            && step.t in d.txns && BodyOk(d.txns[step.t].ask.body)
            && (step.t in s.txns ==>
                d.txns[step.t].ask.key == s.txns[step.t].ask.key && d.txns[step.t].ask.body == s.txns[step.t].ask.body)
            && (HoldsKey(d.txns[step.t]) ==>
                  && step.t in s.txns
                  && (HoldsKey(s.txns[step.t]) || (step.Insert? && FindSaved(s.saved, s.txns[step.t].ask.key).None?)))
            && (d.txns[step.t].phase == Conflicted ==> step.Insert? && FindSaved(s.saved, s.txns[step.t].ask.key).Some?)
  {}

  /** A quiet step answers at most once, and 200 only from a committed row. */
  lemma QuietAnswer(c: Catalog, home: Option<nat>, s: State, step: Step)
    requires Enabled(s, step) && !step.Commit?
    ensures var d, n := Take(c, home, s, step), |s.answers|;
            && n <= |d.answers| <= n + 1 && d.answers[..n] == s.answers
            && (|d.answers| > n ==> AnswerOk(s, d.answers[n]))
  {}

  lemma QuietAnswers(c: Catalog, home: Option<nat>, s: State, step: Step)
    requires Keys(s) && Enabled(s, step) && !step.Commit?
    ensures var d := Take(c, home, s, step); forall k | 0 <= k < |d.answers| :: AnswerOk(d, d.answers[k])
  {
    var d := Take(c, home, s, step);
    QuietStepFrame(c, home, s, step);
    QuietAnswer(c, home, s, step);
    forall k | 0 <= k < |d.answers| ensures AnswerOk(d, d.answers[k]) {
      if k < |s.answers| { assert d.answers[k] == s.answers[k] && AnswerOk(s, s.answers[k]); }
    }
  }

  lemma QuietStepKeepsKeys(c: Catalog, home: Option<nat>, s: State, step: Step)
    requires Keys(s) && Enabled(s, step) && !step.Commit?
    ensures Keys(Take(c, home, s, step))
  {
    var d, t := Take(c, home, s, step), step.t;
    assert t in s.txns ==> TxnOk(s, t);
    QuietStepFrame(c, home, s, step);
    QuietStepPhase(c, home, s, step);
    QuietAnswers(c, home, s, step);
    KeysFrame(s, d, t);
  }

  lemma KeysFrame(s: State, d: State, t: nat)
    requires Keys(s) && d.saved == s.saved && t in d.txns && d.txns == s.txns[t := d.txns[t]]
        && BodyOk(d.txns[t].ask.body)
    requires forall k | 0 <= k < |d.answers| :: AnswerOk(d, d.answers[k])
    requires HoldsKey(d.txns[t]) ==>
        FindSaved(s.saved, d.txns[t].ask.key).None? && !KeyHeldByPeer(s, t, d.txns[t].ask.key)
    requires d.txns[t].phase == Conflicted ==> FindSaved(s.saved, d.txns[t].ask.key).Some?
    ensures Keys(d)
  {
    forall u | u in d.txns ensures TxnOk(d, u) {
      if u != t { assert TxnOk(s, u); }
    }
  }

  lemma CommitKeepsKeys(c: Catalog, home: Option<nat>, s: State, step: Step)
    requires Keys(s) && Enabled(s, step) && step.Commit?
    ensures Keys(Take(c, home, s, step))
  {
    var d, t := Take(c, home, s, step), step.t;
    var x := d.saved[|s.saved|];
    assert TxnOk(s, t);
    assert d.saved == s.saved + [x];
    forall u | u in d.txns ensures TxnOk(d, u) {
      assert TxnOk(s, u);
      FindAppend(s.saved, x, d.txns[u].ask.key);
      if HoldsKey(d.txns[u]) {
        assert !KeyHeldByPeer(s, t, s.txns[t].ask.key);
        assert !KeyHeldByPeer(s, u, s.txns[u].ask.key);
      }
    }
    forall k | 0 <= k < |d.answers| ensures AnswerOk(d, d.answers[k]) {
      if k < |s.answers| { assert AnswerOk(s, s.answers[k]); }
    }
  }

  lemma {:induction false} RunKeepsKeys(c: Catalog, home: Option<nat>, start: Db, steps: seq<Step>)
    requires Legal(c, home, Init(start), steps)
    ensures Keys(Run(c, home, Init(start), steps))
  {
    if steps != [] {
      var n := |steps| - 1;
      RunKeepsKeys(c, home, start, steps[..n]);
      var s := Run(c, home, Init(start), steps[..n]);
      if steps[n].Commit? { CommitKeepsKeys(c, home, s, steps[n]); } else { QuietStepKeepsKeys(c, home, s, steps[n]); }
    }
  }

  lemma ReachableKeys(c: Catalog, home: Option<nat>, start: Db, s: State)
    requires Reachable(c, home, start, s)
    ensures Keys(s)
  {
    var steps :| Legal(c, home, Init(start), steps) && s == Run(c, home, Init(start), steps);
    RunKeepsKeys(c, home, start, steps);
  }

  // ----- Main results -----

  /** At most one order commits under a key, and all 200 answers for it carry the same reply to the same body. */
  lemma OneOrderPerKey(c: Catalog, home: Option<nat>, start: Db, s: State)
    requires Reachable(c, home, start, s)
    ensures forall i, j | 0 <= i < j < |s.saved| :: s.saved[i].key != s.saved[j].key
    ensures forall i, j | 0 <= i < |s.answers| && 0 <= j < |s.answers| && s.answers[i].key == s.answers[j].key
              && s.answers[i].result.Replied? && s.answers[j].result.Replied? ::
              s.answers[i].body == s.answers[j].body && s.answers[i].result == s.answers[j].result
  {
    ReachableKeys(c, home, start, s);
    forall i, j | 0 <= i < |s.answers| && 0 <= j < |s.answers| && s.answers[i].key == s.answers[j].key
      && s.answers[i].result.Replied? && s.answers[j].result.Replied?
      ensures s.answers[i].body == s.answers[j].body && s.answers[i].result == s.answers[j].result
    {
      var a, b := s.answers[i], s.answers[j];
      assert AnswerOk(s, a) && AnswerOk(s, b);
      FindUnique(s, Saved(a.key, a.body, Some(a.result.reply)));
      FindUnique(s, Saved(b.key, b.body, Some(b.result.reply)));
    }
  }

  /** Once a key is taken no step of a request under it, with whatever body, changes stock, orders or key rows. */
  lemma TakenKeyChangesNothing(c: Catalog, home: Option<nat>, start: Db, s: State, step: Step)
    requires Reachable(c, home, start, s) && !step.Begin? && Enabled(s, step)
    requires exists row :: row in s.saved && row.key == s.txns[step.t].ask.key
    ensures var d := Take(c, home, s, step); d.db == s.db && d.saved == s.saved && d.applied == s.applied
  {
    ReachableKeys(c, home, start, s);
    var row :| row in s.saved && row.key == s.txns[step.t].ask.key;
    FindUnique(s, row);
    assert TxnOk(s, step.t);
    QuietStepFrame(c, home, s, step);
  }

  /** A retry gets its answer: at the probe, or at the re-read after a conflict, a request whose key belongs to a
      committed order is answered once, with that order's reply if its body is the same, with the 409 if it is
      another, and with nothing else; a probe whose key belongs to no order is not answered. */
  lemma RetryGetsItsReply(c: Catalog, home: Option<nat>, start: Db, s: State, step: Step)
    requires Reachable(c, home, start, s) && (step.Probe? || step.Reread?) && Enabled(s, step)
    ensures var t, x, d := step.t, s.txns[step.t].ask, Take(c, home, s, step);
            && (forall row | row in s.saved && row.key == x.key && row.body == x.body ::
                  && row.reply.Some?
                  && d.answers == s.answers + [Answer(t, x.key, x.body, Replied(row.reply.value))]
                      && d.txns[t].phase == Ended)
            && (forall row | row in s.saved && row.key == x.key && row.body != x.body ::
                  d.answers == s.answers + [Answer(t, x.key, x.body, DifferentBody)] && d.txns[t].phase == Ended)
            && ((forall row | row in s.saved :: row.key != x.key) ==>
                  step.Probe? && d.answers == s.answers && d.txns[t].phase == Probed)
  {
    ReachableKeys(c, home, start, s);
    var x := s.txns[step.t].ask;
    assert TxnOk(s, step.t);
    forall row | row in s.saved && row.key == x.key ensures FindSaved(s.saved, x.key) == Some(row) && row.reply.Some? {
      FindUnique(s, row);
      var k :| 0 <= k < |s.saved| && s.saved[k] == row;
    }
  }

  /** What a commit answers and keeps is true of what it has written: the number of the new order, and for a refund
      whether the original is now closed. */
  lemma CommitReplyIsTrue(c: Catalog, home: Option<nat>, s: State, t: nat)
    requires Enabled(s, Commit(t)) && BodyOk(s.txns[t].ask.body)
    requires s.txns[t].ask.body.RefundBody? <==> s.txns[t].phase.plan.original.Some?
    requires s.txns[t].ask.body.RefundBody? ==>
               && s.txns[t].phase.plan.original == Some(s.txns[t].ask.body.req.original)
               && s.db.orders[s.txns[t].ask.body.req.original].status == Shipped
    ensures var d, x, n := Take(c, home, s, Commit(t)), s.txns[t].ask, |s.db.orders|;
            && |d.db.orders| == n + 1 && |d.saved| == |s.saved| + 1 && |d.answers| == |s.answers| + 1
            && var reply := match x.body
                 case SaleBody(_) => SaleReply(n)
                 case RefundBody(req) => RefundReply(n, req.original, d.db.orders[req.original].status == Refunded);
               && d.saved[|s.saved|] == Saved(x.key, x.body, Some(reply))
               && d.answers[|s.answers|] == Answer(t, x.key, x.body, Replied(reply))
  {
    var x := s.txns[t];
    if x.ask.body.RefundBody? {
      var o := x.ask.body.req.original;
      assert Published(s.db, x, x.phase.plan).orders[o].status == if x.phase.plan.full then Refunded else Shipped;
    }
  }

  /** A re-read always finds a row with a reply: the branches for a vanished or unfinished peer cannot be taken. */
  lemma RereadFindsItsPeer(c: Catalog, home: Option<nat>, start: Db, s: State, t: nat)
    requires Reachable(c, home, start, s) && t in s.txns && s.txns[t].phase == Conflicted
    ensures var peer := FindSaved(s.saved, s.txns[t].ask.key); peer.Some? && peer.value.reply.Some?
  {
    ReachableKeys(c, home, start, s);
    assert TxnOk(s, t);
    var peer := FindSaved(s.saved, s.txns[t].ask.key).value;
    var k :| 0 <= k < |s.saved| && s.saved[k] == peer;
  }
}
