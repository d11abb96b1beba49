/**
 Cancelling takes no lock between reading a receipt and undoing it, so two cancels can undo one receipt twice. When the
 books survive that, step by step and over a run.
 */
module CancelRace {
  import opened Prelude
  import opened Receiving

  /** `seen` is the receipt each cancel in progress has read and not yet undone. */
  datatype State = State(db: Db, seen: map<nat, Receipt>)

  /** A cancel reads and undoes one receipt after another, then rewrites the order's status; receiving locks
      its lines. */
  datatype Step =
    | Receive(bins: map<nat, nat>, scope: set<nat>, po: nat, allowOver: bool, es: seq<Entry>)
    | Read(t: nat, scope: set<nat>, id: nat)
    | Undo(t: nat)
    | Finish(po: nat)

  predicate Enabled(s: State, e: Step) {
    match e
    case Receive(_, _, po, allowOver, es) => WellFormed(ReceiveOp(po, allowOver, es))
    case Read(t, _, _) => t !in s.seen
    case Undo(t) => t in s.seen
    case Finish(po) => po in s.db.pos
  }

  function Take(s: State, e: Step): State
    requires Enabled(s, e)
  {
    match e
    case Receive(bins, scope, po, allowOver, es) =>
      var r := Receiving.Receive(s.db, bins, scope, po, allowOver, es);
      if r.Ok? then s.(db := r.value) else s
    case Read(t, scope, id) =>
      var f := FindReceipt(s.db.receipts, id);
      if f.None? || f.value.warehouse !in scope then s else s.(seen := s.seen[t := f.value])
    case Undo(t) => State(Reversed(s.db, s.seen[t]), s.seen - {t})
    case Finish(po) => s.(db := s.db.(pos := s.db.pos[po := s.db.pos[po].(status := PoStatusOf(s.db.lines, po))]))
  }

  predicate Legal(s: State, steps: seq<Step>)
    decreases |steps|
  {
    steps == [] || (Enabled(s, steps[0]) && Legal(Take(s, steps[0]), steps[1..]))
  }

  // ----- One step -----

  /** A receipt as it was once read: nobody changes a receipt, so it is there as it was, or gone. */
  predicate SeenOk(db: Db, x: Receipt) {
    && x.id < db.nextReceipt && x.qty >= 1 && x.line < |db.lines|
    && forall y | y in db.receipts && y.id == x.id :: y == x
  }

  predicate Inv(s: State) {
    Ledger(s.db) && forall t | t in s.seen :: SeenOk(s.db, s.seen[t])
  }

  /** The receipt is still there, or its line has nothing left to take. */
  predicate Harmless(s: State, e: Step)
    requires Enabled(s, e)
  {
    e.Undo? ==>
      var x := s.seen[e.t];
      x in s.db.receipts || (x.line < |s.db.lines| && s.db.lines[x.line].received == 0)
  }

  lemma UndoKeepsBooksIff(db: Db, x: Receipt)
    requires Ledger(db) && SeenOk(db, x)
    ensures Ledger(Reversed(db, x)) <==> x in db.receipts || db.lines[x.line].received == 0
  {
    var d := Reversed(db, x);
    FindIffMember(db.receipts, x.id);
    if x in db.receipts {
      var k :| 0 <= k < |db.receipts| && db.receipts[k] == x;
      CancelOneKeepsLedger(db, {x.warehouse}, x.id);
      assert CancelOne(db, {x.warehouse}, x.id) == d;
    } else {
      forall k | 0 <= k < |db.receipts| ensures db.receipts[k].id != x.id { assert db.receipts[k] in db.receipts; }
      WithoutMissing(db.receipts, x.id);
      assert LineOk(db, x.line);
      SumNonNegative(db.receipts, OnLine(x.line));
      if db.lines[x.line].received == 0 {
        assert d.lines == db.lines;
        LedgerFrame(db, d);
      } else {
        assert !LineOk(d, x.line);
      }
    }
  }

  lemma UndoKeepsSeen(db: Db, x: Receipt, y: Receipt)
    requires Ledger(db) && SeenOk(db, y)
    ensures SeenOk(Reversed(db, x), y)
  {
    WithoutMembers(db.receipts, x.id);
  }

  lemma ReceiveKeepsSeen(s: State, e: Step, x: Receipt)
    requires Ledger(s.db) && SeenOk(s.db, x) && Enabled(s, e) && e.Receive?
    ensures Ledger(Take(s, e).db) && SeenOk(Take(s, e).db, x)
  {
    if Receiving.Receive(s.db, e.bins, e.scope, e.po, e.allowOver, e.es).Ok? {
      var d, w := Take(s, e).db, s.db.pos[e.po].warehouse;
      var batch := EntriesAdd(s.db, e.bins, e.po, w, e.allowOver, e.es);
      EntriesKeepLedger(s.db, e.bins, e.po, w, e.allowOver, e.es);
      LedgerFrame(ReceiveEntries(s.db, e.bins, e.po, w, e.allowOver, e.es).value, d);
      assert forall y | y in batch :: y.id >= s.db.nextReceipt;
    }
  }

  lemma ReceiveKeepsBooks(s: State, e: Step)
    requires Ledger(s.db) && Enabled(s, e) && e.Receive?
    ensures Ledger(Take(s, e).db)
  {
    if Receiving.Receive(s.db, e.bins, e.scope, e.po, e.allowOver, e.es).Ok? {
      var w := s.db.pos[e.po].warehouse;
      EntriesKeepLedger(s.db, e.bins, e.po, w, e.allowOver, e.es);
      LedgerFrame(ReceiveEntries(s.db, e.bins, e.po, w, e.allowOver, e.es).value, Take(s, e).db);
    }
  }

  lemma StepKeepsBooksIff(s: State, e: Step)
    requires Inv(s) && Enabled(s, e)
    ensures Ledger(Take(s, e).db) <==> Harmless(s, e)
    ensures forall t | t in Take(s, e).seen :: SeenOk(Take(s, e).db, Take(s, e).seen[t])
  {
    var d := Take(s, e);
    match e
    case Receive(_, _, _, _, _) =>
      ReceiveKeepsBooks(s, e);
      forall t | t in d.seen ensures SeenOk(d.db, d.seen[t]) { ReceiveKeepsSeen(s, e, s.seen[t]); }
    case Read(t, scope, id) => ReadSees(s.db, id);
    case Undo(t) =>
      UndoKeepsBooksIff(s.db, s.seen[t]);
      forall u | u in d.seen ensures SeenOk(d.db, d.seen[u]) { UndoKeepsSeen(s.db, s.seen[t], s.seen[u]); }
    case Finish(po) => LedgerFrame(s.db, d.db);
  }

  lemma ReadSees(db: Db, id: nat)
    requires Ledger(db)
    ensures var f := FindReceipt(db.receipts, id); f.Some? ==> SeenOk(db, f.value)
  {
    var f := FindReceipt(db.receipts, id);
    if f.Some? {
      var k :| 0 <= k < |db.receipts| && db.receipts[k] == f.value;
      forall y | y in db.receipts && y.id == id ensures y == f.value {
        var j :| 0 <= j < |db.receipts| && db.receipts[j] == y;
      }
    }
  }

  // ----- Runs -----

  predicate BooksThroughout(s: State, steps: seq<Step>)
    requires Legal(s, steps)
    decreases |steps|
  {
    Ledger(s.db) && (steps == [] || BooksThroughout(Take(s, steps[0]), steps[1..]))
  }

  predicate HarmlessThroughout(s: State, steps: seq<Step>)
    requires Legal(s, steps)
    decreases |steps|
  {
    steps == [] || (Harmless(s, steps[0]) && HarmlessThroughout(Take(s, steps[0]), steps[1..]))
  }

  /** Over interleaved receipts and cancels, each line's received quantity stays the sum of its receipts, if and
      only if no cancel undoes a receipt that a peer has already undone, unless its line had come down to zero. */
  lemma {:induction false} BooksThroughoutIff(s: State, steps: seq<Step>)
    requires Inv(s) && Legal(s, steps)
    ensures BooksThroughout(s, steps) <==> HarmlessThroughout(s, steps)
    decreases |steps|
  {
    if steps != [] {
      StepKeepsBooksIff(s, steps[0]);
      if Harmless(s, steps[0]) { BooksThroughoutIff(Take(s, steps[0]), steps[1..]); }
    }
  }

  lemma Compose(s: State, e: Step, rest: seq<Step>)
    requires Enabled(s, e) && Legal(Take(s, e), rest)
    ensures Legal(s, [e] + rest)
    ensures BooksThroughout(s, [e] + rest) <==> Ledger(s.db) && BooksThroughout(Take(s, e), rest)
  {
    assert ([e] + rest)[1..] == rest;
  }

  lemma BothRead(db: Db, scope: set<nat>, x: Receipt)
    requires Ledger(db) && x in db.receipts && x.warehouse in scope
    ensures SeenOk(db, x) && Take(State(db, map[]), Read(0, scope, x.id)) == State(db, map[0 := x])
    ensures Take(State(db, map[0 := x]), Read(1, scope, x.id)) == State(db, map[0 := x, 1 := x])
  {
    FindIffMember(db.receipts, x.id);
    var k :| 0 <= k < |db.receipts| && db.receipts[k] == x;
    ReadSees(db, x.id);
  }

  /** After one cancel has undone a receipt, another that had read it takes its quantity off the line again. */
  lemma SecondUndoBreaks(db: Db, x: Receipt)
    requires Ledger(db) && SeenOk(db, x) && x in db.receipts && db.lines[x.line].received > x.qty
    ensures SeenOk(Reversed(db, x), x) && !Ledger(Reversed(Reversed(db, x), x))
  {
    WithoutMembers(db.receipts, x.id);
    UndoKeepsBooksIff(db, x);
    UndoKeepsSeen(db, x, x);
    UndoKeepsBooksIff(Reversed(db, x), x);
  }

  lemma DoubleCancel(db: Db, scope: set<nat>, x: Receipt) returns (steps: seq<Step>)
    requires Ledger(db) && x in db.receipts && x.warehouse in scope && db.lines[x.line].received > x.qty
    ensures Legal(State(db, map[]), steps) && !BooksThroughout(State(db, map[]), steps)
  {
    BothRead(db, scope, x);
    SecondUndoBreaks(db, x);
    var s0, s := State(db, map[]), State(db, map[0 := x, 1 := x]);
    Compose(Take(s, Undo(0)), Undo(1), []);
    Compose(s, Undo(0), [Undo(1)] + []);
    Compose(Take(s0, Read(0, scope, x.id)), Read(1, scope, x.id), [Undo(0)] + ([Undo(1)] + []));
    Compose(s0, Read(0, scope, x.id), [Read(1, scope, x.id)] + ([Undo(0)] + ([Undo(1)] + [])));
    steps := [Read(0, scope, x.id)] + ([Read(1, scope, x.id)] + ([Undo(0)] + ([Undo(1)] + [])));
  }
}
