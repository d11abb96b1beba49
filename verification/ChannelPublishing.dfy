/**
 Sweeps, inventory changes and the publisher running against one channel.  The
 publisher claims dirty rows, posts them, and marks them; everything else may happen in
 between.
 */
module ChannelPublishing {
  import opened Prelude
  import opened ChannelAvailability

  datatype Claimed = Claimed(version: int, qty: int)

  datatype Batch = Batch(rows: map<ItemId, Claimed>, posted: bool)

  /** `sink` is the number the marketplace received last for each item. */
  datatype State = State(w: World, table: Table, nextVersion: int, sink: map<ItemId, int>, batch: Option<Batch>)

  datatype Step =
    | Change(w': World)
    | Sweep(targets: Option<set<ItemId>>, t': Table, hi: int)
    | DrawElsewhere(hi: int)               // another channel uses the shared sequence
    | Claim(items: set<ItemId>)
    | Post
    | Mark
    | Fail(dead: set<ItemId>)              // the sink answered badly or not at all; `dead` rows are parked
    | Crash

  predicate Dirty(a: Avail) {
    a.current > a.last
  }

  ghost predicate Enabled(s: State, scope: Scope, e: Step) {
    match e
    case Change(_) => true
    case Sweep(targets, t', hi) => Swept(s.table, s.nextVersion, t', hi, Computed(s.w, scope, targets))
    case DrawElsewhere(hi) => hi >= s.nextVersion
    case Claim(items) => s.batch.None? && forall i | i in items :: i in s.table && Dirty(s.table[i]) && !s.table[i].dlq
    case Post => s.batch.Some? && !s.batch.value.posted
    case Mark => s.batch.Some? && s.batch.value.posted
    case Fail(_) => s.batch.Some?
    case Crash => true
  }

  function Delivered(sink: map<ItemId, int>, rows: map<ItemId, Claimed>): map<ItemId, int> {
    map i | i in sink.Keys + rows.Keys :: if i in rows then rows[i].qty else sink[i]
  }

  function Marked(t: Table, rows: map<ItemId, Claimed>): Table {
    map i | i in t :: if i in rows then t[i].(last := rows[i].version, attempts := 0, dlq := false) else t[i]
  }

  function Failed(t: Table, rows: map<ItemId, Claimed>, dead: set<ItemId>): Table {
    map i | i in t :: if i in rows then t[i].(attempts := t[i].attempts + 1, dlq := i in dead) else t[i]
  }

  function Take(s: State, e: Step): State {
    match e
    case Change(w') => s.(w := w')
    case Sweep(_, t', hi) => s.(table := t', nextVersion := hi)
    case DrawElsewhere(hi) => s.(nextVersion := hi)
    case Claim(items) =>
      s.(batch := Some(Batch(map i | i in items && i in s.table :: Claimed(s.table[i].current, s.table[i].qty), false)))
    case Post =>
      if s.batch.None? then s
      else s.(sink := Delivered(s.sink, s.batch.value.rows), batch := Some(s.batch.value.(posted := true)))
    case Mark => if s.batch.None? then s else s.(table := Marked(s.table, s.batch.value.rows), batch := None)
    case Fail(dead) => if s.batch.None? then s
        else s.(table := Failed(s.table, s.batch.value.rows, dead), batch := None)
    case Crash => s.(batch := None)
  }

  // ----- Invariant -----

  /** A clean row's number is what the sink has; versions come from the sequence. */
  predicate RowOk(s: State, i: ItemId)
    requires i in s.table
  {
    && 0 <= s.table[i].last <= s.table[i].current < s.nextVersion && s.table[i].current >= 1
    && (!Dirty(s.table[i]) ==> i in s.sink && s.sink[i] == s.table[i].qty)
  }

  /** A claimed row stays dirty until it is marked, and names the number its version stands for. */
  predicate ClaimOk(s: State, i: ItemId, c: Claimed) {
    && i in s.table && s.table[i].last < c.version <= s.table[i].current
    && (c.version == s.table[i].current ==> c.qty == s.table[i].qty)
    && (s.batch.Some? && s.batch.value.posted ==> i in s.sink && s.sink[i] == c.qty)
  }

  predicate Inv(s: State) {
    && s.nextVersion >= 1
    && (forall i | i in s.table :: RowOk(s, i))
    && (s.batch.Some? ==> forall i | i in s.batch.value.rows :: ClaimOk(s, i, s.batch.value.rows[i]))
  }

  /** Versions of a row only grow, and a row keeps its number while it keeps its version. */
  predicate Advances(t: Table, t': Table) {
    forall i | i in t ::
        i in t' && t[i].current <= t'[i].current && (t[i].current == t'[i].current <==> t[i].qty == t'[i].qty)
  }

  lemma SweepKeepsInv(s: State, scope: Scope, e: Step)
    requires Inv(s) && Enabled(s, scope, e) && e.Sweep?
    ensures Inv(Take(s, e)) && Advances(s.table, Take(s, e).table)
  {
    var s', c := Take(s, e), Computed(s.w, scope, e.targets);
    forall i | i in s'.table
      ensures RowOk(s', i)
      ensures i in s.table ==> s.table[i].current <= s'.table[i].current && s'.table[i].last == s.table[i].last
                               && (s.table[i].current == s'.table[i].current <==> s.table[i].qty == s'.table[i].qty)
    {
      if Changed(s.table, c, i) {
        assert Bumped(s.table, s'.table, c, i, s.nextVersion, e.hi);
        if i in s.table { assert RowOk(s, i); }
      } else {
        assert Same(s.table, s'.table, i) && RowOk(s, i);
      }
    }
    forall i | i in s.table ensures i in s'.table {
      if Changed(s.table, c, i) { assert Bumped(s.table, s'.table, c, i, s.nextVersion, e.hi); }
          else { assert Same(s.table, s'.table, i); }
    }
    if s.batch.Some? {
      forall i | i in s.batch.value.rows ensures ClaimOk(s', i, s.batch.value.rows[i]) {
        assert ClaimOk(s, i, s.batch.value.rows[i]);
      }
    }
  }

  lemma StepKeepsInv(s: State, scope: Scope, e: Step)
    requires Inv(s) && Enabled(s, scope, e)
    ensures Inv(Take(s, e)) && Advances(s.table, Take(s, e).table)
  {
    if e.Sweep? {
      SweepKeepsInv(s, scope, e);
    } else {
      QuietKeepsInv(s, scope, e);
    }
  }

  lemma QuietKeepsInv(s: State, scope: Scope, e: Step)
    requires Inv(s) && Enabled(s, scope, e) && !e.Sweep?
    ensures Inv(Take(s, e)) && Advances(s.table, Take(s, e).table)
  {
    var s' := Take(s, e);
    forall i | i in s'.table ensures RowOk(s', i) {
      assert RowOk(s, i);
      if s.batch.Some? && i in s.batch.value.rows { assert ClaimOk(s, i, s.batch.value.rows[i]); }
    }
    if s'.batch.Some? && s.batch.Some? {
      forall i | i in s'.batch.value.rows ensures ClaimOk(s', i, s'.batch.value.rows[i]) {
        assert ClaimOk(s, i, s.batch.value.rows[i]);
      }
    }
  }

  // ----- Runs -----

  ghost predicate Legal(s: State, scope: Scope, steps: seq<Step>)
    decreases |steps|
  {
    steps == [] || (Enabled(s, scope, steps[0]) && Legal(Take(s, steps[0]), scope, steps[1..]))
  }

  function Run(s: State, steps: seq<Step>): State
    decreases |steps|
  {
    if steps == [] then s else Run(Take(s, steps[0]), steps[1..])
  }

  predicate Init(s: State) {
    s.table == map[] && s.nextVersion >= 1 && s.batch == None
  }

  /** In every run a row's version never decreases, and moves exactly when its number does. */
  lemma {:induction false} VersionsTrackNumbers(s: State, scope: Scope, steps: seq<Step>, i: ItemId)
    requires Inv(s) && Legal(s, scope, steps) && i in s.table
    ensures Inv(Run(s, steps)) && i in Run(s, steps).table
    ensures var a, b := s.table[i], Run(s, steps).table[i];
            a.current <= b.current && (a.current == b.current ==> a.qty == b.qty)
    decreases |steps|
  {
    if steps != [] {
      StepKeepsInv(s, scope, steps[0]);
      VersionsTrackNumbers(Take(s, steps[0]), scope, steps[1..], i);
    }
  }

  lemma {:induction false} RunKeepsInv(s: State, scope: Scope, steps: seq<Step>)
    requires Inv(s) && Legal(s, scope, steps)
    ensures Inv(Run(s, steps))
    decreases |steps|
  {
    if steps != [] {
      StepKeepsInv(s, scope, steps[0]);
      RunKeepsInv(Take(s, steps[0]), scope, steps[1..]);
    }
  }

  /** At any moment of any run, a row that is not dirty shows the sink's own number. */
  lemma CleanRowsArePublished(s0: State, scope: Scope, steps: seq<Step>, i: ItemId)
    requires Init(s0) && Legal(s0, scope, steps)
    ensures var s := Run(s0, steps);
            i in s.table && !Dirty(s.table[i]) ==> i in s.sink && s.sink[i] == s.table[i].qty
  {
    RunKeepsInv(s0, scope, steps);
    var s := Run(s0, steps);
    if i in s.table { assert RowOk(s, i); }
  }

  /** Right after a full sweep, an in-scope active item that is not waiting to be published is on the
      marketplace with its true sellable number. */
  lemma CleanAfterSweepIsTrue(s0: State, scope: Scope, steps: seq<Step>, t': Table, hi: int, i: ItemId)
    requires Init(s0) && Legal(s0, scope, steps)
    requires Enabled(Run(s0, steps), scope, Sweep(None, t', hi))
    requires Wanted(Run(s0, steps).w, scope, None, i)
    ensures var s := Take(Run(s0, steps), Sweep(None, t', hi));
            && i in s.table && s.table[i].qty == Sellable(s.w, scope, i)
            && (!Dirty(s.table[i]) ==> i in s.sink && s.sink[i] == Sellable(s.w, scope, i))
  {
    RunKeepsInv(s0, scope, steps);
    var r := Run(s0, steps);
    StepKeepsInv(r, scope, Sweep(None, t', hi));
    FullSweepAgrees(r.table, r.nextVersion, t', hi, r.w, scope);
    assert RowOk(Take(r, Sweep(None, t', hi)), i);
  }
}
