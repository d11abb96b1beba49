/**
 Sweeps of one channel that overlap: each computes its changed rows from what is committed when it starts, and writes
 them when it gets the rows, whatever another sweep has written meanwhile.
 */
module SweepRace {
  import opened Prelude
  import opened ChannelAvailability

  /** `pending` are the rows each sweep in progress found changed, with the numbers it is going to write. */
  datatype State = State(w: World, table: Table, nextVersion: int, pending: map<nat, map<ItemId, nat>>)

  datatype Step =
    | Change(w': World)
    | Start(t: nat, targets: Option<set<ItemId>>)
    | Write(t: nat, t': Table, hi: int)

  /** The upsert: every row of the sweep is written with a version of its own, whether or not it still differs. */
  ghost predicate Written(t: Table, lo: int, t': Table, hi: int, rows: map<ItemId, nat>) {
    && lo <= hi
    && (forall item | item in rows :: Bumped(t, t', rows, item, lo, hi))
    && (forall item | item !in rows :: Same(t, t', item))
    && (forall a, b | a in rows && b in rows && a != b :: t'[a].current != t'[b].current)
  }

  function Found(t: Table, c: map<ItemId, nat>): map<ItemId, nat> {
    map item | item in c && Changed(t, c, item) :: c[item]
  }

  ghost predicate Enabled(s: State, e: Step) {
    match e
    case Change(_) => true
    case Start(t, _) => t !in s.pending
    case Write(t, t', hi) => t in s.pending && Written(s.table, s.nextVersion, t', hi, s.pending[t])
  }

  function Take(s: State, scope: Scope, e: Step): State {
    match e
    case Change(w') => s.(w := w')
    case Start(t, targets) => s.(pending := s.pending[t := Found(s.table, Computed(s.w, scope, targets))])
    case Write(t, t', hi) => s.(table := t', nextVersion := hi, pending := s.pending - {t})
  }

  ghost predicate Legal(s: State, scope: Scope, steps: seq<Step>)
    decreases |steps|
  {
    steps == [] || (Enabled(s, steps[0]) && Legal(Take(s, scope, steps[0]), scope, steps[1..]))
  }

  /** A sweep on its own is a start and a write. */
  lemma LoneSweep(s: State, scope: Scope, t: nat, targets: Option<set<ItemId>>, t': Table, hi: int)
    requires t !in s.pending
    ensures var rows := Found(s.table, Computed(s.w, scope, targets));
            Written(s.table, s.nextVersion, t', hi, rows) <==>
            Swept(s.table, s.nextVersion, t', hi, Computed(s.w, scope, targets))
  {
    var c := Computed(s.w, scope, targets);
    var rows := Found(s.table, c);
    forall item ensures item in rows <==> Changed(s.table, c, item) {}
    forall item | item in rows
      ensures Bumped(s.table, t', rows, item, s.nextVersion, hi) <==> Bumped(s.table, t', c, item, s.nextVersion, hi)
    {}
  }

  // ----- Versions and numbers -----

  predicate VersionsOk(s: State) {
    forall i | i in s.table :: s.table[i].current < s.nextVersion
  }

  /** A version moves exactly when its number does, and upwards. */
  predicate Advances(t: Table, t': Table) {
    forall i | i in t ::
      i in t' && t[i].current <= t'[i].current && (t[i].current == t'[i].current <==> t[i].qty == t'[i].qty)
  }

  /** Every row the sweep is about to write still differs from the number it found. */
  predicate StillChanged(s: State, e: Step) {
    e.Write? ==> e.t in s.pending && forall i | i in s.pending[e.t] :: Changed(s.table, s.pending[e.t], i)
  }

  lemma StepAdvancesIff(s: State, scope: Scope, e: Step)
    requires VersionsOk(s) && Enabled(s, e)
    ensures VersionsOk(Take(s, scope, e))
    ensures Advances(s.table, Take(s, scope, e).table) <==> StillChanged(s, e)
  {
    if e.Write? {
      var d, rows := Take(s, scope, e), s.pending[e.t];
      forall i | i in s.table || i in d.table
        ensures i in d.table && d.table[i].current < d.nextVersion
        ensures i in s.table ==> s.table[i].current <= d.table[i].current
        ensures i in s.table && i in rows ==> s.table[i].current < d.table[i].current && d.table[i].qty == rows[i]
        ensures i !in rows ==> i in s.table && d.table[i] == s.table[i]
      {
        if i in rows {
          assert Bumped(s.table, d.table, rows, i, s.nextVersion, e.hi);
        } else {
          assert Same(s.table, d.table, i);
        }
      }
      if !StillChanged(s, e) {
        var i :| i in rows && !Changed(s.table, rows, i);
        assert i in s.table && d.table[i].qty == s.table[i].qty;
      }
    }
  }

  ghost predicate AdvancesThroughout(s: State, scope: Scope, steps: seq<Step>)
    requires Legal(s, scope, steps)
    decreases |steps|
  {
    steps == []
    || (Advances(s.table, Take(s, scope, steps[0]).table)
        && AdvancesThroughout(Take(s, scope, steps[0]), scope, steps[1..]))
  }

  ghost predicate NoStaleWrite(s: State, scope: Scope, steps: seq<Step>)
    requires Legal(s, scope, steps)
    decreases |steps|
  {
    steps == [] || (StillChanged(s, steps[0]) && NoStaleWrite(Take(s, scope, steps[0]), scope, steps[1..]))
  }

  /** Over overlapping sweeps a version moves exactly when its number does, if and only if no sweep writes a number that
      the row has come to hold since the sweep computed it. */
  lemma {:induction false} AdvancesThroughoutIff(s: State, scope: Scope, steps: seq<Step>)
    requires VersionsOk(s) && Legal(s, scope, steps)
    ensures AdvancesThroughout(s, scope, steps) <==> NoStaleWrite(s, scope, steps)
    decreases |steps|
  {
    if steps != [] {
      StepAdvancesIff(s, scope, steps[0]);
      AdvancesThroughoutIff(Take(s, scope, steps[0]), scope, steps[1..]);
    }
  }

  /** Two sweeps that both found an item changed to one number: the second to write moves its version for nothing. */
  lemma SecondSweepBumps(s: State, scope: Scope, first: Step, second: Step, item: ItemId)
    requires VersionsOk(s) && first.Write? && second.Write? && first.t != second.t
    requires Enabled(s, first) && Enabled(Take(s, scope, first), second)
    requires item in s.pending[first.t] && item in s.pending[second.t]
    requires s.pending[first.t][item] == s.pending[second.t][item]
    ensures var d := Take(s, scope, first); !Advances(d.table, Take(d, scope, second).table)
  {
    var d := Take(s, scope, first);
    StepAdvancesIff(s, scope, first);
    StepAdvancesIff(d, scope, second);
    assert Bumped(s.table, d.table, s.pending[first.t], item, s.nextVersion, first.hi);
    assert !Changed(d.table, d.pending[second.t], item);
  }
}
