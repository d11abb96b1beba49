/**
 The one-picker one-packer workload estimate: a two-stage flow shop over Pack Note
 batches.  Times are reals; rounding of the supervisor's rates happens before this code.
 */
module Forecast {

  const CAPACITY: nat := 50

  datatype Job = Job(pick: real, pack: real)

  predicate NonNegative(jobs: seq<Job>) {
    forall i | 0 <= i < |jobs| :: jobs[i].pick >= 0.0 && jobs[i].pack >= 0.0
  }

  function Max(x: real, y: real): real {
    if x >= y then x else y
  }

  function SumPick(jobs: seq<Job>): real {
    if jobs == [] then 0.0 else SumPick(jobs[..|jobs| - 1]) + jobs[|jobs| - 1].pick
  }

  function SumPack(jobs: seq<Job>): real {
    if jobs == [] then 0.0 else SumPack(jobs[..|jobs| - 1]) + jobs[|jobs| - 1].pack
  }

  /** The recurrence the loop computes. */
  function PackFinish(jobs: seq<Job>): real {
    if jobs == [] then 0.0
    else Max(SumPick(jobs), PackFinish(jobs[..|jobs| - 1])) + jobs[|jobs| - 1].pack
  }

  // ----- Schedules -----

  datatype Slot = Slot(pickAt: real, packAt: real)

  /** One picker and one packer work through the batches in order, one batch at a time, and a
      batch is packed only after it has been picked. */
  predicate Feasible(jobs: seq<Job>, plan: seq<Slot>) {
    && |plan| == |jobs|
    && (forall i | 0 <= i < |plan| :: plan[i].pickAt >= 0.0 && plan[i].packAt >= plan[i].pickAt + jobs[i].pick)
    && (forall i, j | 0 <= i < j < |plan| ::
          plan[j].pickAt >= plan[i].pickAt + jobs[i].pick && plan[j].packAt >= plan[i].packAt + jobs[i].pack)
  }

  function Makespan(jobs: seq<Job>, plan: seq<Slot>): real
    requires |plan| == |jobs|
  {
    if jobs == [] then 0.0 else plan[|plan| - 1].packAt + jobs[|jobs| - 1].pack
  }

  /** No feasible plan finishes before the recurrence says. */
  lemma {:induction false} NoPlanIsFaster(jobs: seq<Job>, plan: seq<Slot>)
    requires NonNegative(jobs) && Feasible(jobs, plan)
    ensures PackFinish(jobs) <= Makespan(jobs, plan)
    ensures jobs != [] ==> SumPick(jobs) <= plan[|plan| - 1].pickAt + jobs[|jobs| - 1].pick
  {
    if jobs != [] {
      var n := |jobs| - 1;
      NoPlanIsFaster(jobs[..n], plan[..n]);
      assert SumPick(jobs) <= plan[n].pickAt + jobs[n].pick <= plan[n].packAt;
      if n > 0 { assert Makespan(jobs[..n], plan[..n]) <= plan[n].packAt; }
    }
  }

  /** Starting everything as early as possible. */
  function EagerPlan(jobs: seq<Job>): seq<Slot> {
    if jobs == [] then []
    else
      var rest := jobs[..|jobs| - 1];
      EagerPlan(rest) + [Slot(SumPick(rest), Max(SumPick(jobs), PackFinish(rest)))]
  }

  lemma {:induction false} EagerPlanBounded(jobs: seq<Job>)
    requires NonNegative(jobs)
    ensures |EagerPlan(jobs)| == |jobs| && SumPick(jobs) >= 0.0
    ensures forall i | 0 <= i < |jobs| ::
              && EagerPlan(jobs)[i].pickAt + jobs[i].pick <= SumPick(jobs)
              && EagerPlan(jobs)[i].packAt + jobs[i].pack <= PackFinish(jobs)
  {
    if jobs != [] { EagerPlanBounded(jobs[..|jobs| - 1]); }
  }

  lemma {:induction false} EagerPlanAttains(jobs: seq<Job>)
    requires NonNegative(jobs)
    ensures Feasible(jobs, EagerPlan(jobs)) && Makespan(jobs, EagerPlan(jobs)) == PackFinish(jobs)
  {
    if jobs != [] {
      var n := |jobs| - 1;
      EagerPlanBounded(jobs[..n]);
      EagerPlanAttains(jobs[..n]);
      assert EagerPlan(jobs)[..n] == EagerPlan(jobs[..n]);
    }
  }

  ghost predicate IsLeastFinish(jobs: seq<Job>, finish: real) {
    && (forall plan | Feasible(jobs, plan) :: finish <= Makespan(jobs, plan))
    && (exists plan :: Feasible(jobs, plan) && Makespan(jobs, plan) == finish)
  }

  lemma PackFinishIsLeast(jobs: seq<Job>)
    requires NonNegative(jobs)
    ensures IsLeastFinish(jobs, PackFinish(jobs))
  {
    forall plan | Feasible(jobs, plan) ensures PackFinish(jobs) <= Makespan(jobs, plan) {
      NoPlanIsFaster(jobs, plan);
    }
    EagerPlanAttains(jobs);
  }

  // ----- Critical path -----

  /** Pick batches 0..k, then pack batches k..n-1 back to back. */
  function Path(jobs: seq<Job>, k: nat): real
    requires k < |jobs|
  {
    SumPick(jobs[..k + 1]) + SumPack(jobs[k..])
  }

  lemma PathGrows(jobs: seq<Job>, k: nat)
    requires k + 1 < |jobs|
    ensures Path(jobs, k) == Path(jobs[..|jobs| - 1], k) + jobs[|jobs| - 1].pack
  {
    var rest := jobs[..|jobs| - 1];
    assert rest[..k + 1] == jobs[..k + 1];
    assert jobs[k..][..|jobs| - 1 - k] == rest[k..];
  }

  lemma LastPath(jobs: seq<Job>)
    requires jobs != []
    ensures Path(jobs, |jobs| - 1) == SumPick(jobs) + jobs[|jobs| - 1].pack
  {
    var last := jobs[|jobs| - 1..];
    assert jobs[..|jobs|] == jobs && last[..0] == [] && last[0] == jobs[|jobs| - 1];
    assert SumPack(last) == SumPack(last[..0]) + last[0].pack;
  }

  /** The finish time is the longest pick-then-pack path through the batches. */
  lemma {:induction false} FinishIsCriticalPath(jobs: seq<Job>) returns (k: nat)
    requires NonNegative(jobs) && jobs != []
    ensures k < |jobs| && PackFinish(jobs) == Path(jobs, k)
    ensures forall j: nat | j < |jobs| :: Path(jobs, j) <= PackFinish(jobs)
  {
    var n, rest := |jobs| - 1, jobs[..|jobs| - 1];
    LastPath(jobs);
    k := n;
    if rest != [] {
      var k' := FinishIsCriticalPath(rest);
      if PackFinish(rest) > SumPick(jobs) { k := k'; }
      forall j: nat | j < |jobs| ensures Path(jobs, j) <= PackFinish(jobs) {
        if j < n { PathGrows(jobs, j); }
      }
      PathGrows(jobs, k');
    }
  }

  /** Between the busier stage alone and both stages in series. */
  lemma {:induction false} FinishBounds(jobs: seq<Job>)
    requires NonNegative(jobs)
    ensures SumPick(jobs) <= PackFinish(jobs) && SumPack(jobs) <= PackFinish(jobs)
    ensures PackFinish(jobs) <= SumPick(jobs) + SumPack(jobs)
  {
    if jobs != [] { FinishBounds(jobs[..|jobs| - 1]); }
  }

  // ----- The handler's batches -----

  function MinNat(a: nat, b: nat): nat {
    if a <= b then a else b
  }

  /** min(capacity, count - offset) for offset in range(0, count, capacity). */
  function BatchSizes(count: nat): (sizes: seq<nat>)
    ensures |sizes| == (count + CAPACITY - 1) / CAPACITY
    ensures forall i | 0 <= i < |sizes| :: 1 <= sizes[i] <= CAPACITY && (i + 1 < |sizes| ==> sizes[i] == CAPACITY)
  {
    seq((count + CAPACITY - 1) / CAPACITY, i requires 0 <= i < (count + CAPACITY - 1) / CAPACITY =>
      MinNat(CAPACITY, count - CAPACITY * i))
  }

  function Total(sizes: seq<nat>): nat {
    if sizes == [] then 0 else Total(sizes[..|sizes| - 1]) + sizes[|sizes| - 1]
  }

  lemma {:induction false} FullBatches(count: nat, m: nat)
    requires m <= |BatchSizes(count)|
    ensures Total(BatchSizes(count)[..m]) == MinNat(count, CAPACITY * m)
  {
    var sizes := BatchSizes(count);
    if m > 0 {
      FullBatches(count, m - 1);
      assert sizes[..m][..m - 1] == sizes[..m - 1];
    }
  }

  /** Every package is in exactly one batch. */
  lemma BatchesCoverAll(count: nat)
    ensures Total(BatchSizes(count)) == count
  {
    var sizes := BatchSizes(count);
    FullBatches(count, |sizes|);
    assert sizes[..|sizes|] == sizes;
  }

  function Minutes(rate: real, size: nat): real {
    rate * size as real / CAPACITY as real
  }

  function Jobs(sizes: seq<nat>, pickRate: real, packRate: real): (jobs: seq<Job>)
    ensures |jobs| == |sizes|
  {
    seq(|sizes|, i requires 0 <= i < |sizes| => Job(Minutes(pickRate, sizes[i]), Minutes(packRate, sizes[i])))
  }

  lemma JobsInit(sizes: seq<nat>, pickRate: real, packRate: real)
    requires sizes != []
    ensures Jobs(sizes, pickRate, packRate)[..|sizes| - 1] == Jobs(sizes[..|sizes| - 1], pickRate, packRate)
  {}

  lemma JobsNonNegative(sizes: seq<nat>, pickRate: real, packRate: real)
    requires pickRate >= 0.0 && packRate >= 0.0
    ensures NonNegative(Jobs(sizes, pickRate, packRate))
  {}

  lemma MinutesAdd(rate: real, a: nat, b: nat)
    ensures Minutes(rate, a + b) == Minutes(rate, a) + Minutes(rate, b)
  {}

  lemma MulOrdered(x: real, y: real, z: real)
    requires 0.0 <= x && y <= z
    ensures x * y <= x * z
  {
    assert x * (z - y) >= 0.0;
  }

  lemma MinutesOrdered(rate: real, rate': real, a: nat, b: nat)
    requires 0.0 <= rate <= rate' && a <= b
    ensures Minutes(rate, a) <= Minutes(rate, b) && Minutes(rate, a) <= Minutes(rate', a)
  {
    MulOrdered(rate, a as real, b as real);
    MulOrdered(a as real, rate, rate');
  }

  lemma {:induction false} PickTotal(sizes: seq<nat>, pickRate: real, packRate: real)
    ensures SumPick(Jobs(sizes, pickRate, packRate)) == Minutes(pickRate, Total(sizes))
  {
    if sizes != [] {
      PickTotal(sizes[..|sizes| - 1], pickRate, packRate);
      JobsInit(sizes, pickRate, packRate);
      MinutesAdd(pickRate, Total(sizes[..|sizes| - 1]), sizes[|sizes| - 1]);
    }
  }

  lemma {:induction false} PackTotal(sizes: seq<nat>, pickRate: real, packRate: real)
    ensures SumPack(Jobs(sizes, pickRate, packRate)) == Minutes(packRate, Total(sizes))
  {
    if sizes != [] {
      PackTotal(sizes[..|sizes| - 1], pickRate, packRate);
      JobsInit(sizes, pickRate, packRate);
      MinutesAdd(packRate, Total(sizes[..|sizes| - 1]), sizes[|sizes| - 1]);
    }
  }

  lemma StageMinutes(sizes: seq<nat>, pickRate: real, packRate: real)
    ensures SumPick(Jobs(sizes, pickRate, packRate)) == Minutes(pickRate, Total(sizes))
    ensures SumPack(Jobs(sizes, pickRate, packRate)) == Minutes(packRate, Total(sizes))
  {
    PickTotal(sizes, pickRate, packRate);
    PackTotal(sizes, pickRate, packRate);
  }

  /** Stage totals are the rate for fifty packages times the package count, however the packages are batched. */
  lemma StageTotals(sizes: seq<nat>, pickRate: real, packRate: real)
    ensures SumPick(Jobs(sizes, pickRate, packRate)) == pickRate * Total(sizes) as real / 50.0
    ensures SumPack(Jobs(sizes, pickRate, packRate)) == packRate * Total(sizes) as real / 50.0
  {
    StageMinutes(sizes, pickRate, packRate);
  }

  /** When packing is the slower stage the packer only ever waits for the first batch. */
  lemma {:induction false} PackingBottleneck(sizes: seq<nat>, pickRate: real, packRate: real)
    requires 0.0 <= pickRate <= packRate && sizes != []
    requires forall i | 0 <= i < |sizes| :: sizes[i] <= sizes[0]
    ensures PackFinish(Jobs(sizes, pickRate, packRate)) == Minutes(pickRate, sizes[0]) + Minutes(packRate, Total(sizes))
  {
    var n := |sizes| - 1;
    var rest, last, jobs := sizes[..n], sizes[n], Jobs(sizes, pickRate, packRate);
    JobsInit(sizes, pickRate, packRate);
    PickTotal(sizes, pickRate, packRate);
    MinutesAdd(pickRate, Total(rest), last);
    MinutesAdd(packRate, Total(rest), last);
    MinutesOrdered(pickRate, packRate, last, sizes[0]);
    MinutesOrdered(pickRate, packRate, Total(rest), Total(rest));
    if rest != [] { PackingBottleneck(rest, pickRate, packRate); }
    assert Max(SumPick(jobs), PackFinish(jobs[..n])) == Minutes(pickRate, sizes[0]) + Minutes(packRate, Total(rest));
  }

  function Ceil(x: real): int {
    -((-x).Floor)
  }

  /** The least whole number of minutes that is enough. */
  predicate RoundsUp(x: real, n: int) {
    x <= n as real && n as real - 1.0 < x
  }

  lemma CeilRoundsUp(x: real)
    ensures RoundsUp(x, Ceil(x))
  {}

  lemma CeilMonotone(x: real, y: real)
    requires x <= y
    ensures Ceil(x) <= Ceil(y)
  {}

  /** The two-person figure lies between the busier stage and both in series. */
  lemma FigureOrder(count: nat, pickRate: real, packRate: real)
    requires pickRate >= 0.0 && packRate >= 0.0
    ensures var finish := PackFinish(Jobs(BatchSizes(count), pickRate, packRate));
            && Ceil(Minutes(pickRate, count)) <= Ceil(finish) && Ceil(Minutes(packRate, count)) <= Ceil(finish)
            && Ceil(finish) <= Ceil(Minutes(pickRate, count) + Minutes(packRate, count))
  {
    var sizes := BatchSizes(count);
    var jobs := Jobs(sizes, pickRate, packRate);
    JobsNonNegative(sizes, pickRate, packRate);
    FinishBounds(jobs);
    StageMinutes(sizes, pickRate, packRate);
    BatchesCoverAll(count);
    CeilMonotone(Minutes(pickRate, count), PackFinish(jobs));
    CeilMonotone(Minutes(packRate, count), PackFinish(jobs));
    CeilMonotone(PackFinish(jobs), Minutes(pickRate, count) + Minutes(packRate, count));
  }

  datatype Estimate = Estimate(packNotes: nat, picking: int, packing: int, labor: int, onePickerOnePacker: int)

  /** The loop: the least finish time over all feasible schedules of these batches. */
  method OnePickerOnePacker(sizes: seq<nat>, pickRate: real, packRate: real) returns (packFinished: real)
    requires pickRate >= 0.0 && packRate >= 0.0
    ensures packFinished == PackFinish(Jobs(sizes, pickRate, packRate))
    ensures IsLeastFinish(Jobs(sizes, pickRate, packRate), packFinished)
  {
    var pickFinished := 0.0;
    packFinished := 0.0;
    ghost var jobs := Jobs(sizes, pickRate, packRate);
    for i := 0 to |sizes|
      invariant pickFinished == SumPick(jobs[..i])
      invariant packFinished == PackFinish(jobs[..i])
    {
      assert jobs[..i + 1][..i] == jobs[..i];
      pickFinished := pickFinished + Minutes(pickRate, sizes[i]);
      packFinished := Max(pickFinished, packFinished);
      packFinished := packFinished + Minutes(packRate, sizes[i]);
    }
    assert jobs[..|sizes|] == jobs;
    JobsNonNegative(sizes, pickRate, packRate);
    PackFinishIsLeast(jobs);
  }

  /** The published figures, written out: pack notes of fifty, and minutes rounded up. */
  predicate Figures(e: Estimate, count: nat, pickRate: real, packRate: real, finish: real) {
    && e.packNotes == (count + 49) / 50
    && RoundsUp(pickRate * count as real / 50.0, e.picking)
    && RoundsUp(packRate * count as real / 50.0, e.packing)
    && RoundsUp(pickRate * count as real / 50.0 + packRate * count as real / 50.0, e.labor)
    && RoundsUp(finish, e.onePickerOnePacker)
  }

  function Rounded(notes: nat, pick: real, pack: real, finish: real): Estimate {
    Estimate(notes, Ceil(pick), Ceil(pack), Ceil(pick + pack), Ceil(finish))
  }

  lemma RoundedFigures(count: nat, pickRate: real, packRate: real, finish: real)
    ensures Figures(Rounded((count + 49) / 50, Minutes(pickRate, count), Minutes(packRate, count), finish),
                    count, pickRate, packRate, finish)
  {
    CeilRoundsUp(Minutes(pickRate, count));
    CeilRoundsUp(Minutes(packRate, count));
    CeilRoundsUp(Minutes(pickRate, count) + Minutes(packRate, count));
    CeilRoundsUp(finish);
  }

  /** The estimate half of `_workload_forecast`: the figures, ordered the way a supervisor reads them. */
  method WorkloadForecast(unprinted: int, pickRate: real, packRate: real) returns (e: Estimate)
    requires pickRate >= 0.0 && packRate >= 0.0
    ensures var count := if unprinted > 0 then unprinted else 0;
            Figures(e, count, pickRate, packRate, PackFinish(Jobs(BatchSizes(count), pickRate, packRate)))
    ensures e.picking <= e.onePickerOnePacker && e.packing <= e.onePickerOnePacker <= e.labor
  {
    var count: nat := if unprinted > 0 then unprinted else 0;
    var sizes := BatchSizes(count);
    var pickMinutes, packMinutes := Minutes(pickRate, count), Minutes(packRate, count);
    var packFinished := OnePickerOnePacker(sizes, pickRate, packRate);
    RoundedFigures(count, pickRate, packRate, packFinished);
    FigureOrder(count, pickRate, packRate);
    e := Rounded(|sizes|, pickMinutes, packMinutes, packFinished);
  }
}
