/**
 Channel availability: a materialised number per item, reconciled against live
 inventory by sweeps and delivered to a marketplace sink by a publisher.
 */
module ChannelAvailability {
  import opened Prelude

  type ItemId = nat

  datatype BinType = Pickable | PickableStaging | Staging

  datatype Item = Item(sku: string, category: string, active: bool)

  datatype Stock = Stock(item: ItemId, bin: nat, warehouse: nat, onHand: int, reserved: int)

  datatype World = World(items: map<ItemId, Item>, bins: map<nat, BinType>, inventory: seq<Stock>)

  /** sku_scope as stored: an absent or empty dimension restricts nothing. */
  datatype Scope = Scope(skus: seq<string>, categories: seq<string>, warehouses: seq<nat>)

  predicate InScope(i: Item, s: Scope) {
    (s.skus == [] && s.categories == []) || i.sku in s.skus || i.category in s.categories
  }

  /** Whether a row's stock counts toward the number, and how much. */
  function Contribution(w: World, s: Scope, r: Stock): nat {
    if r.bin in w.bins && w.bins[r.bin] != Staging && (s.warehouses == [] || r.warehouse in s.warehouses)
        && r.onHand > r.reserved
    then r.onHand - r.reserved else 0
  }

  /** The true sellable number of one item: its own rows, added up. */
  function SumFor(w: World, s: Scope, rows: seq<Stock>, item: ItemId): nat {
    if rows == [] then 0
    else SumFor(w, s, rows[..|rows| - 1], item) +
         if rows[|rows| - 1].item == item then Contribution(w, s, rows[|rows| - 1]) else 0
  }

  function Sellable(w: World, s: Scope, item: ItemId): nat {
    SumFor(w, s, w.inventory, item)
  }

  /** pickable_inv: one pass over inventory, grouped by item. */
  function Grouped(w: World, s: Scope, rows: seq<Stock>): map<ItemId, nat> {
    if rows == [] then map[]
    else
      var g, r := Grouped(w, s, rows[..|rows| - 1]), rows[|rows| - 1];
      g[r.item := (if r.item in g then g[r.item] else 0) + Contribution(w, s, r)]
  }

  lemma {:induction false} GroupedIsSum(w: World, s: Scope, rows: seq<Stock>, item: ItemId)
    ensures (if item in Grouped(w, s, rows) then Grouped(w, s, rows)[item] else 0) == SumFor(w, s, rows, item)
  {
    if rows != [] {
      GroupedIsSum(w, s, rows[..|rows| - 1], item);
    }
  }

  predicate Targeted(targets: Option<set<ItemId>>, item: ItemId) {
    targets.None? || item in targets.value
  }

  predicate Wanted(w: World, s: Scope, targets: Option<set<ItemId>>, item: ItemId) {
    item in w.items && w.items[item].active && InScope(w.items[item], s) && Targeted(targets, item)
  }

  /** computed: every wanted item LEFT JOINed to the aggregate. */
  function Computed(w: World, s: Scope, targets: Option<set<ItemId>>): map<ItemId, nat> {
    var g := Grouped(w, s, w.inventory);
    map item | item in w.items && Wanted(w, s, targets, item) :: if item in g then g[item] else 0
  }

  lemma ComputedIsSellable(w: World, s: Scope, targets: Option<set<ItemId>>)
    ensures forall item :: item in Computed(w, s, targets) <==> Wanted(w, s, targets, item)
    ensures forall item | item in Computed(w, s, targets) :: Computed(w, s, targets)[item] == Sellable(w, s, item)
  {
    forall item | item in Computed(w, s, targets) ensures Computed(w, s, targets)[item] == Sellable(w, s, item) {
      GroupedIsSum(w, s, w.inventory, item);
    }
  }

  // ----- The table -----

  datatype Avail = Avail(qty: int, current: int, last: int, attempts: nat, dlq: bool)

  type Table = map<ItemId, Avail>

  predicate Changed(t: Table, c: map<ItemId, nat>, item: ItemId) {
    item in c && (item !in t || t[item].qty != c[item])
  }

  /** A changed row takes its number, a version from [lo, hi), a clean retry state, and keeps what was published. */
  predicate Bumped(t: Table, t': Table, c: map<ItemId, nat>, item: ItemId, lo: int, hi: int)
    requires item in c
  {
    && item in t' && t'[item].qty == c[item] && lo <= t'[item].current < hi
    && t'[item].last == (if item in t then t[item].last else 0)
    && t'[item].attempts == 0 && !t'[item].dlq
  }

  predicate Same(t: Table, t': Table, item: ItemId) {
    (item in t <==> item in t') && (item in t ==> t'[item] == t[item])
  }

  /** What one sweep may do, whatever order the upsert visits rows in. */
  ghost predicate Swept(t: Table, lo: int, t': Table, hi: int, c: map<ItemId, nat>) {
    && lo <= hi
    && (forall item | Changed(t, c, item) :: Bumped(t, t', c, item, lo, hi))
    && (forall item | !Changed(t, c, item) :: Same(t, t', item))
    && (forall a, b | Changed(t, c, a) && Changed(t, c, b) && a != b :: t'[a].current != t'[b].current)
  }

  /** A sweep that has upserted the rows in `done`. */
  ghost predicate Progress(t0: Table, lo: int, t: Table, hi: int, c: map<ItemId, nat>, done: set<ItemId>) {
    && lo <= hi && done <= c.Keys
    && (forall item | item in done :: Bumped(t0, t, c, item, lo, hi))
    && (forall item | item !in done :: Same(t0, t, item))
    && (forall a, b | a in done && b in done && a != b :: t[a].current != t[b].current)
  }

  lemma ProgressStep(t0: Table, lo: int, t: Table, hi: int, t': Table, hi': int, c: map<ItemId, nat>,
        done: set<ItemId>, item: ItemId)
    requires Progress(t0, lo, t, hi, c, done) && item in c && item !in done
    requires item in t' && hi <= t'[item].current < hi'
    requires t' == t[item := Avail(c[item], t'[item].current, if item in t then t[item].last else 0, 0, false)]
    ensures Progress(t0, lo, t', hi', c, done + {item})
  {}

  lemma ProgressStart(t: Table, lo: int, c: map<ItemId, nat>)
    ensures Progress(t, lo, t, lo, c, {})
  {}

  function ChangedRows(t: Table, c: map<ItemId, nat>): set<ItemId> {
    set item | item in c && Changed(t, c, item)
  }

  lemma ProgressDone(t0: Table, lo: int, t: Table, hi: int, c: map<ItemId, nat>, done: set<ItemId>)
    requires Progress(t0, lo, t, hi, c, done) && done == ChangedRows(t0, c)
    ensures Swept(t0, lo, t, hi, c)
  {}

  class Channel {
    var table: Table
    var nextVersion: int     // channel_availability_version_seq

    constructor ()
      ensures table == map[] && nextVersion == 1
    {
      table, nextVersion := map[], 1;
    }

    /** `recompute_channel`.  Returns the number of rows bumped. */
    method Recompute(w: World, s: Scope, targets: Option<set<ItemId>>) returns (bumped: nat)
      modifies this
      ensures Swept(old(table), old(nextVersion), table, nextVersion, Computed(w, s, targets))
      ensures bumped == |ChangedRows(old(table), Computed(w, s, targets))|
    {
      bumped := UpsertChanged(Computed(w, s, targets));
    }

    method UpsertChanged(c: map<ItemId, nat>) returns (bumped: nat)
      modifies this
      ensures Swept(old(table), old(nextVersion), table, nextVersion, c)
      ensures bumped == |ChangedRows(old(table), c)|
    {
      var todo := ChangedRows(table, c);
      bumped := |todo|;
      ghost var all, done := todo, {};
      ghost var t0, lo := table, nextVersion;
      assert all <= c.Keys;
      ProgressStart(table, nextVersion, c);
      while todo != {}
        invariant todo <= all && done == all - todo
        invariant Progress(t0, lo, table, nextVersion, c, done)
        decreases todo
      {
        var item :| item in todo;
        Upsert(item, c, t0, lo, done);
        todo := todo - {item};
        done := done + {item};
      }
      ProgressDone(t0, lo, table, nextVersion, c, done);
    }

    /** INSERT ... ON CONFLICT DO UPDATE; the conflict branch draws a second version. */
    method Upsert(item: ItemId, c: map<ItemId, nat>, ghost t0: Table, ghost lo: int, ghost done: set<ItemId>)
      requires Progress(t0, lo, table, nextVersion, c, done) && item in c && item !in done
      modifies this
      ensures Progress(t0, lo, table, nextVersion, c, done + {item})
    {
      ghost var t, hi := table, nextVersion;
      var last := 0;
      if item in table {
        last := table[item].last;
        nextVersion := nextVersion + 1;
      }
      table := table[item := Avail(c[item], nextVersion, last, 0, false)];
      nextVersion := nextVersion + 1;
      ProgressStep(t0, lo, t, hi, table, nextVersion, c, done, item);
    }
  }

  // ----- Agreement -----

  /** Every in-scope active item holds its true sellable number. */
  ghost predicate Agrees(t: Table, w: World, s: Scope) {
    forall item | Wanted(w, s, None, item) :: item in t && t[item].qty == Sellable(w, s, item)
  }

  lemma FullSweepAgrees(t: Table, lo: int, t': Table, hi: int, w: World, s: Scope)
    requires Swept(t, lo, t', hi, Computed(w, s, None))
    ensures Agrees(t', w, s)
  {
    ComputedIsSellable(w, s, None);
    var c := Computed(w, s, None);
    forall item | Wanted(w, s, None, item) ensures item in t' && t'[item].qty == Sellable(w, s, item) {
      if !Changed(t, c, item) { assert Same(t, t', item); }
    }
  }

  /** A sweep of a table that agrees touches no row. */
  lemma SecondSweepIsQuiet(t: Table, lo: int, t': Table, hi: int, w: World, s: Scope, targets: Option<set<ItemId>>)
    requires Agrees(t, w, s) && Swept(t, lo, t', hi, Computed(w, s, targets))
    ensures t' == t
    ensures forall item :: !Changed(t, Computed(w, s, targets), item)
  {
    ComputedIsSellable(w, s, targets);
    var c := Computed(w, s, targets);
    forall item ensures !Changed(t, c, item) {
      if item in c { assert Wanted(w, s, None, item); }
    }
    forall item ensures (item in t' <==> item in t) && (item in t ==> t'[item] == t[item]) { assert Same(t, t', item); }
    assert t'.Keys == t.Keys;
  }

  function Numbers(t: Table): map<ItemId, int> {
    map item | item in t :: t[item].qty
  }

  /** After any sweep a row's number is the computed one, or what it was. */
  lemma SweptNumber(t: Table, lo: int, t': Table, hi: int, c: map<ItemId, nat>, item: ItemId)
    requires Swept(t, lo, t', hi, c)
    ensures item in t' <==> item in t || item in c
    ensures item in t' ==> t'[item].qty == if item in c then c[item] else t[item].qty
  {
    if !Changed(t, c, item) { assert Same(t, t', item); }
  }

  /** The item already holds its true number, or need not. */
  predicate Right(t: Table, w: World, s: Scope, item: ItemId) {
    Wanted(w, s, None, item) ==> item in t && t[item].qty == Sellable(w, s, item)
  }

  /** Full and targeted sweep differ on one item only if it is untargeted and was not already right. */
  lemma SweepsAgreeAt(t: Table, lo: int, full: Table, hi: int, part: Table, hi': int, w: World, s: Scope,
        targets: set<ItemId>, item: ItemId)
    requires Swept(t, lo, full, hi, Computed(w, s, None)) && Swept(t, lo, part, hi', Computed(w, s, Some(targets)))
    ensures ((item in part <==> item in full) && (item in part ==> part[item].qty == full[item].qty))
            <==> (item in targets || Right(t, w, s, item))
  {
    var c, d := Computed(w, s, None), Computed(w, s, Some(targets));
    ComputedIsSellable(w, s, None);
    ComputedIsSellable(w, s, Some(targets));
    SweptNumber(t, lo, full, hi, c, item);
    SweptNumber(t, lo, part, hi', d, item);
    assert item in c <==> Wanted(w, s, None, item);
    assert item in d <==> Wanted(w, s, None, item) && item in targets;
  }

  /** The targeted fast path equals a full sweep exactly when every untargeted item was already right. */
  lemma TargetedEqualsFullIff(t: Table, lo: int, full: Table, hi: int, part: Table, hi': int, w: World, s: Scope,
        targets: set<ItemId>)
    requires Swept(t, lo, full, hi, Computed(w, s, None)) && Swept(t, lo, part, hi', Computed(w, s, Some(targets)))
    ensures Numbers(part) == Numbers(full) <==> forall item | item !in targets :: Right(t, w, s, item)
  {
    if Numbers(part) == Numbers(full) {
      forall item | item !in targets ensures Right(t, w, s, item) {
        SweepsAgreeAt(t, lo, full, hi, part, hi', w, s, targets, item);
        assert item in Numbers(part) <==> item in Numbers(full);
        assert item in Numbers(part) ==> Numbers(part)[item] == Numbers(full)[item];
      }
    }
    if forall item | item !in targets :: Right(t, w, s, item) {
      forall item ensures (item in part <==> item in full) && (item in part ==> part[item].qty == full[item].qty) {
        SweepsAgreeAt(t, lo, full, hi, part, hi', w, s, targets, item);
      }
      assert Numbers(part).Keys == Numbers(full).Keys;
    }
  }

  function RowsOf(rows: seq<Stock>, item: ItemId): seq<Stock> {
    if rows == [] then []
    else RowsOf(rows[..|rows| - 1], item) + if rows[|rows| - 1].item == item then [rows[|rows| - 1]] else []
  }

  /** Nothing about the item differs between two states of the warehouse. */
  predicate Untouched(w: World, w': World, item: ItemId) {
    && w.bins == w'.bins
    && (item in w.items <==> item in w'.items) && (item in w.items ==> w.items[item] == w'.items[item])
    && RowsOf(w.inventory, item) == RowsOf(w'.inventory, item)
  }

  lemma {:induction false} SumOfOwnRows(w: World, s: Scope, rows: seq<Stock>, item: ItemId)
    ensures SumFor(w, s, rows, item) == SumFor(w, s, RowsOf(rows, item), item)
  {
    if rows != [] {
      var rest, r := rows[..|rows| - 1], rows[|rows| - 1];
      SumOfOwnRows(w, s, rest, item);
      if r.item == item {
        var own := RowsOf(rest, item);
        assert (own + [r])[..|own|] == own;
      } else {
        assert RowsOf(rows, item) == RowsOf(rest, item);
      }
    }
  }

  lemma {:induction false} SumSameBins(w: World, w': World, s: Scope, rows: seq<Stock>, item: ItemId)
    requires w.bins == w'.bins
    ensures SumFor(w, s, rows, item) == SumFor(w', s, rows, item)
  {
    if rows != [] { SumSameBins(w, w', s, rows[..|rows| - 1], item); }
  }

  /** The fast path is enough: if the table agreed before and only the targets changed since, a targeted sweep
      leaves the same numbers as a full one, and they agree with inventory again. */
  lemma TargetedSweepSuffices(t: Table, lo: int, full: Table, hi: int, part: Table, hi': int,
                              w: World, w': World, s: Scope, targets: set<ItemId>)
    requires Agrees(t, w, s) && forall item | item !in targets :: Untouched(w, w', item)
    requires Swept(t, lo, full, hi, Computed(w', s, None)) && Swept(t, lo, part, hi', Computed(w', s, Some(targets)))
    ensures Numbers(part) == Numbers(full) && Agrees(part, w', s)
  {
    forall item | item !in targets ensures Right(t, w', s, item) {
      assert Untouched(w, w', item);
      assert Wanted(w, s, None, item) <==> Wanted(w', s, None, item);
      SumOfOwnRows(w, s, w.inventory, item);
      SumOfOwnRows(w', s, w'.inventory, item);
      SumSameBins(w, w', s, RowsOf(w.inventory, item), item);
    }
    TargetedEqualsFullIff(t, lo, full, hi, part, hi', w', s, targets);
    FullSweepAgrees(t, lo, full, hi, w', s);
    forall item | Wanted(w', s, None, item) ensures item in part && part[item].qty == Sellable(w', s, item) {
      assert item in Numbers(full) && item in Numbers(part) && Numbers(part)[item] == Numbers(full)[item];
    }
  }
}
