/**
 Preferred bins: an item's home pick locations, ranked by integer priorities.
 Setting a bin as primary bumps every priority of the item and writes 1 on the chosen
 row; the table is shown to be a move-to-front list.
 */
module PreferredBins {
  import opened Prelude

  type Item = nat
  type Bin = nat

  datatype BinType = Pickable | PickableStaging | Staging

  datatype BinRow = BinRow(binType: BinType, warehouse: nat)

  /** Key of `preferred_bins`, UNIQUE (item_id, bin_id). */
  datatype Pref = Pref(item: Item, bin: Bin)

  type Table = map<Pref, int>

  // ----- The statements of the handler -----

  function Bump(t: Table, item: Item): Table {
    map p | p in t :: if p.item == item then t[p] + 1 else t[p]
  }

  function SetPrimary(t: Table, item: Item, bin: Bin): Table {
    Bump(t, item)[Pref(item, bin) := 1]
  }

  /** UNIQUE (item_id, priority), deferred to commit. */
  predicate Distinct(t: Table) {
    forall p, q | p in t && q in t && p != q && p.item == q.item :: t[p] != t[q]
  }

  predicate Positive(t: Table) {
    forall p | p in t :: t[p] >= 1
  }

  // ----- The list a table stands for -----

  function Bins(t: Table, item: Item): set<Bin> {
    set p | p in t && p.item == item :: p.bin
  }

  /** `l` lists exactly the item's bins, best first. */
  ghost predicate Ranks(t: Table, item: Item, l: seq<Bin>) {
    (forall b :: b in l <==> Pref(item, b) in t) && Increasing(t, item, l)
  }

  function Without(l: seq<Bin>, b: Bin): (r: seq<Bin>)
    ensures forall x :: x in r <==> x in l && x != b
  {
    if l == [] then [] else (if l[0] == b then [] else [l[0]]) + Without(l[1..], b)
  }

  function MoveToFront(l: seq<Bin>, b: Bin): seq<Bin> {
    [b] + Without(l, b)
  }

  function Rank(t: Table, item: Item, b: Bin): int {
    if Pref(item, b) in t then t[Pref(item, b)] else 0
  }

  predicate Increasing(t: Table, item: Item, l: seq<Bin>) {
    forall i, j | 0 <= i < j < |l| :: Rank(t, item, l[i]) < Rank(t, item, l[j])
  }

  /** Dropping one bin keeps the others in order. */
  lemma {:induction false} WithoutSorted(t: Table, item: Item, l: seq<Bin>, b: Bin)
    requires Increasing(t, item, l)
    ensures Increasing(t, item, Without(l, b))
  {
    if l != [] {
      var rest := Without(l[1..], b);
      WithoutSorted(t, item, l[1..], b);
      forall k | 0 <= k < |rest| ensures Rank(t, item, l[0]) < Rank(t, item, rest[k]) {
        assert rest[k] in rest && rest[k] in l[1..];
        var x :| 0 <= x < |l[1..]| && l[1..][x] == rest[k];
        assert l[x + 1] == rest[k];
      }
      assert Without(l, b) == (if l[0] == b then rest else [l[0]] + rest);
    }
  }

  /** One call is one move to front. */
  lemma SetPrimaryMovesToFront(t: Table, item: Item, bin: Bin, l: seq<Bin>)
    requires Positive(t) && Ranks(t, item, l)
    ensures Ranks(SetPrimary(t, item, bin), item, MoveToFront(l, bin))
  {
    var t', m, rest := SetPrimary(t, item, bin), MoveToFront(l, bin), Without(l, bin);
    WithoutSorted(t, item, l, bin);
    forall k | 0 <= k < |rest| ensures Rank(t', item, rest[k]) == Rank(t, item, rest[k]) + 1 > 1 {
      assert rest[k] in rest;
    }
    forall i, j | 0 <= i < j < |m| ensures Rank(t', item, m[i]) < Rank(t', item, m[j]) {
      assert m[j] == rest[j - 1];
      if i > 0 { assert m[i] == rest[i - 1]; }
    }
  }

  /** ... and leaves every other item's list alone. */
  lemma SetPrimaryFrame(t: Table, item: Item, bin: Bin, other: Item, l: seq<Bin>)
    requires other != item && Ranks(t, other, l)
    ensures Ranks(SetPrimary(t, item, bin), other, l)
  {}

  predicate ValidTable(t: Table) {
    Positive(t) && Distinct(t)
  }

  lemma SetPrimaryKeepsValid(t: Table, item: Item, bin: Bin)
    requires ValidTable(t)
    ensures ValidTable(SetPrimary(t, item, bin))
    ensures forall b | Pref(item, b) in t && b != bin :: SetPrimary(t, item, bin)[Pref(item, b)] > 1
  {}

  /** The commit-time uniqueness check passes exactly when no other bin of the item sits at priority 0. */
  lemma ConstraintHoldsIff(t: Table, item: Item, bin: Bin)
    requires Distinct(t)
    ensures Distinct(SetPrimary(t, item, bin)) <==>
            forall b | b != bin && Pref(item, b) in t :: t[Pref(item, b)] != 0
  {
    var t' := SetPrimary(t, item, bin);
    if Distinct(t') {
      forall b | b != bin && Pref(item, b) in t ensures t[Pref(item, b)] != 0 {
        assert t'[Pref(item, b)] != t'[Pref(item, bin)];
      }
    }
  }

  // ----- A valid table has one list -----

  lemma LowestBin(t: Table, item: Item, bs: set<Bin>) returns (b: Bin)
    requires bs != {} && forall x | x in bs :: Pref(item, x) in t
    ensures b in bs && forall x | x in bs :: t[Pref(item, b)] <= t[Pref(item, x)]
    decreases bs
  {
    b :| b in bs;
    var rest := bs - {b};
    assert bs == rest + {b};
    if rest != {} {
      var c := LowestBin(t, item, rest);
      if t[Pref(item, c)] < t[Pref(item, b)] { b := c; }
    }
  }

  lemma {:induction false} ListFrom(t: Table, item: Item, bs: set<Bin>) returns (l: seq<Bin>)
    requires Distinct(t) && forall x | x in bs :: Pref(item, x) in t
    ensures (forall b :: b in l <==> b in bs) && Increasing(t, item, l)
    decreases bs
  {
    if bs == {} {
      l := [];
    } else {
      var b := LowestBin(t, item, bs);
      var rest := ListFrom(t, item, bs - {b});
      l := [b] + rest;
      forall k | 0 <= k < |rest| ensures Rank(t, item, b) < Rank(t, item, rest[k]) {
        assert rest[k] in rest && Pref(item, rest[k]) != Pref(item, b);
      }
    }
  }

  lemma RankingExists(t: Table, item: Item) returns (l: seq<Bin>)
    requires Distinct(t)
    ensures Ranks(t, item, l)
  {
    var bs := Bins(t, item);
    assert forall b :: Pref(item, b) in t ==> Pref(item, b).bin in bs;
    l := ListFrom(t, item, bs);
  }

  lemma {:induction false} RankingUnique(t: Table, item: Item, k: seq<Bin>, l: seq<Bin>)
    requires forall b :: b in k <==> b in l
    requires Increasing(t, item, k) && Increasing(t, item, l)
    ensures k == l
  {
    assert k != [] ==> k[0] in k;
    assert l != [] ==> l[0] in l;
    if k != [] && l != [] {
      var i :| 0 <= i < |l| && l[i] == k[0];
      var j :| 0 <= j < |k| && k[j] == l[0];
      assert k[0] == l[0];
      SameTail(t, item, k, l);
      SameTail(t, item, l, k);
      RankingUnique(t, item, k[1..], l[1..]);
    }
  }

  lemma SameTail(t: Table, item: Item, k: seq<Bin>, l: seq<Bin>)
    requires k != [] && l != [] && k[0] == l[0] && Increasing(t, item, k)
    requires forall b :: b in k ==> b in l
    ensures forall b :: b in k[1..] ==> b in l[1..]
  {
    forall b | b in k[1..] ensures b in l[1..] {
      var x :| 0 <= x < |k[1..]| && k[1..][x] == b;
      assert k[x + 1] == b && b in k;
      var y :| 0 <= y < |l| && l[y] == b;
      assert y != 0 && l[1..][y - 1] == b;
    }
  }

  // ----- Runs -----

  datatype Call = Call(item: Item, bin: Bin)

  function RunCalls(t: Table, calls: seq<Call>): Table {
    if calls == [] then t
    else SetPrimary(RunCalls(t, calls[..|calls| - 1]), calls[|calls| - 1].item, calls[|calls| - 1].bin)
  }

  function RunList(l: seq<Bin>, calls: seq<Call>, item: Item): seq<Bin> {
    if calls == [] then l
    else
      var rest, c := RunList(l, calls[..|calls| - 1], item), calls[|calls| - 1];
      if c.item == item then MoveToFront(rest, c.bin) else rest
  }

  lemma {:induction false} RunRanks(t: Table, calls: seq<Call>, item: Item, l: seq<Bin>)
    requires ValidTable(t) && Ranks(t, item, l)
    ensures ValidTable(RunCalls(t, calls)) && Ranks(RunCalls(t, calls), item, RunList(l, calls, item))
  {
    if calls != [] {
      var c, rest := calls[|calls| - 1], calls[..|calls| - 1];
      RunRanks(t, rest, item, l);
      SetPrimaryKeepsValid(RunCalls(t, rest), c.item, c.bin);
      if c.item == item {
        SetPrimaryMovesToFront(RunCalls(t, rest), item, c.bin, RunList(l, rest, item));
      } else {
        SetPrimaryFrame(RunCalls(t, rest), c.item, c.bin, item, RunList(l, rest, item));
      }
    }
  }

  /** Any table with positive, distinct priorities stands for exactly one list of bins per item, and any sequence
      of calls leaves a table that stands for the moved-to-front list and no other. */
  lemma TableIsMoveToFrontList(t: Table, calls: seq<Call>, item: Item) returns (l: seq<Bin>)
    requires ValidTable(t)
    ensures ValidTable(RunCalls(t, calls))
    ensures forall k :: Ranks(t, item, k) <==> k == l
    ensures forall k :: Ranks(RunCalls(t, calls), item, k) <==> k == RunList(l, calls, item)
  {
    l := RankingExists(t, item);
    RunRanks(t, calls, item, l);
    forall k ensures Ranks(t, item, k) <==> k == l {
      if Ranks(t, item, k) { RankingUnique(t, item, k, l); }
    }
    forall k ensures Ranks(RunCalls(t, calls), item, k) <==> k == RunList(l, calls, item) {
      if Ranks(RunCalls(t, calls), item, k) { RankingUnique(RunCalls(t, calls), item, k, RunList(l, calls, item)); }
    }
  }

  // ----- The handler -----

  datatype Answer = Ok | ItemNotFound | BinNotFound | NotPickable | Forbidden | ConstraintViolated

  class Store {
    var prefs: Table
    var defaultBin: map<Item, Bin>    // items.default_bin_id; an item without one is absent
    const items: set<Item>
    const bins: map<Bin, BinRow>

    constructor (items: set<Item>, bins: map<Bin, BinRow>, prefs: Table, defaultBin: map<Item, Bin>)
      ensures this.items == items && this.bins == bins && this.prefs == prefs && this.defaultBin == defaultBin
    {
      this.items, this.bins, this.prefs, this.defaultBin := items, bins, prefs, defaultBin;
    }

    predicate OnlyPickable()
      reads this
    {
      forall p | p in prefs :: p.bin in bins && bins[p.bin].binType == Pickable
    }

    /** `update_preferred`.  An error, or a constraint violation at commit, leaves both tables alone. */
    method UpdatePreferred(item: Item, bin: Bin, setAsPrimary: bool, scope: set<nat>) returns (a: Answer)
      modifies this
      ensures a == Ok && setAsPrimary ==>
                && prefs == SetPrimary(old(prefs), item, bin) && defaultBin == old(defaultBin)[item := bin]
                && prefs[Pref(item, bin)] == 1
      ensures a != Ok || !setAsPrimary ==> prefs == old(prefs) && defaultBin == old(defaultBin)
      ensures old(OnlyPickable()) ==> OnlyPickable()
      ensures ValidTable(old(prefs)) ==> ValidTable(prefs) && a != ConstraintViolated
      ensures a == ItemNotFound <==> item !in items
      ensures a == BinNotFound <==> item in items && bin !in bins
      ensures item in items && bin in bins ==>
                && (a == NotPickable <==> bins[bin].binType != Pickable)
                && (a == Forbidden <==> bins[bin].binType == Pickable && bins[bin].warehouse !in scope)
                && (a == ConstraintViolated <==>
                      bins[bin].binType == Pickable && bins[bin].warehouse in scope && setAsPrimary
                          && !Distinct(SetPrimary(old(prefs), item, bin)))
    {
      if item !in items { return ItemNotFound; }
      if bin !in bins { return BinNotFound; }
      if bins[bin].binType != Pickable { return NotPickable; }
      if bins[bin].warehouse !in scope { return Forbidden; }
      if setAsPrimary {
        var bumped := map p | p in prefs :: if p.item == item then prefs[p] + 1 else prefs[p];
        var renumbered := bumped[Pref(item, bin) := 1];   // update the row, or insert it
        if Distinct(prefs) { ConstraintHoldsIff(prefs, item, bin); }
        if !Distinct(renumbered) {
          return ConstraintViolated;
        }
        prefs := renumbered;
        defaultBin := defaultBin[item := bin];
      }
      a := Ok;
    }
  }
}
