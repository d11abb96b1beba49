/**
 What the published number is, written out row by row: stock that is free in a sellable bin of a warehouse in scope, and
 how the number moves when a row does.
 */
module ChannelNumbers {
  import opened Prelude
  import opened ChannelAvailability

  /** The row lies in a sellable bin of a warehouse in scope; an empty list of warehouses restricts nothing. */
  predicate Counts(w: World, s: Scope, r: Stock) {
    && r.bin in w.bins && (w.bins[r.bin] == Pickable || w.bins[r.bin] == PickableStaging)
    && (s.warehouses == [] || r.warehouse in s.warehouses)
  }

  /** GREATEST(on hand - reserved, 0), of an item's own rows that count. */
  function Free(w: World, s: Scope, r: Stock, item: ItemId): int {
    if r.item == item && Counts(w, s, r) && r.onHand - r.reserved > 0 then r.onHand - r.reserved else 0
  }

  lemma NothingIsZero(w: World, s: Scope, item: ItemId)
    requires w.inventory == []
    ensures Sellable(w, s, item) == 0
  {}

  lemma {:induction false} SumAppend(w: World, s: Scope, rows: seq<Stock>, r: Stock, item: ItemId)
    ensures SumFor(w, s, rows + [r], item) == SumFor(w, s, rows, item) + Free(w, s, r, item)
  {
    assert (rows + [r])[..|rows|] == rows;
  }

  lemma {:induction false} SumIgnoresInventory(w: World, w': World, s: Scope, rows: seq<Stock>, item: ItemId)
    requires w'.bins == w.bins
    ensures SumFor(w', s, rows, item) == SumFor(w, s, rows, item)
  {
    if rows != [] { SumIgnoresInventory(w, w', s, rows[..|rows| - 1], item); }
  }

  /** A new row adds what is free in it. */
  lemma AddingARow(w: World, s: Scope, r: Stock, item: ItemId)
    ensures Sellable(w.(inventory := w.inventory + [r]), s, item) == Sellable(w, s, item) + Free(w, s, r, item)
  {
    var w' := w.(inventory := w.inventory + [r]);
    SumIgnoresInventory(w, w', s, w.inventory, item);
    SumAppend(w', s, w.inventory, r, item);
  }

  lemma {:induction false} SumReplace(w: World, s: Scope, rows: seq<Stock>, k: nat, r: Stock, item: ItemId)
    requires k < |rows|
    ensures SumFor(w, s, rows[k := r], item) ==
        SumFor(w, s, rows, item) + Free(w, s, r, item) - Free(w, s, rows[k], item)
  {
    var n := |rows| - 1;
    var rest := rows[..n];
    assert rows == rest + [rows[n]];
    SumAppend(w, s, rest, rows[n], item);
    if k == n {
      assert rows[k := r] == rest + [r];
      SumAppend(w, s, rest, r, item);
    } else {
      SumReplace(w, s, rest, k, r, item);
      assert rows[k := r] == rest[k := r] + [rows[n]];
      SumAppend(w, s, rest[k := r], rows[n], item);
    }
  }

  function WithRow(w: World, k: nat, r: Stock): World
    requires k < |w.inventory|
  {
    w.(inventory := w.inventory[k := r])
  }

  /** Replacing a row moves the number by the difference of what is free in it. */
  lemma ReplacingARow(w: World, s: Scope, k: nat, r: Stock, item: ItemId)
    requires k < |w.inventory|
    ensures Sellable(WithRow(w, k, r), s, item) ==
            Sellable(w, s, item) + Free(w, s, r, item) - Free(w, s, w.inventory[k], item)
  {
    SumIgnoresInventory(w, WithRow(w, k, r), s, w.inventory[k := r], item);
    SumReplace(w, s, w.inventory, k, r, item);
  }

  /** The items a channel publishes: active, and of a SKU or a category of its scope, if it names any. */
  predicate Published(w: World, s: Scope, item: ItemId) {
    && item in w.items && w.items[item].active
    && ((s.skus == [] && s.categories == []) || w.items[item].sku in s.skus || w.items[item].category in s.categories)
  }

  /** A full sweep leaves every published item at its number and does not touch the rows of others. */
  lemma FullSweepWrites(t: Table, lo: int, t': Table, hi: int, w: World, s: Scope, item: ItemId)
    requires Swept(t, lo, t', hi, Computed(w, s, None))
    ensures Published(w, s, item) ==> item in t' && t'[item].qty == Sellable(w, s, item)
    ensures !Published(w, s, item) ==> (item in t' <==> item in t) && (item in t ==> t'[item] == t[item])
  {
    FullSweepAgrees(t, lo, t', hi, w, s);
    ComputedIsSellable(w, s, None);
    if !Published(w, s, item) { assert Same(t, t', item); }
  }

  /** Reserving `n` free units of a row that counts lowers the number the next full sweep writes by `n`. */
  lemma ReservingLowersTheNumber(t: Table, lo: int, t1: Table, mid: int, t2: Table, hi: int, w: World, s: Scope,
        k: nat, n: nat)
    requires k < |w.inventory| && Counts(w, s, w.inventory[k]) && Published(w, s, w.inventory[k].item)
    requires n <= w.inventory[k].onHand - w.inventory[k].reserved
    requires Swept(t, lo, t1, mid, Computed(w, s, None))
    requires var r :=
        w.inventory[k]; Swept(t1, mid, t2, hi, Computed(WithRow(w, k, r.(reserved := r.reserved + n)), s, None))
    ensures var item := w.inventory[k].item;
            item in t1 && item in t2 && t2[item].qty == t1[item].qty - n
  {
    var r := w.inventory[k];
    var w' := WithRow(w, k, r.(reserved := r.reserved + n));
    FullSweepWrites(t, lo, t1, mid, w, s, r.item);
    FullSweepWrites(t1, mid, t2, hi, w', s, r.item);
    ReplacingARow(w, s, k, r.(reserved := r.reserved + n), r.item);
  }
}
