/**
 The server half of the SiteGiant SKU sync: pages upsert rows, and the last page of a
 run deactivates what the run did not mention.
 */
module SkuCatalog {
  import opened Prelude

  type Sku = string      // normalised, as in sku_normalized
  type RunId = nat

  datatype Source = Manual | SiteGiant

  datatype Row = Row(source: Source, name: string, active: bool, lastRun: Option<RunId>, syncedAt: Option<int>)

  type Catalog = map<Sku, Row>

  datatype Item = Item(sku: Sku, name: string)

  datatype Page = Page(run: RunId, captured: int, number: nat, total: nat, items: seq<Item>)

  function SkuRow(p: Page, i: Item): Row {
    Row(SiteGiant, i.name, true, Some(p.run), Some(p.captured))
  }

  function Upserts(c: Catalog, p: Page, n: nat): Catalog
    requires n <= |p.items|
  {
    if n == 0 then c else Upserts(c, p, n - 1)[p.items[n - 1].sku := SkuRow(p, p.items[n - 1])]
  }

  /** Rows the closing statement switches off. */
  predicate Stale(r: Row, run: RunId, captured: int) {
    r.source == SiteGiant && r.active && r.lastRun != Some(run) && (r.syncedAt.None? || r.syncedAt.value <= captured)
  }

  function Deactivate(c: Catalog, run: RunId, captured: int): Catalog {
    map k | k in c :: if Stale(c[k], run, captured) then c[k].(active := false) else c[k]
  }

  predicate Closes(p: Page) {
    p.number == p.total
  }

  function Accept(c: Catalog, p: Page): Catalog {
    var u := Upserts(c, p, |p.items|);
    if Closes(p) then Deactivate(u, p.run, p.captured) else u
  }

  function AcceptAll(c: Catalog, ps: seq<Page>): Catalog {
    if ps == [] then c else Accept(AcceptAll(c, ps[..|ps| - 1]), ps[|ps| - 1])
  }

  datatype Reply = Forbidden | Synced(completed: bool, accepted: nat, deactivated: nat)

  class Server {
    var catalog: Catalog

    constructor (catalog: Catalog)
      ensures this.catalog == catalog
    {
      this.catalog := catalog;
    }

    /** `sync_sitegiant_skus` for one warehouse. */
    method Sync(p: Page, inScope: bool) returns (r: Reply)
      modifies this
      ensures !inScope ==> r == Forbidden && catalog == old(catalog)
      ensures inScope ==> catalog == Accept(old(catalog), p)
      ensures inScope ==> r.Synced? && r.completed == Closes(p) && r.accepted == |p.items|
      ensures r.Synced? && !r.completed ==> r.deactivated == 0
      ensures r.Synced? && r.completed ==>
                var u := Upserts(old(catalog), p, |p.items|);
                r.deactivated == |set k | k in u && Stale(u[k], p.run, p.captured)|
    {
      if !inScope { return Forbidden; }
      for n := 0 to |p.items|
        invariant catalog == Upserts(old(catalog), p, n)
      {
        catalog := catalog[p.items[n].sku := SkuRow(p, p.items[n])];
      }
      var deactivated := 0;
      if p.number == p.total {
        deactivated := |set k | k in catalog && Stale(catalog[k], p.run, p.captured)|;
        catalog := map k | k in catalog :: if Stale(catalog[k], p.run, p.captured) then catalog[k].(active := false)
            else catalog[k];
      }
      return Synced(p.number == p.total, |p.items|, deactivated);
    }
  }

  // ----- What a run leaves behind -----

  predicate Mentions(ps: seq<Page>, k: Sku) {
    exists i, j | 0 <= i < |ps| && 0 <= j < |ps[i].items| :: ps[i].items[j].sku == k
  }

  predicate OnPage(p: Page, k: Sku) {
    exists j | 0 <= j < |p.items| :: p.items[j].sku == k
  }

  predicate Listed(c: Catalog, k: Sku) {
    k in c && c[k].source == SiteGiant && c[k].active
  }

  lemma {:induction false} UpsertsAt(c: Catalog, p: Page, n: nat, k: Sku)
    requires n <= |p.items|
    ensures var u := Upserts(c, p, n);
            if exists j | 0 <= j < n :: p.items[j].sku == k
            then k in u && u[k].source == SiteGiant && u[k].active && u[k].lastRun == Some(p.run) && u[k].syncedAt ==
                Some(p.captured)
            else (k in u <==> k in c) && (k in c ==> u[k] == c[k])
  {
    if n > 0 { UpsertsAt(c, p, n - 1, k); }
  }

  /** The effect of one page on one SKU. */
  lemma AcceptAt(c: Catalog, p: Page, k: Sku)
    ensures var a := Accept(c, p);
            if OnPage(p, k) then Listed(a, k) && a[k].lastRun == Some(p.run) && a[k].syncedAt == Some(p.captured)
            else (k in a <==> k in c)
                 && (k in c ==> a[k] == if Closes(p) && Stale(c[k], p.run, p.captured) then c[k].(active := false)
                     else c[k])
  {
    UpsertsAt(c, p, |p.items|, k);
  }

  /** Pages of one run, captured no later than `t`. */
  lemma {:induction false} UpsertsKeepLast(c: Catalog, p: Page, i: nat, n: nat)
    requires i < n <= |p.items| && forall j | i < j < n :: p.items[j].sku != p.items[i].sku
    ensures p.items[i].sku in Upserts(c, p, n) && Upserts(c, p, n)[p.items[i].sku] == SkuRow(p, p.items[i])
  {
    if i < n - 1 { UpsertsKeepLast(c, p, i, n - 1); }
  }

  /** A page leaves each SKU it mentions as an active SiteGiant row of its run and capture time, under the name it
      gave last. */
  lemma AcceptWrites(c: Catalog, p: Page, i: nat)
    requires i < |p.items| && forall j | i < j < |p.items| :: p.items[j].sku != p.items[i].sku
    ensures var a, k := Accept(c, p), p.items[i].sku;
            && k in a && a[k].source == SiteGiant && a[k].active && a[k].name == p.items[i].name
            && a[k].lastRun == Some(p.run) && a[k].syncedAt == Some(p.captured)
  {
    UpsertsKeepLast(c, p, i, |p.items|);
  }

  predicate OfRun(ps: seq<Page>, run: RunId, t: int) {
    forall i | 0 <= i < |ps| :: ps[i].run == run && ps[i].captured <= t
  }

  lemma MentionsSnoc(ps: seq<Page>, k: Sku)
    requires ps != []
    ensures Mentions(ps, k) <==> Mentions(ps[..|ps| - 1], k) || OnPage(ps[|ps| - 1], k)
  {}

  /** Halfway through a run: mentioned rows are on and belong to it; the others are as before, or switched off
      if they were not newer than the run. */
  lemma {:induction false} MidRun(c: Catalog, ps: seq<Page>, run: RunId, t: int, k: Sku)
    requires OfRun(ps, run, t) && forall x | x in c :: c[x].lastRun != Some(run)
    ensures var a := AcceptAll(c, ps);
            if Mentions(ps, k) then Listed(a, k) && a[k].lastRun == Some(run)
            else
              && (k in a <==> k in c)
              && (k in c ==> a[k] == c[k] || (Stale(c[k], run, t) && a[k] == c[k].(active := false)))
  {
    if ps != [] {
      var n := |ps| - 1;
      MidRun(c, ps[..n], run, t, k);
      AcceptAt(AcceptAll(c, ps[..n]), ps[n], k);
      MentionsSnoc(ps, k);
    }
  }

  /** After the closing page, the active SiteGiant rows are exactly the run's SKUs, if and only if no other
      active SiteGiant row is newer than the closing capture; and rows of other kinds that no page mentions
      are untouched. */
  lemma ClosedRunListsItsSkus(c: Catalog, ps: seq<Page>, run: RunId)
    requires ps != [] && OfRun(ps, run, ps[|ps| - 1].captured) && Closes(ps[|ps| - 1])
    requires forall x | x in c :: c[x].lastRun != Some(run)
    ensures var a, t := AcceptAll(c, ps), ps[|ps| - 1].captured;
            && ((forall k :: Listed(a, k) <==> Mentions(ps, k)) <==>
                (forall k | k in c && Listed(c, k) && !Mentions(ps, k) ::
                    c[k].syncedAt.None? || c[k].syncedAt.value <= t))
            && (forall k | k in c && c[k].source == Manual && !Mentions(ps, k) :: k in a && a[k] == c[k])
  {
    var n, a, t := |ps| - 1, AcceptAll(c, ps), ps[|ps| - 1].captured;
    forall k
      ensures Mentions(ps, k) ==> Listed(a, k)
      ensures !Mentions(ps, k) ==>
                && (k in a <==> k in c)
                && (k in c ==> a[k] == if Stale(c[k], run, t) then c[k].(active := false) else c[k])
    {
      MidRun(c, ps, run, t, k);
      MidRun(c, ps[..n], run, t, k);
      AcceptAt(AcceptAll(c, ps[..n]), ps[n], k);
      MentionsSnoc(ps, k);
    }
    if forall k :: Listed(a, k) <==> Mentions(ps, k) {
      forall k | k in c && Listed(c, k) && !Mentions(ps, k) ensures c[k].syncedAt.None? || c[k].syncedAt.value <= t {
        assert !Listed(a, k);
      }
    }
  }
}
