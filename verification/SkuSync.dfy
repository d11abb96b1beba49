/**
 The whole SKU sync: the browser extension opens a tab on page 1 of a new run, the page
 reports its rows, the extension uploads them and, on success, sends the tab to the next
 page.  Handlers are asynchronous, so every wait is a point where anything else may happen:
 reloads, a second run, timeouts, lost uploads.
 */
module SkuSync {
  import opened Prelude
  import opened SkuCatalog

  type TabId = nat

  datatype Location = Location(run: RunId, page: nat)

  /** A page message and the tab it came from. */
  datatype Message = Message(page: Page, tab: TabId)

  datatype State = State(
    catalog: Catalog,
    accepted: seq<Page>,            // every page the server committed, in order
    tabs: map<TabId, Location>,     // open sync tabs
    currentRun: Option<RunId>,      // skuSyncRunId
    pendingTab: Option<TabId>,      // pendingSkuTabId
    usedRuns: set<RunId>,
    inbox: set<Message>,            // sent by the page, not yet handled
    uploading: set<Message>,        // fetch in progress
    replied: set<Message>)          // the server answered 200; the handler has not resumed

  datatype Step =
    | Start(run: RunId, tab: TabId)
    | Capture(tab: TabId, captured: int, total: nat, items: seq<Item>)
    | Handle(m: Message)
    | ServerCommit(m: Message)
    | Resume(m: Message)
    | UploadFails(m: Message)      // the request never reached the server
    | ReplyLost(m: Message)        // it did, but the handler sees an error
    | TimeoutAlarm
    | CloseTab(tab: TabId)

  predicate Enabled(s: State, e: Step) {
    match e
    // crypto.randomUUID() never repeats
    case Start(run, tab) => run !in s.usedRuns && tab !in s.tabs && (s.pendingTab.Some? ==> s.pendingTab.value != tab)
    // a page beyond the last holds no rows and is never reported; the server's schema refuses it too
    case Capture(tab, _, total, items) => tab in s.tabs && s.tabs[tab].page <= total && items != []
    case Handle(m) => m in s.inbox
    case ServerCommit(m) => m in s.uploading
    case Resume(m) => m in s.replied
    case UploadFails(m) => m in s.uploading
    case ReplyLost(m) => m in s.replied
    case TimeoutAlarm => true
    case CloseTab(tab) => tab in s.tabs
  }

  function ClosePending(s: State): State {
    if s.pendingTab.None? then s else s.(tabs := s.tabs - {s.pendingTab.value}, pendingTab := None)
  }

  function Take(s: State, e: Step): State
    requires Enabled(s, e)
  {
    match e
    case Start(run, tab) =>
      var s1 := ClosePending(s);
      s1.(tabs := s1.tabs[tab := Location(run, 1)], pendingTab := Some(tab), currentRun := Some(run), usedRuns :=
          s.usedRuns + {run})
    case Capture(tab, captured, total, items) =>
      var at := s.tabs[tab];
      s.(inbox := s.inbox + {Message(Page(at.run, captured, at.page, total, items), tab)})
    case Handle(m) =>
      var s1 := s.(inbox := s.inbox - {m});
      if s.currentRun != Some(m.page.run) then s1            // ignored
      else s1.(uploading := s.uploading + {m})
    case ServerCommit(m) =>
      s.(catalog := Accept(s.catalog, m.page), accepted := s.accepted + [m.page],
         uploading := s.uploading - {m}, replied := s.replied + {m})
    case Resume(m) =>
      var s1 := s.(replied := s.replied - {m});
      if Closes(m.page) then (if s.pendingTab == Some(m.tab) then ClosePending(s1) else s1)
      else if m.tab in s.tabs then s1.(tabs := s.tabs[m.tab := Location(m.page.run, m.page.number + 1)])
      else ClosePending(s1)                                  // tabs.update throws; the error handler closes up
    case UploadFails(m) => ClosePending(s.(uploading := s.uploading - {m}))
    case ReplyLost(m) => ClosePending(s.(replied := s.replied - {m}))
    case TimeoutAlarm => ClosePending(s)
    case CloseTab(tab) => s.(tabs := s.tabs - {tab})
  }

  predicate Init(s: State) {
    && s.accepted == [] && s.tabs == map[] && s.inbox == {} && s.uploading == {} && s.replied == {}
    && (forall k | k in s.catalog :: s.catalog[k].lastRun.Some? ==> s.catalog[k].lastRun.value in s.usedRuns)
  }

  // ----- Invariant -----

  predicate HasPage(ps: seq<Page>, run: RunId, number: nat) {
    exists i | 0 <= i < |ps| :: ps[i].run == run && ps[i].number == number
  }

  /** Pages 1 .. n of the run have been committed. */
  predicate HasPages(ps: seq<Page>, run: RunId, n: int) {
    forall q: nat | 1 <= q <= n :: HasPage(ps, run, q)
  }

  predicate MessageOk(s: State, m: Message) {
    m.page.number >= 1 && m.page.number <= m.page.total && m.page.run in s.usedRuns
    && HasPages(s.accepted, m.page.run, m.page.number - 1)
  }

  predicate AcceptedOk(ps: seq<Page>, used: set<RunId>) {
    forall i | 0 <= i < |ps| :: ps[i].run in used && ps[i].number >= 1 && HasPages(ps[..i], ps[i].run, ps[i].number - 1)
  }

  predicate TabsOk(s: State) {
    forall t | t in s.tabs ::
      s.tabs[t].page >= 1 && s.tabs[t].run in s.usedRuns && HasPages(s.accepted, s.tabs[t].run, s.tabs[t].page - 1)
  }

  predicate MessagesOk(s: State) {
    && (forall m | m in s.inbox + s.uploading + s.replied :: MessageOk(s, m))
    && (forall m | m in s.replied :: HasPage(s.accepted, m.page.run, m.page.number))
  }

  predicate Inv(s: State, c0: Catalog) {
    s.catalog == AcceptAll(c0, s.accepted) && AcceptedOk(s.accepted, s.usedRuns) && TabsOk(s) && MessagesOk(s)
  }

  lemma HasPagesGrows(ps: seq<Page>, p: Page, run: RunId, n: int)
    requires HasPages(ps, run, n)
    ensures HasPages(ps + [p], run, n)
  {
    forall q: nat | 1 <= q <= n ensures HasPage(ps + [p], run, q) {
      assert HasPage(ps, run, q);
      var i :| 0 <= i < |ps| && ps[i].run == run && ps[i].number == q;
      assert (ps + [p])[i] == ps[i];
    }
  }

  lemma CommitKeepsInv(s: State, c0: Catalog, m: Message)
    requires Inv(s, c0) && m in s.uploading
    ensures Inv(Take(s, ServerCommit(m)), c0)
  {
    var s', ps := Take(s, ServerCommit(m)), s.accepted + [m.page];
    assert ps[..|s.accepted|] == s.accepted;
    assert MessageOk(s, m);
    forall i | 0 <= i < |ps| ensures HasPages(ps[..i], ps[i].run, ps[i].number - 1) {
      if i < |s.accepted| { assert ps[..i] == s.accepted[..i]; }
    }
    forall t | t in s'.tabs ensures HasPages(ps, s'.tabs[t].run, s'.tabs[t].page - 1) {
      HasPagesGrows(s.accepted, m.page, s.tabs[t].run, s.tabs[t].page - 1);
    }
    forall x | x in s'.inbox + s'.uploading + s'.replied ensures MessageOk(s', x) {
      assert MessageOk(s, x);
      HasPagesGrows(s.accepted, m.page, x.page.run, x.page.number - 1);
    }
    forall x | x in s'.replied ensures HasPage(ps, x.page.run, x.page.number) {
      if x == m {
        assert ps[|s.accepted|] == m.page;
      } else {
        var i :| 0 <= i < |s.accepted| && s.accepted[i].run == x.page.run && s.accepted[i].number == x.page.number;
        assert ps[i] == s.accepted[i];
      }
    }
  }

  lemma StepKeepsTabs(s: State, e: Step)
    requires TabsOk(s) && MessagesOk(s) && Enabled(s, e) && !e.ServerCommit?
    ensures TabsOk(Take(s, e))
  {
    var s' := Take(s, e);
    if e.Resume? {
      assert MessageOk(s, e.m) && HasPage(s.accepted, e.m.page.run, e.m.page.number);
      assert HasPages(s.accepted, e.m.page.run, e.m.page.number);
    }
    forall t | t in s'.tabs
      ensures s'.tabs[t].page >= 1 && s'.tabs[t].run in s'.usedRuns
          && HasPages(s'.accepted, s'.tabs[t].run, s'.tabs[t].page - 1)
    {
      if t in s.tabs && s'.tabs[t] == s.tabs[t] { assert s.tabs[t].page >= 1; }
    }
  }

  lemma StepKeepsMessages(s: State, e: Step)
    requires TabsOk(s) && MessagesOk(s) && Enabled(s, e) && !e.ServerCommit?
    ensures MessagesOk(Take(s, e))
  {
    var s' := Take(s, e);
    forall x | x in s'.inbox + s'.uploading + s'.replied ensures MessageOk(s', x) {
      if x in s.inbox + s.uploading + s.replied { assert MessageOk(s, x); }
    }
  }

  lemma StepKeepsInv(s: State, c0: Catalog, e: Step)
    requires Inv(s, c0) && Enabled(s, e)
    ensures Inv(Take(s, e), c0)
  {
    if e.ServerCommit? {
      CommitKeepsInv(s, c0, e.m);
    } else {
      StepKeepsTabs(s, e);
      StepKeepsMessages(s, e);
    }
  }

  predicate Legal(s: State, steps: seq<Step>)
    decreases |steps|
  {
    steps == [] || (Enabled(s, steps[0]) && Legal(Take(s, steps[0]), steps[1..]))
  }

  function Run(s: State, steps: seq<Step>): State
    requires Legal(s, steps)
    decreases |steps|
  {
    if steps == [] then s else Run(Take(s, steps[0]), steps[1..])
  }

  lemma {:induction false} RunKeepsInv(s: State, c0: Catalog, steps: seq<Step>)
    requires Inv(s, c0) && Legal(s, steps)
    ensures Inv(Run(s, steps), c0) && s.usedRuns <= Run(s, steps).usedRuns
    decreases |steps|
  {
    if steps != [] {
      StepKeepsInv(s, c0, steps[0]);
      RunKeepsInv(Take(s, steps[0]), c0, steps[1..]);
    }
  }

  /** A run the server reports as completed has delivered every page: none was skipped. */
  lemma CompletedRunIsWhole(s0: State, steps: seq<Step>, i: nat)
    requires Init(s0) && Legal(s0, steps)
    requires i < |Run(s0, steps).accepted| && Closes(Run(s0, steps).accepted[i])
    ensures var ps := Run(s0, steps).accepted; HasPages(ps[..i + 1], ps[i].run, ps[i].total)
  {
    RunKeepsInv(s0, s0.catalog, steps);
    var ps := Run(s0, steps).accepted;
    assert ps[..i + 1] == ps[..i] + [ps[i]];
    HasPagesGrows(ps[..i], ps[i], ps[i].run, ps[i].number - 1);
    assert ps[..i + 1][i] == ps[i];
  }

  predicate NoRowOf(c: Catalog, run: RunId) {
    forall k | k in c :: c[k].lastRun != Some(run)
  }

  /** A run that has committed no page owns no row. */
  lemma {:induction false} RowsComeFromRuns(c: Catalog, ps: seq<Page>, run: RunId)
    requires NoRowOf(c, run) && forall i | 0 <= i < |ps| :: ps[i].run != run
    ensures NoRowOf(AcceptAll(c, ps), run)
  {
    if ps != [] {
      var b, p := AcceptAll(c, ps[..|ps| - 1]), ps[|ps| - 1];
      RowsComeFromRuns(c, ps[..|ps| - 1], run);
      forall k | k in Accept(b, p) ensures Accept(b, p)[k].lastRun != Some(run) {
        AcceptAt(b, p, k);
      }
    }
  }

  lemma {:induction false} AcceptSplit(c: Catalog, a: seq<Page>, b: seq<Page>)
    ensures AcceptAll(c, a + b) == AcceptAll(AcceptAll(c, a), b)
  {
    if b == [] {
      assert a + b == a;
    } else {
      AcceptSplit(c, a, b[..|b| - 1]);
      assert (a + b)[..|a + b| - 1] == a + b[..|b| - 1];
    }
  }

  /** End to end: when a run has completed without another run's page in between, with captures in time order,
      its pages 1 .. N are all there; and the active SiteGiant rows are exactly the SKUs on them if and only if
      the catalog held no other active SiteGiant row captured later. */
  lemma CompletedSyncIsTheCatalog(s0: State, steps: seq<Step>, first: nat)
    requires Init(s0) && Legal(s0, steps) && first < |Run(s0, steps).accepted|
    requires var ps := Run(s0, steps).accepted; var last := ps[|ps| - 1];
             && Closes(last) && last.run !in s0.usedRuns
             && OfRun(ps[first..], last.run, last.captured)
             && (forall i | 0 <= i < first :: ps[i].run != last.run)
    ensures var s := Run(s0, steps);
            var mine, last := s.accepted[first..], s.accepted[|s.accepted| - 1];
            var before := AcceptAll(s0.catalog, s.accepted[..first]);
            && HasPages(mine, last.run, last.total)
            && ((forall k :: Listed(s.catalog, k) <==> Mentions(mine, k)) <==>
                (forall k | k in before && Listed(before, k) && !Mentions(mine, k) ::
                   before[k].syncedAt.None? || before[k].syncedAt.value <= last.captured))
            && (forall k | k in before && before[k].source == Manual && !Mentions(mine, k) ::
                k in s.catalog && s.catalog[k] == before[k])
  {
    RunKeepsInv(s0, s0.catalog, steps);
    var s := Run(s0, steps);
    var ps, n := s.accepted, |s.accepted| - 1;
    var mine, last := ps[first..], ps[n];
    CompletedRunIsWhole(s0, steps, n);
    assert ps[..n + 1] == ps && ps == ps[..first] + mine;
    forall q: nat | 1 <= q <= last.total ensures HasPage(mine, last.run, q) {
      assert HasPage(ps, last.run, q);
      var i :| 0 <= i < |ps| && ps[i].run == last.run && ps[i].number == q;
      assert mine[i - first] == ps[i];
    }
    RowsComeFromRuns(s0.catalog, ps[..first], last.run);
    AcceptSplit(s0.catalog, ps[..first], mine);
    ClosedRunListsItsSkus(AcceptAll(s0.catalog, ps[..first]), mine, last.run);
  }
}
