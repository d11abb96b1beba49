/**
 GET /snapshot/inventory: counting a token's open scans, inserting a pending one, waiting for the keeper to export a
 snapshot, and serving pages of it. Nothing locks between these steps, so requests and the keeper interleave.
 */
module SnapshotPaging {
  import opened Prelude
  import opened Paging

  datatype Stock = Stock(onHand: int, reserved: int, lot: Option<string>)

  datatype Status = Pending | Active | DoneScan | Aborted

  datatype Cursor = Cursor(scan: nat, warehouse: int, item: int, bin: int)

  datatype Scan = Scan(warehouse: int, token: nat, status: Status)

  datatype Reply =
    | Rows(rows: seq<Row<Stock>>, next: Option<Cursor>)
    | ScopeViolation | CursorScopeViolation | SnapshotExpired | InFlight | KeeperUnavailable

  /** ids are serial, so the anchor (0, 0) precedes every row */
  const ANCHOR := Key(0, 0)

  /** A first-page request: it has counted no open scan, when the scans in `present` had been minted; or it waits
      for its own scan to be promoted. */
  datatype Phase = Counted(present: set<nat>) | Waiting(scan: nat) | Answered(reply: Reply)

  datatype Req = Req(token: nat, warehouse: int, limit: nat, phase: Phase)

  /** A page that was served. */
  datatype Served = Served(scan: nat, warehouse: int, at: Key, limit: nat, rows: seq<Row<Stock>>, next: Option<Cursor>)

  /** The rows of each warehouse, ordered by (item_id, bin_id): lots have no place in the key. */
  type Inventory = map<int, seq<Row<Stock>>>

  /** `live` is the inventory now, `exported` what each promoted scan's snapshot shows of it, `minted` every scan
      id so far. */
  datatype State = State(live: Inventory, scans: map<nat, Scan>, exported: map<nat, Inventory>,
                         minted: set<nat>, reqs: map<nat, Req>, served: seq<Served>)

  datatype Step =
    | Change(live: Inventory)
    | CountOpen(r: nat, token: nat, scope: set<int>, warehouse: int, limit: nat)
    | InsertPending(r: nat, id: nat)
    | Promote(id: nat)
    | TimeOut(r: nat)
    | ServeFirst(r: nat)
    | ServeNext(r: nat, token: nat, scope: set<int>, warehouse: int, cursor: Cursor, limit: nat)
    | Abort(id: nat)
    | Close(id: nat)

  predicate IsOpen(x: Scan) {
    x.status == Pending || x.status == Active
  }

  predicate HasOpenScan(s: State, token: nat) {
    exists id | id in s.scans :: s.scans[id].token == token && IsOpen(s.scans[id])
  }

  function OpenScans(scans: map<nat, Scan>, token: nat): set<nat> {
    set id | id in scans && scans[id].token == token && IsOpen(scans[id])
  }

  predicate WaitsOn(s: State, r: nat) {
    r in s.reqs && s.reqs[r].phase.Waiting?
  }

  predicate Enabled(s: State, e: Step) {
    match e
    case Change(live) => Sorted(live)
    case CountOpen(r, _, _, _, limit) => r !in s.reqs && limit >= 1
    case InsertPending(r, id) => r in s.reqs && s.reqs[r].phase.Counted? && id !in s.minted
    case Promote(id) => id in s.scans && s.scans[id].status == Pending
    case TimeOut(r) => WaitsOn(s, r)
    case ServeFirst(r) => WaitsOn(s, r) && s.reqs[r].phase.scan in s.exported && s.reqs[r].limit >= 1
    case ServeNext(r, _, _, _, _, limit) => r !in s.reqs && limit >= 1
    case Abort(id) => id in s.scans && s.scans[id].status == Active
    case Close(id) => id in s.scans && s.scans[id].status != Pending
  }

  predicate Sorted(inv: Inventory) {
    forall w | w in inv :: Ordered(inv[w])
  }

  function Table(inv: Inventory, warehouse: int): seq<Row<Stock>> {
    if warehouse in inv then inv[warehouse] else []
  }

  function Conclude(s: State, r: nat, x: Req, reply: Reply): State {
    s.(reqs := s.reqs[r := x.(phase := Answered(reply))])
  }

  /** One page of the exported snapshot; a short page closes the scan if it is still active. */
  function DoServe(s: State, r: nat, x: Req, id: nat, at: Key): State
    requires id in s.exported && x.limit >= 1
  {
    var rows := Page(Table(s.exported[id], x.warehouse), at, x.limit);
    var next := if |rows| < x.limit then None
      else Some(Cursor(id, x.warehouse, rows[x.limit - 1].key.major, rows[x.limit - 1].key.minor));
    var scans := if next.None? && id in s.scans && s.scans[id].status == Active
      then s.scans[id := s.scans[id].(status := DoneScan)] else s.scans;
    Conclude(s, r, x, Rows(rows, next)).(scans := scans, served :=
        s.served + [Served(id, x.warehouse, at, x.limit, rows, next)])
  }

  function DoNext(s: State, r: nat, x: Req, scope: set<int>, cursor: Cursor): State
    requires x.limit >= 1
  {
    if x.warehouse !in scope then Conclude(s, r, x, ScopeViolation)
    else if cursor.warehouse != x.warehouse then Conclude(s, r, x, CursorScopeViolation)
    else if cursor.scan !in s.scans then Conclude(s, r, x, SnapshotExpired)
    else if s.scans[cursor.scan].token != x.token then Conclude(s, r, x, CursorScopeViolation)
    else if s.scans[cursor.scan].status != Active || cursor.scan !in s.exported then Conclude(s, r, x, SnapshotExpired)
    else DoServe(s, r, x, cursor.scan, Key(cursor.item, cursor.bin))
  }

  function Take(s: State, e: Step): State
    requires Enabled(s, e)
  {
    match e
    case Change(live) => s.(live := live)
    case CountOpen(r, token, scope, warehouse, limit) =>
      var phase :=
        if warehouse !in scope then Answered(ScopeViolation)
        else if HasOpenScan(s, token) then Answered(InFlight)
        else Counted(s.minted);
      s.(reqs := s.reqs[r := Req(token, warehouse, limit, phase)])
    case InsertPending(r, id) =>
      var x := s.reqs[r];
      s.(scans := s.scans[id := Scan(x.warehouse, x.token, Pending)], minted := s.minted + {id},
         reqs := s.reqs[r := x.(phase := Waiting(id))])
    case Promote(id) =>
      s.(scans := s.scans[id := s.scans[id].(status := Active)], exported := s.exported[id := s.live])
    case TimeOut(r) => Conclude(s, r, s.reqs[r], KeeperUnavailable).(scans := s.scans - {s.reqs[r].phase.scan})
    case ServeFirst(r) => DoServe(s, r, s.reqs[r], s.reqs[r].phase.scan, ANCHOR)
    case ServeNext(r, token, scope, warehouse, cursor, limit) =>
      DoNext(s, r, Req(token, warehouse, limit, Counted({})), scope, cursor)
    case Abort(id) => s.(scans := s.scans[id := s.scans[id].(status := Aborted)])
    case Close(id) => s.(scans := s.scans - {id})
  }

  predicate Legal(s: State, steps: seq<Step>)
    decreases |steps|
  {
    steps == [] || (Enabled(s, steps[0]) && Legal(Take(s, steps[0]), steps[1..]))
  }

  function Run(s: State, steps: seq<Step>): State
    requires Legal(s, steps)
    decreases |steps|
  {
    if steps == [] then s else Run(Take(s, steps[0]), steps[1..])
  }

  predicate Init(s: State) {
    && s.scans == map[] && s.exported == map[] && s.minted == {} && s.reqs == map[] && s.served == []
    && Sorted(s.live)
  }

  // ----- Invariant -----

  /** A request that counted no open scan leaves none of those scans open. */
  predicate ReqOk(s: State, x: Req) {
    x.phase.Counted? ==>
        x.phase.present <= s.minted && forall id | id in s.scans && id in x.phase.present
        && s.scans[id].token == x.token :: !IsOpen(s.scans[id])
  }

  /** Every page came from its scan's own snapshot. */
  predicate ServedOk(s: State, p: Served) {
    && p.scan in s.exported && p.limit >= 1 && p.rows == Page(Table(s.exported[p.scan], p.warehouse), p.at, p.limit)
    && (p.next.None? <==> |p.rows| < p.limit)
    && (p.next.Some? ==> p.next.value.scan == p.scan && p.next.value.warehouse == p.warehouse
                         && Key(p.next.value.item, p.next.value.bin) == p.rows[p.limit - 1].key)
  }

  predicate Inv(s: State) {
    && Sorted(s.live) && (forall id | id in s.exported :: Sorted(s.exported[id]))
    && s.scans.Keys <= s.minted && (forall id | id in s.exported :: id in s.minted)
    && (forall id | id in s.scans && s.scans[id].status == Pending :: id !in s.exported)
    && (forall id | id in s.scans && s.scans[id].status == Active :: id in s.exported)
    && (forall r | r in s.reqs :: ReqOk(s, s.reqs[r]))
    && (forall k | 0 <= k < |s.served| :: ServedOk(s, s.served[k]))
  }

  lemma ServeKeepsInv(s: State, r: nat, x: Req, id: nat, at: Key)
    requires Inv(s) && id in s.exported && x.limit >= 1
    ensures Inv(DoServe(s, r, x, id, at))
  {
    var d := DoServe(s, r, x, id, at);
    forall q | q in d.reqs ensures ReqOk(d, d.reqs[q]) {
      if q != r { assert ReqOk(s, s.reqs[q]); }
    }
    forall k | 0 <= k < |d.served| ensures ServedOk(d, d.served[k]) {
      if k < |s.served| { assert ServedOk(s, s.served[k]); }
    }
  }

  lemma StepKeepsInv(s: State, e: Step)
    requires Inv(s) && Enabled(s, e)
    ensures Inv(Take(s, e))
  {
    match e
    case ServeFirst(r) => ServeKeepsInv(s, r, s.reqs[r], s.reqs[r].phase.scan, ANCHOR);
    case ServeNext(r, token, scope, warehouse, cursor, limit) => NextKeepsInv(s, r,
        Req(token, warehouse, limit, Counted({})), scope, cursor);
    case _ => KeeperKeepsInv(s, e);
  }

  lemma RefusalKeepsInv(s: State, r: nat, x: Req, reply: Reply)
    requires Inv(s)
    ensures Inv(Conclude(s, r, x, reply))
  {
    var d := Conclude(s, r, x, reply);
    forall q | q in d.reqs ensures ReqOk(d, d.reqs[q]) { if q != r { assert ReqOk(s, s.reqs[q]); } }
    forall k | 0 <= k < |d.served| ensures ServedOk(d, d.served[k]) { assert ServedOk(s, s.served[k]); }
  }

  lemma NextKeepsInv(s: State, r: nat, x: Req, scope: set<int>, cursor: Cursor)
    requires Inv(s) && x.limit >= 1
    ensures Inv(DoNext(s, r, x, scope, cursor))
  {
    RefusalKeepsInv(s, r, x, ScopeViolation);
    RefusalKeepsInv(s, r, x, CursorScopeViolation);
    RefusalKeepsInv(s, r, x, SnapshotExpired);
    if cursor.scan in s.exported { ServeKeepsInv(s, r, x, cursor.scan, Key(cursor.item, cursor.bin)); }
  }

  lemma KeeperKeepsInv(s: State, e: Step)
    requires Inv(s) && Enabled(s, e) && !e.ServeFirst? && !e.ServeNext?
    ensures Inv(Take(s, e))
  {
    var d := Take(s, e);
    forall q | q in d.reqs ensures ReqOk(d, d.reqs[q]) { if q in s.reqs { assert ReqOk(s, s.reqs[q]); } }
    forall k | 0 <= k < |d.served| ensures ServedOk(d, d.served[k]) { assert ServedOk(s, s.served[k]); }
  }

  lemma {:induction false} RunKeepsInv(s: State, steps: seq<Step>)
    requires Inv(s) && Legal(s, steps)
    ensures Inv(Run(s, steps))
    decreases |steps|
  {
    if steps != [] {
      StepKeepsInv(s, steps[0]);
      RunKeepsInv(Take(s, steps[0]), steps[1..]);
    }
  }

  // ----- What a request is answered -----

  /** A first request is refused for a warehouse out of scope, or while its token has a scan pending or active. */
  lemma CountAnswers(s: State, r: nat, token: nat, scope: set<int>, warehouse: int, limit: nat)
    requires Enabled(s, CountOpen(r, token, scope, warehouse, limit))
    ensures var p := Take(s, CountOpen(r, token, scope, warehouse, limit)).reqs[r].phase;
            var open := exists id | id in s.scans ::
              s.scans[id].token == token && (s.scans[id].status == Pending || s.scans[id].status == Active);
            p == if warehouse !in scope then Answered(ScopeViolation) else if open then Answered(InFlight)
                else Counted(s.minted)
  {
    assert HasOpenScan(s, token) <==> exists id | id in s.scans ::
      s.scans[id].token == token && (s.scans[id].status == Pending || s.scans[id].status == Active);
  }

  /** A cursor is served if and only if it names the warehouse asked for, which is in scope, and an active scan of
      the same token; the page is the one past its key in that scan's snapshot. */
  lemma CursorServedIff(s0: State, steps: seq<Step>, r: nat, token: nat, scope: set<int>, warehouse: int,
        cursor: Cursor, limit: nat)
    requires Init(s0) && Legal(s0, steps)
        && Enabled(Run(s0, steps), ServeNext(r, token, scope, warehouse, cursor, limit))
    ensures var s := Run(s0, steps);
            var p := Take(s, ServeNext(r, token, scope, warehouse, cursor, limit)).reqs[r].phase;
            && p.Answered?
            && (p.reply.Rows? <==>
                  && warehouse in scope && cursor.warehouse == warehouse && cursor.scan in s.scans
                  && s.scans[cursor.scan].token == token && s.scans[cursor.scan].status == Active)
            && (p.reply.Rows? ==>
                  && cursor.scan in s.exported
                  && p.reply.rows ==
                      Page(Table(s.exported[cursor.scan], warehouse), Key(cursor.item, cursor.bin), limit))
            && (p.reply == ScopeViolation <==> warehouse !in scope)
            && (p.reply == CursorScopeViolation <==>
                  warehouse in scope && (cursor.warehouse != warehouse
                                         || (cursor.scan in s.scans && s.scans[cursor.scan].token != token)))
  {
    RunKeepsInv(s0, steps);
  }

  // ----- One open scan per token -----

  predicate OneOpenEach(s: State) {
    forall a, b | a in s.scans && b in s.scans && s.scans[a].token == s.scans[b].token && IsOpen(s.scans[a])
        && IsOpen(s.scans[b]) :: a == b
  }

  /** No scan of the request's token that was inserted after it counted is still open. */
  predicate NoPeer(s: State, r: nat)
    requires r in s.reqs && s.reqs[r].phase.Counted?
  {
    forall id | id in s.scans && id !in s.reqs[r].phase.present && s.scans[id].token == s.reqs[r].token ::
        !IsOpen(s.scans[id])
  }

  lemma InsertKeepsOneOpenIff(s: State, r: nat, id: nat)
    requires Inv(s) && OneOpenEach(s) && Enabled(s, InsertPending(r, id))
    ensures OneOpenEach(Take(s, InsertPending(r, id))) <==> NoPeer(s, r)
  {
    var d, x := Take(s, InsertPending(r, id)), s.reqs[r];
    assert ReqOk(s, x);
    if a :| a in s.scans && a !in x.phase.present && s.scans[a].token == x.token && IsOpen(s.scans[a]) {
      assert d.scans[a] == s.scans[a] && d.scans[id].token == d.scans[a].token && a != id;
    }
  }

  lemma OthersKeepOneOpen(s: State, e: Step)
    requires OneOpenEach(s) && Enabled(s, e) && !e.InsertPending?
    ensures OneOpenEach(Take(s, e))
  {
    var d := Take(s, e);
    forall id | id in d.scans
      ensures id in s.scans && d.scans[id].token == s.scans[id].token && (IsOpen(d.scans[id]) ==> IsOpen(s.scans[id]))
    {}
  }

  predicate OneOpenThroughout(s: State, steps: seq<Step>)
    requires Legal(s, steps)
    decreases |steps|
  {
    OneOpenEach(s) && (steps == [] || OneOpenThroughout(Take(s, steps[0]), steps[1..]))
  }

  predicate NoPeerThroughout(s: State, steps: seq<Step>)
    requires Legal(s, steps)
    decreases |steps|
  {
    steps == []
    || ((steps[0].InsertPending? ==> NoPeer(s, steps[0].r)) && NoPeerThroughout(Take(s, steps[0]), steps[1..]))
  }

  /** A token never has two open scans, if and only if no request inserts its scan while one that a peer inserted
      since its count is still open. */
  lemma {:induction false} OneOpenThroughoutIff(s: State, steps: seq<Step>)
    requires Inv(s) && OneOpenEach(s) && Legal(s, steps)
    ensures OneOpenThroughout(s, steps) <==> NoPeerThroughout(s, steps)
    decreases |steps|
  {
    if steps != [] {
      var e, d := steps[0], Take(s, steps[0]);
      StepKeepsInv(s, e);
      if e.InsertPending? { InsertKeepsOneOpenIff(s, e.r, e.id); } else { OthersKeepOneOpen(s, e); }
      if OneOpenEach(d) { OneOpenThroughoutIff(d, steps[1..]); }
    }
  }

  lemma Compose(s: State, e: Step, rest: seq<Step>)
    requires Enabled(s, e) && Legal(Take(s, e), rest)
    ensures Legal(s, [e] + rest) && Run(s, [e] + rest) == Run(Take(s, e), rest)
  {
    assert ([e] + rest)[1..] == rest;
  }

  /** Two first-page requests of one token that both count before either inserts end with two open scans. */
  lemma TwoScansRun(s: State, token: nat, scope: set<int>, warehouse: int) returns (steps: seq<Step>)
    requires Init(s) && warehouse in scope
    ensures Legal(s, steps) && !OneOpenEach(Run(s, steps))
  {
    var e1, e2, e3, e4 :=
        CountOpen(0, token, scope, warehouse, 1), CountOpen(1, token, scope, warehouse, 1), InsertPending(0, 0),
        InsertPending(1, 1);
    var s1 := Take(s, e1);
    var s2 := Take(s1, e2);
    var s3 := Take(s2, e3);
    var s4 := Take(s3, e4);
    Compose(s3, e4, []);
    Compose(s2, e3, [e4] + []);
    Compose(s1, e2, [e3] + ([e4] + []));
    Compose(s, e1, [e2] + ([e3] + ([e4] + [])));
    steps := [e1] + ([e2] + ([e3] + ([e4] + [])));
    assert 0 in s4.scans && 1 in s4.scans && IsOpen(s4.scans[0]) && IsOpen(s4.scans[1]);
  }

  // ----- A session of pages -----

  /** Pages of one scan and warehouse at one size, each asked for with the cursor before it, the last short. */
  predicate Session(pages: seq<Served>, id: nat, warehouse: int, at: Key, limit: nat)
    decreases |pages|
  {
    && pages != [] && pages[0].scan == id && pages[0].warehouse == warehouse && pages[0].at == at
        && pages[0].limit == limit
    && if pages[0].next.None? then |pages| == 1
       else Session(pages[1..], id, warehouse, Key(pages[0].next.value.item, pages[0].next.value.bin), limit)
  }

  function RowsOf(pages: seq<Served>): seq<Row<Stock>> {
    if pages == [] then [] else pages[0].rows + RowsOf(pages[1..])
  }

  lemma {:induction false} SessionFollows(s: State, pages: seq<Served>, id: nat, warehouse: int, at: Key, limit: nat)
    requires id in s.exported && limit >= 1 && Session(pages, id, warehouse, at, limit)
    requires forall k | 0 <= k < |pages| :: ServedOk(s, pages[k])
    ensures RowsOf(pages) == Follow(Table(s.exported[id], warehouse), at, limit)
    decreases |pages|
  {
    assert ServedOk(s, pages[0]);
    if pages[0].next.None? {
      assert RowsOf(pages[1..]) == [];
    } else {
      SessionFollows(s, pages[1..], id, warehouse, pages[0].rows[limit - 1].key, limit);
    }
  }

  /** Whatever else runs meanwhile, a session that is paged from the anchor to its end has read its warehouse in its
      scan's own snapshot whole, in order, each row once, if and only if the first row lies past the anchor and no
      page boundary splits rows that share a key. */
  lemma SessionReadsSnapshotIff(s0: State, steps: seq<Step>, pages: seq<Served>, id: nat, warehouse: int, limit: nat)
    requires Init(s0) && Legal(s0, steps) && limit >= 1 && Session(pages, id, warehouse, ANCHOR, limit)
    requires forall k | 0 <= k < |pages| :: pages[k] in Run(s0, steps).served
    ensures var s := Run(s0, steps);
            && id in s.exported
            && var rows := Table(s.exported[id], warehouse);
               RowsOf(pages) == rows <==> (rows == [] || Less(ANCHOR, rows[0].key)) && CleanCuts(rows, limit)
  {
    RunKeepsInv(s0, steps);
    var s := Run(s0, steps);
    forall k | 0 <= k < |pages| ensures ServedOk(s, pages[k]) {
      var i :| 0 <= i < |s.served| && s.served[i] == pages[k];
    }
    assert ServedOk(s, pages[0]);
    SessionFollows(s, pages, id, warehouse, ANCHOR, limit);
    CompleteIff(Table(s.exported[id], warehouse), ANCHOR, limit);
  }

  /** Two lots of one item in one bin share a key; a page boundary between them loses the second lot. */
  lemma LotsCanBeLost()
    ensures var a, b := Row(Key(1, 1), Stock(5, 0, Some("A"))), Row(Key(1, 1), Stock(7, 0, Some("B")));
            Ordered([a, b]) && Follow([a, b], ANCHOR, 1) != [a, b] && Follow([a, b], ANCHOR, 2) == [a, b]
  {
    var a, b := Row(Key(1, 1), Stock(5, 0, Some("A"))), Row(Key(1, 1), Stock(7, 0, Some("B")));
    CompleteIff([a, b], ANCHOR, 1);
    CompleteIff([a, b], ANCHOR, 2);
  }

  // ----- The handler -----

  class Server {
    var live: Inventory
    var scans: map<nat, Scan>
    var exported: map<nat, Inventory>
    var minted: set<nat>
    var reqs: map<nat, Req>
    var served: seq<Served>

    constructor (live: Inventory)
      requires Sorted(live)
      ensures Init(View()) && this.live == live
    {
      this.live, scans, exported, minted, reqs, served := live, map[], map[], {}, map[], [];
    }

    function View(): State
      reads this
    {
      State(live, scans, exported, minted, reqs, served)
    }

    method CountScans(r: nat, token: nat, scope: set<int>, warehouse: int, limit: nat)
      requires Enabled(View(), CountOpen(r, token, scope, warehouse, limit))
      modifies this
      ensures View() == Take(old(View()), CountOpen(r, token, scope, warehouse, limit))
    {
      if warehouse !in scope {
        reqs := reqs[r := Req(token, warehouse, limit, Answered(ScopeViolation))];
        return;
      }
      var open := |OpenScans(scans, token)|;
      OpenCount(View(), token);
      reqs := reqs[r := Req(token, warehouse, limit, if open >= 1 then Answered(InFlight) else Counted(minted))];
    }

    method Insert(r: nat, id: nat)
      requires Enabled(View(), InsertPending(r, id))
      modifies this
      ensures View() == Take(old(View()), InsertPending(r, id))
    {
      scans := scans[id := Scan(reqs[r].warehouse, reqs[r].token, Pending)];
      minted := minted + {id};
      reqs := reqs[r := reqs[r].(phase := Waiting(id))];
    }

    /** The poll loop ended without seeing the scan active: the row is deleted, whatever it has become. */
    method Withdraw(r: nat)
      requires Enabled(View(), TimeOut(r))
      modifies this
      ensures View() == Take(old(View()), TimeOut(r))
    {
      scans := scans - {reqs[r].phase.scan};
      reqs := reqs[r := reqs[r].(phase := Answered(KeeperUnavailable))];
    }

    method FirstPage(r: nat)
      requires Enabled(View(), ServeFirst(r))
      modifies this
      ensures View() == Take(old(View()), ServeFirst(r))
    {
      Serve(r, reqs[r], reqs[r].phase.scan, ANCHOR);
    }

    /** A cursor must name the query's warehouse and an active scan of the caller's own. */
    method NextPage(r: nat, token: nat, scope: set<int>, warehouse: int, cursor: Cursor, limit: nat)
      requires Enabled(View(), ServeNext(r, token, scope, warehouse, cursor, limit))
      modifies this
      ensures View() == Take(old(View()), ServeNext(r, token, scope, warehouse, cursor, limit))
    {
      var x, why := Req(token, warehouse, limit, Counted({})), None;
      if warehouse !in scope {
        why := Some(ScopeViolation);
      } else if cursor.warehouse != warehouse {
        why := Some(CursorScopeViolation);
      } else if cursor.scan !in scans {
        why := Some(SnapshotExpired);
      } else {
        var scan := scans[cursor.scan];
        if scan.token != token {
          why := Some(CursorScopeViolation);
        } else if scan.status != Active || cursor.scan !in exported {
          why := Some(SnapshotExpired);
        }
      }
      if why.Some? {
        reqs := reqs[r := x.(phase := Answered(why.value))];
      } else {
        Serve(r, x, cursor.scan, Key(cursor.item, cursor.bin));
      }
    }

    method Serve(r: nat, x: Req, id: nat, at: Key)
      requires id in exported && x.limit >= 1
      modifies this
      ensures View() == DoServe(old(View()), r, x, id, at)
    {
      var rows := Page(Table(exported[id], x.warehouse), at, x.limit);
      var next := None;
      if |rows| < x.limit {
        if id in scans && scans[id].status == Active { scans := scans[id := scans[id].(status := DoneScan)]; }
      } else {
        var tail := rows[x.limit - 1].key;
        next := Some(Cursor(id, x.warehouse, tail.major, tail.minor));
      }
      reqs := reqs[r := x.(phase := Answered(Rows(rows, next)))];
      served := served + [Served(id, x.warehouse, at, x.limit, rows, next)];
    }
  }

  lemma OpenCount(s: State, token: nat)
    ensures |OpenScans(s.scans, token)| >= 1 <==> HasOpenScan(s, token)
  {
    var open := OpenScans(s.scans, token);
    if id :| id in s.scans && s.scans[id].token == token && IsOpen(s.scans[id]) {
      assert id in open;
    } else {
      assert open == {};
    }
  }
}
