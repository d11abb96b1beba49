/**
 GET /events: one filtered page of the outbox after a cursor, and what a connector
 collects by following `next_cursor`.
 */
module EventPoll {
  import opened Prelude
  import opened Paging

  datatype Event = Event(id: int, kind: string, warehouse: int, visibleAt: Option<int>)

  /** `integration_events` in primary-key order. */
  predicate ValidLog(log: seq<Event>) {
    (forall i | 0 <= i < |log| :: log[i].id >= 1) && (forall i, j | 0 <= i < j < |log| :: log[i].id < log[j].id)
  }

  datatype Scope = Scope(warehouses: seq<int>, kinds: seq<string>)

  /** Request filter and group subscription; an empty list restricts nothing, unlike the token's scope. */
  datatype Query = Query(warehouse: Option<int>, kinds: seq<string>, subWarehouses: seq<int>, subKinds: seq<string>)

  const SETTLE: int := 2

  /** The WHERE clause of `_build_events_query`, apart from the cursor. */
  predicate Selected(e: Event, s: Scope, q: Query, now: int) {
    && e.visibleAt.Some? && e.visibleAt.value <= now - SETTLE
    && e.warehouse in s.warehouses && e.kind in s.kinds
    && (q.warehouse.Some? ==> e.warehouse == q.warehouse.value)
    && (q.kinds != [] ==> e.kind in q.kinds)
    && (q.subWarehouses != [] ==> e.warehouse in q.subWarehouses)
    && (q.subKinds != [] ==> e.kind in q.subKinds)
  }

  /** The query itself: rows past the cursor that pass the filter, ascending. */
  function Past(log: seq<Event>, after: int, s: Scope, q: Query, now: int): seq<Event> {
    if log == [] then []
    else if log[0].id > after && Selected(log[0], s, q, now) then [log[0]] + Past(log[1..], after, s, q, now)
    else Past(log[1..], after, s, q, now)
  }

  predicate ScopeViolation<T(==)>(asked: seq<T>, allowed: seq<T>) {
    exists i | 0 <= i < |asked| :: asked[i] !in allowed
  }

  datatype PollReply = Forbidden(field: string) | Polled(events: seq<Event>, nextCursor: int)

  /** `poll_events` once its parameters are parsed and the cursor known. */
  function Poll(log: seq<Event>, after: int, s: Scope, q: Query, now: int, limit: nat): (r: PollReply)
    requires limit >= 1
    ensures r.Polled? ==> |r.events| <= limit && r.nextCursor >= after
    ensures r.Polled? && |r.events| < limit ==> r.events == Past(log, after, s, q, now)
  {
    if q.warehouse.Some? && ScopeViolation([q.warehouse.value], s.warehouses) then Forbidden("warehouse_id")
    else if q.kinds != [] && ScopeViolation(q.kinds, s.kinds) then Forbidden("types")
    else
      var rows := Past(log, after, s, q, now);
      var page := if |rows| <= limit then rows else rows[..limit];
      PastIds(log, after, s, q, now);
      Polled(page, if page == [] then after else page[|page| - 1].id)
  }

  lemma {:induction false} PastIds(log: seq<Event>, after: int, s: Scope, q: Query, now: int)
    ensures forall i | 0 <= i < |Past(log, after, s, q, now)| :: Past(log, after, s, q, now)[i].id > after
  {
    if log != [] { PastIds(log[1..], after, s, q, now); }
  }

  // ----- The one-shot scan -----

  function Scan(log: seq<Event>, s: Scope, q: Query, now: int): seq<Row<Event>> {
    if log == [] then []
    else if Selected(log[0], s, q, now) then [Row(Key(log[0].id, 0), log[0])] + Scan(log[1..], s, q, now)
    else Scan(log[1..], s, q, now)
  }

  function Data<T>(rows: seq<Row<T>>): (r: seq<T>)
    ensures |r| == |rows|
    ensures forall i | 0 <= i < |rows| :: r[i] == rows[i].data
  {
    seq(|rows|, i requires 0 <= i < |rows| => rows[i].data)
  }

  lemma {:induction false} ScanRow(log: seq<Event>, s: Scope, q: Query, now: int, x: Row<Event>)
    ensures x in Scan(log, s, q, now) <==> x.data in log && x.key == Key(x.data.id, 0) && Selected(x.data, s, q, now)
  {
    if log != [] {
      ScanRow(log[1..], s, q, now, x);
      assert log == [log[0]] + log[1..];
    }
  }

  lemma {:induction false} ScanUnique(log: seq<Event>, s: Scope, q: Query, now: int)
    requires ValidLog(log)
    ensures Unique(Scan(log, s, q, now))
  {
    if log != [] {
      ScanUnique(log[1..], s, q, now);
      var rest := Scan(log[1..], s, q, now);
      forall i | 0 <= i < |rest| ensures log[0].id < rest[i].key.major {
        ScanRow(log[1..], s, q, now, rest[i]);
        var k :| 0 <= k < |log[1..]| && log[1..][k] == rest[i].data;
        assert log[k + 1] == rest[i].data;
      }
    }
  }

  /** The scan lists exactly the selected events, in id order, each once. */
  lemma ScanShape(log: seq<Event>, s: Scope, q: Query, now: int)
    requires ValidLog(log)
    ensures var rows := Scan(log, s, q, now);
            && Unique(rows)
            && (forall i | 0 <= i < |rows| ::
                rows[i].data in log && rows[i].key == Key(rows[i].data.id, 0) && Selected(rows[i].data, s, q, now))
            && (forall e | e in log && Selected(e, s, q, now) :: Row(Key(e.id, 0), e) in rows)
  {
    var rows := Scan(log, s, q, now);
    ScanUnique(log, s, q, now);
    forall i | 0 <= i < |rows|
      ensures rows[i].data in log && rows[i].key == Key(rows[i].data.id, 0) && Selected(rows[i].data, s, q, now)
    {
      ScanRow(log, s, q, now, rows[i]);
    }
    forall e | e in log && Selected(e, s, q, now) ensures Row(Key(e.id, 0), e) in rows {
      ScanRow(log, s, q, now, Row(Key(e.id, 0), e));
    }
  }

  /** The cursor condition in SQL is the keyset condition on the scan. */
  lemma {:induction false} PastIsAfter(log: seq<Event>, after: int, s: Scope, q: Query, now: int)
    ensures Past(log, after, s, q, now) == Data(After(Scan(log, s, q, now), Key(after, 0)))
  {
    if log != [] {
      PastIsAfter(log[1..], after, s, q, now);
      if Selected(log[0], s, q, now) {
        assert Scan(log, s, q, now)[1..] == Scan(log[1..], s, q, now);
      }
    }
  }

  lemma AfterKeys(log: seq<Event>, after: int, s: Scope, q: Query, now: int, i: nat)
    requires i < |After(Scan(log, s, q, now), Key(after, 0))|
    ensures var x := After(Scan(log, s, q, now), Key(after, 0))[i]; x.key == Key(x.data.id, 0)
  {
    AfterMembers(Scan(log, s, q, now), Key(after, 0), i);
    ScanRow(log, s, q, now, After(Scan(log, s, q, now), Key(after, 0))[i]);
  }

  lemma DataPrefix<T>(rows: seq<Row<T>>, n: nat)
    requires n <= |rows|
    ensures Data(rows)[..n] == Data(rows[..n])
  {}

  /** One poll returns one page of the scan and the cursor that page ends at. */
  lemma PollIsPage(log: seq<Event>, after: int, s: Scope, q: Query, now: int, limit: nat)
    requires limit >= 1 && ValidLog(log) && Poll(log, after, s, q, now, limit).Polled?
    ensures var r, p := Poll(log, after, s, q, now, limit), Page(Scan(log, s, q, now), Key(after, 0), limit);
            r.events == Data(p) && Key(r.nextCursor, 0) == (if p == [] then Key(after, 0) else p[|p| - 1].key)
  {
    PastIsAfter(log, after, s, q, now);
    var rest := After(Scan(log, s, q, now), Key(after, 0));
    var n := if |rest| <= limit then |rest| else limit;
    DataPrefix(rest, n);
    assert rest[..|rest|] == rest;
    if n > 0 { AfterKeys(log, after, s, q, now, n - 1); }
  }

  /** The request's own filter lies within the token's scope. */
  predicate Permitted(s: Scope, q: Query) {
    && !(q.warehouse.Some? && ScopeViolation([q.warehouse.value], s.warehouses))
    && !(q.kinds != [] && ScopeViolation(q.kinds, s.kinds))
  }

  /** What a connector collects that polls with each `next_cursor` until a page comes back short. */
  function FollowPolls(log: seq<Event>, after: int, s: Scope, q: Query, now: int, limit: nat): seq<Event>
    requires limit >= 1 && ValidLog(log) && Permitted(s, q)
    decreases |After(Scan(log, s, q, now), Key(after, 0))|
  {
    var p := Poll(log, after, s, q, now, limit);
    if |p.events| < limit then p.events
    else
      PollIsPage(log, after, s, q, now, limit);
      FullPageAdvances(Scan(log, s, q, now), Key(after, 0), limit);
      p.events + FollowPolls(log, p.nextCursor, s, q, now, limit)
  }

  lemma DataConcat<T>(a: seq<Row<T>>, b: seq<Row<T>>)
    ensures Data(a + b) == Data(a) + Data(b)
  {}

  lemma {:induction false} PollsFollowScan(log: seq<Event>, after: int, s: Scope, q: Query, now: int, limit: nat)
    requires limit >= 1 && ValidLog(log) && Permitted(s, q)
    ensures FollowPolls(log, after, s, q, now, limit) == Data(Follow(Scan(log, s, q, now), Key(after, 0), limit))
    decreases |After(Scan(log, s, q, now), Key(after, 0))|
  {
    var rows, p := Scan(log, s, q, now), Poll(log, after, s, q, now, limit);
    var page := Page(rows, Key(after, 0), limit);
    PollIsPage(log, after, s, q, now, limit);
    if |page| < limit {
      assert FollowPolls(log, after, s, q, now, limit) == p.events;
    } else {
      FullPageAdvances(rows, Key(after, 0), limit);
      PollsFollowScan(log, p.nextCursor, s, q, now, limit);
      DataConcat(page, Follow(rows, Key(p.nextCursor, 0), limit));
      assert FollowPolls(log, after, s, q, now, limit) == p.events + FollowPolls(log, p.nextCursor, s, q, now, limit);
    }
  }

  /** Over a fixed log, polling with each `next_cursor` from zero yields the whole scan at every page size. */
  lemma FollowingYieldsScan(log: seq<Event>, s: Scope, q: Query, now: int, limit: nat)
    requires limit >= 1 && ValidLog(log) && Permitted(s, q)
    ensures FollowPolls(log, 0, s, q, now, limit) == Data(Scan(log, s, q, now))
  {
    PollsFollowScan(log, 0, s, q, now, limit);
    ScanShape(log, s, q, now);
    UniqueKeysComplete(Scan(log, s, q, now), Key(0, 0), limit);
  }

  /** What a connector is handed: the events that became visible at least two seconds ago, of a warehouse and a type
      in the token's scope, and within every filter the request and its subscription set; and no others. */
  lemma PolledEventsAre(log: seq<Event>, s: Scope, q: Query, now: int, limit: nat, e: Event)
    requires limit >= 1 && ValidLog(log) && Permitted(s, q)
    ensures e in FollowPolls(log, 0, s, q, now, limit) <==>
              && e in log && e.visibleAt.Some? && now - e.visibleAt.value >= 2
              && e.warehouse in s.warehouses && e.kind in s.kinds
              && (q.warehouse == None || q.warehouse == Some(e.warehouse)) && (q.kinds == [] || e.kind in q.kinds)
              && (q.subWarehouses == [] || e.warehouse in q.subWarehouses) && (q.subKinds == [] || e.kind in q.subKinds)
  {
    FollowingYieldsScan(log, s, q, now, limit);
    var rows, x := Scan(log, s, q, now), Row(Key(e.id, 0), e);
    ScanRow(log, s, q, now, x);
    if e in Data(rows) {
      var i :| 0 <= i < |rows| && Data(rows)[i] == e;
      ScanRow(log, s, q, now, rows[i]);
    }
    if x in rows {
      var i :| 0 <= i < |rows| && rows[i] == x;
      assert Data(rows)[i] == e;
    }
  }

  /** A poll is refused exactly when it asks for a warehouse or a type outside the token's scope. */
  lemma PollRefusedIff(log: seq<Event>, after: int, s: Scope, q: Query, now: int, limit: nat)
    requires limit >= 1
    ensures Poll(log, after, s, q, now, limit).Forbidden? <==>
              || (q.warehouse.Some? && q.warehouse.value !in s.warehouses)
              || exists i | 0 <= i < |q.kinds| :: q.kinds[i] !in s.kinds
  {
    if q.warehouse.Some? { assert [q.warehouse.value][0] == q.warehouse.value; }
  }

  // ----- A log that grows between polls -----

  /** The rows a reader at this cursor has been past. */
  function UpTo<T>(rows: seq<Row<T>>, cursor: Key): seq<Row<T>> {
    if rows == [] then []
    else if Less(cursor, rows[0].key) then UpTo(rows[1..], cursor)
    else [rows[0]] + UpTo(rows[1..], cursor)
  }

  lemma {:induction false} SplitAt<T>(rows: seq<Row<T>>, cursor: Key, d: nat)
    requires CutsAt(rows, cursor, d)
    ensures UpTo(rows, cursor) == rows[..d] && After(rows, cursor) == rows[d..]
  {
    if rows != [] {
      if d > 0 {
        SplitAt(rows[1..], cursor, d - 1);
      } else {
        assert CutsAt(rows[1..], cursor, 0);
        SplitAt(rows[1..], cursor, 0);
      }
    }
  }

  function Next<T>(rows: seq<Row<T>>, cursor: Key, limit: nat): Key
    requires limit >= 1
  {
    var p := Page(rows, cursor, limit);
    if p == [] then cursor else p[|p| - 1].key
  }

  /** A poll hands over exactly the rows between the old cursor and the new one. */
  lemma PollExtends<T>(rows: seq<Row<T>>, cursor: Key, limit: nat)
    requires limit >= 1 && Unique(rows)
    ensures UpTo(rows, Next(rows, cursor, limit)) == UpTo(rows, cursor) + Page(rows, cursor, limit)
  {
    var d := AfterCut(rows, cursor);
    SplitAt(rows, cursor, d);
    var p := Page(rows, cursor, limit);
    assert p == rows[d..d + |p|];
    if p != [] {
      assert Next(rows, cursor, limit) == rows[d + |p| - 1].key;
      SplitAt(rows, Next(rows, cursor, limit), d + |p|);
      assert rows[..d + |p|] == rows[..d] + rows[d..d + |p|];
    }
  }

  /** The log and the clock a poll meets. */
  datatype Call = Call(log: seq<Event>, now: int, limit: nat)

  predicate CallsOk(calls: seq<Call>) {
    forall i | 0 <= i < |calls| :: calls[i].limit >= 1 && ValidLog(calls[i].log)
  }

  /** A connector's cursor, and everything it was handed, in order. */
  datatype Reader = Reader(cursor: int, got: seq<Event>)

  function PollOnce(r: Reader, call: Call, s: Scope, q: Query): Reader
    requires Permitted(s, q) && call.limit >= 1
  {
    var p := Poll(call.log, r.cursor, s, q, call.now, call.limit);
    Reader(p.nextCursor, r.got + p.events)
  }

  function PollAll(r: Reader, calls: seq<Call>, s: Scope, q: Query): Reader
    requires Permitted(s, q) && CallsOk(calls)
    decreases |calls|
  {
    if calls == [] then r else PollAll(PollOnce(r, calls[0], s, q), calls[1..], s, q)
  }

  /** The events the filter selects at or below a cursor, in id order. */
  function Below(log: seq<Event>, cursor: int, s: Scope, q: Query, now: int): seq<Event> {
    Data(UpTo(Scan(log, s, q, now), Key(cursor, 0)))
  }

  lemma PollOnceExtends(r: Reader, call: Call, s: Scope, q: Query)
    requires Permitted(s, q) && call.limit >= 1 && ValidLog(call.log)
    ensures var r' := PollOnce(r, call, s, q);
            Below(call.log, r'.cursor, s, q, call.now) ==
            Below(call.log, r.cursor, s, q, call.now) + Poll(call.log, r.cursor, s, q, call.now, call.limit).events
  {
    var rows, at := Scan(call.log, s, q, call.now), Key(r.cursor, 0);
    ScanShape(call.log, s, q, call.now);
    PollIsPage(call.log, r.cursor, s, q, call.now, call.limit);
    PollExtends(rows, at, call.limit);
    assert Data(UpTo(rows, at) + Page(rows, at, call.limit)) == Data(UpTo(rows, at)) + Data(Page(rows, at, call.limit));
  }

  predicate Exact(r: Reader, call: Call, s: Scope, q: Query) {
    r.got == Below(call.log, r.cursor, s, q, call.now)
  }

  /** What is selected at or below the cursor is the same sequence at both calls. */
  predicate Settled(before: Call, after: Call, cursor: int, s: Scope, q: Query) {
    Below(after.log, cursor, s, q, after.now) == Below(before.log, cursor, s, q, before.now)
  }

  /** No event at or below the cursor becomes selected, or stops being so, from one call to the next. */
  ghost predicate NoLateEvent(before: Call, after: Call, cursor: int, s: Scope, q: Query) {
    forall e: Event | e.id <= cursor ::
      e in after.log && Selected(e, s, q, after.now) <==> e in before.log && Selected(e, s, q, before.now)
  }

  lemma {:induction false} UpToMembers<T>(rows: seq<Row<T>>, cursor: Key, x: Row<T>)
    ensures x in UpTo(rows, cursor) <==> x in rows && !Less(cursor, x.key)
  {
    if rows != [] { UpToMembers(rows[1..], cursor, x); }
  }

  lemma BelowMembers(call: Call, cursor: int, s: Scope, q: Query, e: Event)
    requires ValidLog(call.log)
    ensures e in Below(call.log, cursor, s, q, call.now) <==>
        e in call.log && e.id <= cursor && Selected(e, s, q, call.now)
  {
    var rows := Scan(call.log, s, q, call.now);
    ScanShape(call.log, s, q, call.now);
    var x := Row(Key(e.id, 0), e);
    UpToMembers(rows, Key(cursor, 0), x);
    var below := UpTo(rows, Key(cursor, 0));
    if e in Data(below) {
      var i :| 0 <= i < |below| && Data(below)[i] == e;
      UpToMembers(rows, Key(cursor, 0), below[i]);
      assert below[i] == x;
    }
    if x in below {
      var i :| 0 <= i < |below| && below[i] == x;
      assert Data(below)[i] == e;
    }
  }

  predicate InIdOrder(es: seq<Event>) {
    forall i, j | 0 <= i < j < |es| :: es[i].id < es[j].id
  }

  lemma BelowInIdOrder(call: Call, cursor: int, s: Scope, q: Query)
    requires ValidLog(call.log)
    ensures InIdOrder(Below(call.log, cursor, s, q, call.now))
  {
    var rows := Scan(call.log, s, q, call.now);
    ScanShape(call.log, s, q, call.now);
    var d := AfterCut(rows, Key(cursor, 0));
    SplitAt(rows, Key(cursor, 0), d);
  }

  lemma TailWithin(a: seq<Event>, b: seq<Event>)
    requires a != [] && b != [] && a[0] == b[0] && InIdOrder(a) && forall e :: e in a ==> e in b
    ensures forall e :: e in a[1..] ==> e in b[1..]
  {
    forall e | e in a[1..] ensures e in b[1..] {
      var i :| 0 <= i < |a[1..]| && a[1..][i] == e;
      assert a[i + 1] == e && e in a;
      var j :| 0 <= j < |b| && b[j] == e;
      assert j != 0 && b[1..][j - 1] == e;
    }
  }

  /** One set of events has one listing in id order. */
  lemma {:induction false} ListingUnique(a: seq<Event>, b: seq<Event>)
    requires InIdOrder(a) && InIdOrder(b) && forall e :: e in a <==> e in b
    ensures a == b
  {
    assert a != [] ==> a[0] in a;
    assert b != [] ==> b[0] in b;
    if a != [] && b != [] {
      var i :| 0 <= i < |b| && b[i] == a[0];
      var j :| 0 <= j < |a| && a[j] == b[0];
      assert a[0] == b[0];
      TailWithin(a, b);
      TailWithin(b, a);
      ListingUnique(a[1..], b[1..]);
    }
  }

  /** The sequences agree if and only if no single event is late. */
  lemma SettledIff(before: Call, after: Call, cursor: int, s: Scope, q: Query)
    requires ValidLog(before.log) && ValidLog(after.log)
    ensures Settled(before, after, cursor, s, q) <==> NoLateEvent(before, after, cursor, s, q)
  {
    var a, b := Below(after.log, cursor, s, q, after.now), Below(before.log, cursor, s, q, before.now);
    forall e: Event
      ensures e in a <==> e in after.log && e.id <= cursor && Selected(e, s, q, after.now)
      ensures e in b <==> e in before.log && e.id <= cursor && Selected(e, s, q, before.now)
    {
      BelowMembers(after, cursor, s, q, e);
      BelowMembers(before, cursor, s, q, e);
    }
    BelowInIdOrder(after, cursor, s, q);
    BelowInIdOrder(before, cursor, s, q);
    if NoLateEvent(before, after, cursor, s, q) { ListingUnique(a, b); }
  }

  predicate ExactThroughout(r: Reader, calls: seq<Call>, s: Scope, q: Query)
    requires Permitted(s, q) && CallsOk(calls)
    decreases |calls|
  {
    calls == []
    || (var r' := PollOnce(r, calls[0], s, q);
        Exact(r', calls[0], s, q) && ExactThroughout(r', calls[1..], s, q))
  }

  /** No poll of the sequence meets a late event. */
  ghost predicate NoneLate(r: Reader, before: Call, calls: seq<Call>, s: Scope, q: Query)
    requires Permitted(s, q) && CallsOk(calls)
    decreases |calls|
  {
    calls == []
    || (NoLateEvent(before, calls[0], r.cursor, s, q)
        && NoneLate(PollOnce(r, calls[0], s, q), calls[0], calls[1..], s, q))
  }

  lemma OnePollExactIff(r: Reader, before: Call, call: Call, s: Scope, q: Query)
    requires Permitted(s, q) && call.limit >= 1 && ValidLog(call.log) && ValidLog(before.log) && Exact(r, before, s, q)
    ensures Exact(PollOnce(r, call, s, q), call, s, q) <==> NoLateEvent(before, call, r.cursor, s, q)
  {
    PollOnceExtends(r, call, s, q);
    SettledIff(before, call, r.cursor, s, q);
    var u := Below(call.log, r.cursor, s, q, call.now);
    var more := Poll(call.log, r.cursor, s, q, call.now, call.limit).events;
    if r.got + more == u + more {
      assert (r.got + more)[..|u|] == r.got && (u + more)[..|u|] == u;
    }
  }

  /** Over a growing log, a reader has after every poll exactly what the log then selects up to its cursor, nothing
      skipped and nothing twice, if and only if no event came to be selected at or below the cursor between polls, or
      ceased to be. */
  lemma {:induction false} GrowingLogIsReadIff(r: Reader, before: Call, calls: seq<Call>, s: Scope, q: Query)
    requires Permitted(s, q) && CallsOk(calls) && ValidLog(before.log) && Exact(r, before, s, q)
    ensures ExactThroughout(r, calls, s, q) <==> NoneLate(r, before, calls, s, q)
    decreases |calls|
  {
    if calls != [] {
      OnePollExactIff(r, before, calls[0], s, q);
      var r' := PollOnce(r, calls[0], s, q);
      if Exact(r', calls[0], s, q) { GrowingLogIsReadIff(r', calls[0], calls[1..], s, q); }
    }
  }

  /** An event at or below the cursor that the reader does not have by then is never handed to it. */
  lemma {:induction false} LateEventsAreLost(r: Reader, calls: seq<Call>, s: Scope, q: Query, e: Event)
    requires Permitted(s, q) && CallsOk(calls) && e.id <= r.cursor && e !in r.got
    ensures e !in PollAll(r, calls, s, q).got
    decreases |calls|
  {
    if calls != [] {
      var call := calls[0];
      var p := Poll(call.log, r.cursor, s, q, call.now, call.limit);
      PastIds(call.log, r.cursor, s, q, call.now);
      LateEventsAreLost(PollOnce(r, call, s, q), calls[1..], s, q, e);
    }
  }
}
