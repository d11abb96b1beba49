/**
 Keyset paging: the event poll and the inventory snapshot.  A page is the first
 `limit` rows past a cursor; following the cursor must refine one ordered scan.
 */
module Paging {
  import opened Prelude

  /** Row-value keys compare lexicographically.  Events use (event_id, 0), snapshot rows (item_id, bin_id);
      the warehouse is fixed by the query. */
  datatype Key = Key(major: int, minor: int)

  predicate Less(a: Key, b: Key) {
    a.major < b.major || (a.major == b.major && a.minor < b.minor)
  }

  datatype Row<T> = Row(key: Key, data: T)

  /** ORDER BY key. */
  predicate Ordered<T>(rows: seq<Row<T>>) {
    forall i, j | 0 <= i < j < |rows| :: !Less(rows[j].key, rows[i].key)
  }

  /** Ordered, and no two rows share a key. */
  predicate Unique<T>(rows: seq<Row<T>>) {
    forall i, j | 0 <= i < j < |rows| :: Less(rows[i].key, rows[j].key)
  }

  /** WHERE key > cursor. */
  function After<T>(rows: seq<Row<T>>, cursor: Key): (r: seq<Row<T>>)
    ensures |r| <= |rows|
  {
    if rows == [] then []
    else if Less(cursor, rows[0].key) then [rows[0]] + After(rows[1..], cursor)
    else After(rows[1..], cursor)
  }

  function Page<T>(rows: seq<Row<T>>, cursor: Key, limit: nat): (p: seq<Row<T>>)
    requires limit >= 1
    ensures |p| <= limit
  {
    var rest := After(rows, cursor);
    if |rest| <= limit then rest else rest[..limit]
  }

  // ----- The cut an ordered table makes at a cursor -----

  predicate CutsAt<T>(rows: seq<Row<T>>, cursor: Key, d: nat) {
    && d <= |rows|
    && (forall i | 0 <= i < d :: !Less(cursor, rows[i].key))
    && (forall i | d <= i < |rows| :: Less(cursor, rows[i].key))
  }

  lemma {:induction false} AfterAll<T>(rows: seq<Row<T>>, cursor: Key)
    requires forall i | 0 <= i < |rows| :: Less(cursor, rows[i].key)
    ensures After(rows, cursor) == rows
  {
    if rows != [] { AfterAll(rows[1..], cursor); }
  }

  lemma {:induction false} AfterCut<T>(rows: seq<Row<T>>, cursor: Key) returns (d: nat)
    requires Ordered(rows)
    ensures CutsAt(rows, cursor, d) && After(rows, cursor) == rows[d..]
  {
    if rows == [] || Less(cursor, rows[0].key) {
      d := 0;
      assert forall i | 0 <= i < |rows| :: i == 0 || !Less(rows[i].key, rows[0].key);
      AfterAll(rows, cursor);
    } else {
      var d' := AfterCut(rows[1..], cursor);
      d := d' + 1;
      forall i | 0 <= i < |rows| ensures Less(cursor, rows[i].key) <==> i >= d {
        if i > 0 { assert rows[i] == rows[1..][i - 1]; }
      }
    }
  }

  /** Past a later cursor, the table and what was left of it at an earlier cursor look the same. */
  lemma {:induction false} AfterAfter<T>(rows: seq<Row<T>>, c: Key, c': Key)
    requires !Less(c', c)
    ensures After(After(rows, c), c') == After(rows, c')
  {
    if rows != [] {
      AfterAfter(rows[1..], c, c');
      if Less(c, rows[0].key) {
        assert ([rows[0]] + After(rows[1..], c))[1..] == After(rows[1..], c);
      }
    }
  }

  // ----- Following the cursor -----

  lemma AfterShrinks<T>(rows: seq<Row<T>>, cursor: Key, k: Key)
    requires exists i | 0 <= i < |rows| :: rows[i].key == k && Less(cursor, k)
    ensures |After(rows, k)| < |After(rows, cursor)|
  {
    var i :| 0 <= i < |rows| && rows[i].key == k && Less(cursor, k);
    AfterDrops(rows, cursor, k, i);
  }

  lemma {:induction false} AfterDrops<T>(rows: seq<Row<T>>, cursor: Key, k: Key, i: nat)
    requires i < |rows| && rows[i].key == k && Less(cursor, k)
    ensures |After(rows, k)| < |After(rows, cursor)|
  {
    if i > 0 {
      AfterDrops(rows[1..], cursor, k, i - 1);
    } else {
      AfterFewer(rows[1..], cursor, k);
    }
  }

  lemma {:induction false} AfterFewer<T>(rows: seq<Row<T>>, cursor: Key, k: Key)
    requires Less(cursor, k)
    ensures |After(rows, k)| <= |After(rows, cursor)|
  {
    if rows != [] { AfterFewer(rows[1..], cursor, k); }
  }

  lemma {:induction false} AfterMembers<T>(rows: seq<Row<T>>, cursor: Key, i: nat)
    requires i < |After(rows, cursor)|
    ensures After(rows, cursor)[i] in rows && Less(cursor, After(rows, cursor)[i].key)
  {
    if Less(cursor, rows[0].key) {
      if i > 0 { AfterMembers(rows[1..], cursor, i - 1); }
    } else {
      AfterMembers(rows[1..], cursor, i);
    }
  }

  lemma FullPageAdvances<T>(rows: seq<Row<T>>, cursor: Key, limit: nat)
    requires limit >= 1 && |Page(rows, cursor, limit)| == limit
    ensures var k := Page(rows, cursor, limit)[limit - 1].key;
            Less(cursor, k) && |After(rows, k)| < |After(rows, cursor)|
  {
    AfterMembers(rows, cursor, limit - 1);
    AfterShrinks(rows, cursor, Page(rows, cursor, limit)[limit - 1].key);
  }

  /** What a client collects: it asks again while pages come back full. */
  function Follow<T>(rows: seq<Row<T>>, cursor: Key, limit: nat): seq<Row<T>>
    requires limit >= 1
    decreases |After(rows, cursor)|
  {
    var p := Page(rows, cursor, limit);
    if |p| < limit then p
    else
      FullPageAdvances(rows, cursor, limit);
      p + Follow(rows, p[limit - 1].key, limit)
  }

  /** How many requests that takes. */
  function Requests<T>(rows: seq<Row<T>>, cursor: Key, limit: nat): nat
    requires limit >= 1
    decreases |After(rows, cursor)|
  {
    var p := Page(rows, cursor, limit);
    if |p| < limit then 1
    else
      FullPageAdvances(rows, cursor, limit);
      1 + Requests(rows, p[limit - 1].key, limit)
  }

  /** No page boundary falls inside a group of rows sharing a key. */
  predicate CleanCuts<T>(rows: seq<Row<T>>, limit: nat)
    requires limit >= 1
    decreases |rows|
  {
    |rows| <= limit || (Less(rows[limit - 1].key, rows[limit].key) && CleanCuts(rows[limit..], limit))
  }

  lemma {:induction false} FollowSuffix<T>(rows: seq<Row<T>>, cursor: Key, limit: nat)
    requires limit >= 1
    ensures Follow(rows, cursor, limit) == Follow(After(rows, cursor), cursor, limit)
    decreases |After(rows, cursor)|
  {
    var rest := After(rows, cursor);
    forall i | 0 <= i < |rest| ensures Less(cursor, rest[i].key) { AfterMembers(rows, cursor, i); }
    AfterAll(rest, cursor);
    var p := Page(rows, cursor, limit);
    if |p| == limit {
      FullPageAdvances(rows, cursor, limit);
      var k := p[limit - 1].key;
      AfterAfter(rows, cursor, k);
      FollowSuffix(rows, k, limit);
      FollowSuffix(rest, k, limit);
    }
  }

  /** The step of a full page over an ordered table: what the next cursor still sees. */
  lemma FullPage<T>(rows: seq<Row<T>>, cursor: Key, limit: nat) returns (d: nat)
    requires limit >= 1 && Ordered(rows) && (forall i | 0 <= i < |rows| :: Less(cursor, rows[i].key)) && |rows| >= limit
    ensures limit <= d <= |rows| && After(rows, rows[limit - 1].key) == rows[d..]
    ensures CutsAt(rows, rows[limit - 1].key, d)
    ensures d == limit <==> (|rows| == limit || Less(rows[limit - 1].key, rows[limit].key))
    ensures Follow(rows, cursor, limit) == rows[..limit] + Follow(rows[d..], rows[limit - 1].key, limit)
  {
    AfterAll(rows, cursor);
    var k := rows[limit - 1].key;
    d := AfterCut(rows, k);
    assert forall i | 0 <= i < limit :: !Less(k, rows[i].key);
    if |rows| == limit { assert rows[..limit] == rows; }
    FollowSuffix(rows, k, limit);
  }

  lemma TailDecides<T>(rows: seq<Row<T>>, limit: nat, d: nat, tail: seq<Row<T>>)
    requires limit <= d <= |rows| && |tail| <= |rows| - d
    ensures |rows[..limit] + tail| <= |rows|
    ensures rows[..limit] + tail == rows <==> d == limit && tail == rows[d..]
  {}

  /** Completeness, exactly: following the cursor yields the whole ordered scan if and only if every row lies
      past the first cursor and no page boundary splits rows that share a key. */
  lemma {:induction false} FollowIsScanIff<T>(rows: seq<Row<T>>, cursor: Key, limit: nat)
    requires limit >= 1 && Ordered(rows) && forall i | 0 <= i < |rows| :: Less(cursor, rows[i].key)
    ensures |Follow(rows, cursor, limit)| <= |rows|
    ensures Follow(rows, cursor, limit) == rows <==> CleanCuts(rows, limit)
    decreases |rows|
  {
    if |rows| < limit {
      AfterAll(rows, cursor);
    } else {
      var d := FullPage(rows, cursor, limit);
      var tail := Follow(rows[d..], rows[limit - 1].key, limit);
      FollowIsScanIff(rows[d..], rows[limit - 1].key, limit);
      TailDecides(rows, limit, d, tail);
      assert d == limit && |rows| == limit ==> CleanCuts(rows[d..], limit);
    }
  }

  /** Rows at or before the first cursor are never seen. */
  lemma CompleteIff<T>(rows: seq<Row<T>>, start: Key, limit: nat)
    requires limit >= 1 && Ordered(rows)
    ensures Follow(rows, start, limit) == rows <==>
            (rows == [] || Less(start, rows[0].key)) && CleanCuts(rows, limit)
  {
    FollowSuffix(rows, start, limit);
    var d := AfterCut(rows, start);
    FollowIsScanIff(rows[d..], start, limit);
    assert d == 0 ==> rows[0..] == rows;
  }

  lemma {:induction false} UniqueCutsClean<T>(rows: seq<Row<T>>, limit: nat)
    requires limit >= 1 && Unique(rows)
    ensures CleanCuts(rows, limit)
    decreases |rows|
  {
    if |rows| > limit { UniqueCutsClean(rows[limit..], limit); }
  }

  lemma {:induction false} SinglesCutAll<T>(rows: seq<Row<T>>)
    requires Ordered(rows) && CleanCuts(rows, 1)
    ensures Unique(rows)
  {
    if |rows| > 1 {
      SinglesCutAll(rows[1..]);
      forall i, j | 0 <= i < j < |rows| ensures Less(rows[i].key, rows[j].key) {
        assert rows[j] == rows[1..][j - 1];
        if i > 0 { assert rows[i] == rows[1..][i - 1]; } else { assert !Less(rows[j].key, rows[1].key); }
      }
    }
  }

  lemma UniqueKeysComplete<T>(rows: seq<Row<T>>, start: Key, limit: nat)
    requires limit >= 1 && Ordered(rows) && (rows == [] || Less(start, rows[0].key)) && Unique(rows)
    ensures Follow(rows, start, limit) == rows
  {
    UniqueCutsClean(rows, limit);
    CompleteIff(rows, start, limit);
  }

  lemma CompleteNeedsUniqueKeys<T>(rows: seq<Row<T>>, start: Key)
    requires Ordered(rows) && Follow(rows, start, 1) == rows
    ensures (rows == [] || Less(start, rows[0].key)) && Unique(rows)
  {
    CompleteIff(rows, start, 1);
    SinglesCutAll(rows);
  }

  ghost predicate CompleteAtEveryLimit<T(!new)>(rows: seq<Row<T>>, start: Key) {
    forall limit: nat | limit >= 1 :: Follow(rows, start, limit) == rows
  }

  /** Complete at every page size if and only if keys are unique and past the first cursor. */
  lemma CompleteAtEveryLimitIff<T(!new)>(rows: seq<Row<T>>, start: Key)
    requires Ordered(rows)
    ensures CompleteAtEveryLimit(rows, start) <==> (rows == [] || Less(start, rows[0].key)) && Unique(rows)
  {
    if (rows == [] || Less(start, rows[0].key)) && Unique(rows) {
      forall limit: nat | limit >= 1 ensures Follow(rows, start, limit) == rows {
        UniqueKeysComplete(rows, start, limit);
      }
    } else if Follow(rows, start, 1) == rows {
      CompleteNeedsUniqueKeys(rows, start);
    }
  }

  /** A complete scan of n rows takes q + 1 requests, where q is n divided by the limit: a multiple of the
      limit costs one more, empty, page. */
  lemma {:induction false} RequestCount<T>(rows: seq<Row<T>>, cursor: Key, limit: nat)
    requires limit >= 1 && Ordered(rows) && CleanCuts(rows, limit)
    requires forall i | 0 <= i < |rows| :: Less(cursor, rows[i].key)
    ensures Requests(rows, cursor, limit) >= 1
    ensures var q := Requests(rows, cursor, limit) - 1; q * limit <= |rows| < q * limit + limit
    decreases |rows|
  {
    AfterAll(rows, cursor);
    if |rows| >= limit {
      var k := rows[limit - 1].key;
      var d := FullPage(rows, cursor, limit);
      RequestCount(rows[limit..], k, limit);
      RequestsSuffix(rows, k, limit);
      var q' := Requests(rows[limit..], k, limit) - 1;
      assert (q' + 1) * limit == q' * limit + limit;
    }
  }

  lemma {:induction false} RequestsSuffix<T>(rows: seq<Row<T>>, cursor: Key, limit: nat)
    requires limit >= 1
    ensures Requests(rows, cursor, limit) == Requests(After(rows, cursor), cursor, limit)
    decreases |After(rows, cursor)|
  {
    var rest := After(rows, cursor);
    forall i | 0 <= i < |rest| ensures Less(cursor, rest[i].key) { AfterMembers(rows, cursor, i); }
    AfterAll(rest, cursor);
    var p := Page(rows, cursor, limit);
    if |p| == limit {
      FullPageAdvances(rows, cursor, limit);
      var k := p[limit - 1].key;
      AfterAfter(rows, cursor, k);
      RequestsSuffix(rows, k, limit);
      RequestsSuffix(rest, k, limit);
    }
  }
}
