/**
 What a receipt may add, written out over the request's entries and the order's lines, and what the statuses mean.
 */
module ReceiveRules {
  import opened Prelude
  import opened Receiving

  /** The line an entry for the item lands on: the order's first for it. */
  predicate Lands(lines: seq<Line>, po: nat, item: nat, i: nat) {
    && i < |lines| && lines[i].po == po && lines[i].item == item
    && forall j | 0 <= j < i :: !(lines[j].po == po && lines[j].item == item)
  }

  /** What the entries landing on a line bring, summed. */
  function QtyOn(lines: seq<Line>, po: nat, es: seq<Entry>, i: nat): int {
    if es == [] then 0
    else QtyOn(lines, po, es[..|es| - 1], i) + if Lands(lines, po, es[|es| - 1].item, i) then es[|es| - 1].qty else 0
  }

  lemma {:induction false} FindLands(lines: seq<Line>, po: nat, item: nat, from: nat)
    requires from <= |lines| && forall j | 0 <= j < from :: !(lines[j].po == po && lines[j].item == item)
    ensures var r := FindLine(lines, po, item, from);
            (r.Some? ==> Lands(lines, po, item, r.value)) && (r.None? ==> forall i: nat :: !Lands(lines, po, item, i))
    decreases |lines| - from
  {
    if from < |lines| && !(lines[from].po == po && lines[from].item == item) { FindLands(lines, po, item, from + 1); }
  }

  lemma LandsOnce(lines: seq<Line>, po: nat, item: nat, i: nat, j: nat)
    requires Lands(lines, po, item, i) && Lands(lines, po, item, j)
    ensures i == j
  {}

  lemma {:induction false} QtyOnGrows(lines: seq<Line>, po: nat, es: seq<Entry>, i: nat)
    requires forall k | 0 <= k < |es| :: es[k].qty >= 1
    ensures QtyOn(lines, po, es, i) >= 0
  {
    if es != [] { QtyOnGrows(lines, po, es[..|es| - 1], i); }
  }

  /** Every entry goes to a bin of the warehouse and to a line of the order. */
  predicate Admissible(lines: seq<Line>, bins: map<nat, nat>, po: nat, warehouse: nat, es: seq<Entry>) {
    forall k | 0 <= k < |es| ::
      es[k].bin in bins && bins[es[k].bin] == warehouse && exists i | 0 <= i < |lines| ::
          Lands(lines, po, es[k].item, i)
  }

  /** No line gets more than remains on it. */
  predicate WithinOrdered(lines: seq<Line>, po: nat, es: seq<Entry>) {
    forall i | 0 <= i < |lines| && QtyOn(lines, po, es, i) > 0 ::
      QtyOn(lines, po, es, i) <= lines[i].ordered - lines[i].received
  }

  predicate Accepts(lines: seq<Line>, bins: map<nat, nat>, po: nat, warehouse: nat, allowOver: bool, es: seq<Entry>) {
    Admissible(lines, bins, po, warehouse, es) && (allowOver || WithinOrdered(lines, po, es))
  }

  /** The lines after the entries: each has what landed on it, and is otherwise the same line. */
  predicate Brought(a: seq<Line>, b: seq<Line>, po: nat, es: seq<Entry>) {
    && |b| == |a|
    && forall i | 0 <= i < |a| ::
         && b[i].po == a[i].po && b[i].item == a[i].item && b[i].ordered == a[i].ordered
         && b[i].received == a[i].received + QtyOn(a, po, es, i)
  }

  lemma SameLanding(a: seq<Line>, b: seq<Line>, po: nat, es: seq<Entry>, item: nat, i: nat)
    requires Brought(a, b, po, es)
    ensures Lands(a, po, item, i) <==> Lands(b, po, item, i)
  {}

  lemma AcceptsFewer(lines: seq<Line>, bins: map<nat, nat>, po: nat, warehouse: nat, allowOver: bool, es: seq<Entry>)
    requires es != [] && (forall k | 0 <= k < |es| :: es[k].qty >= 1)
        && Accepts(lines, bins, po, warehouse, allowOver, es)
    ensures Accepts(lines, bins, po, warehouse, allowOver, es[..|es| - 1])
  {
    var rest := es[..|es| - 1];
    forall k | 0 <= k < |rest|
      ensures rest[k].bin in bins && bins[rest[k].bin] == warehouse
      ensures exists i | 0 <= i < |lines| :: Lands(lines, po, rest[k].item, i)
    {
      assert rest[k] == es[k];
    }
    forall i | 0 <= i < |lines| && QtyOn(lines, po, rest, i) > 0
        ensures QtyOn(lines, po, rest, i) <= QtyOn(lines, po, es, i) {}
  }

  /** With the entries before it received, the last one is accepted exactly when it is admissible and fits. */
  lemma LastEntryIff(db: Db, d: Db, bins: map<nat, nat>, po: nat, warehouse: nat, allowOver: bool, es: seq<Entry>)
    requires es != [] && (forall k | 0 <= k < |es| :: es[k].qty >= 1)
    requires Accepts(db.lines, bins, po, warehouse, allowOver, es[..|es| - 1])
        && Brought(db.lines, d.lines, po, es[..|es| - 1])
    ensures var r := ReceiveEntry(d, bins, po, warehouse, allowOver, es[|es| - 1]);
            && (r.Ok? <==> Accepts(db.lines, bins, po, warehouse, allowOver, es))
            && (r.Ok? ==> Brought(db.lines, r.value.lines, po, es))
  {
    var n, rest, e, lines := |es| - 1, es[..|es| - 1], es[|es| - 1], db.lines;
    FindLands(d.lines, po, e.item, 0);
    var k := FindLine(d.lines, po, e.item, 0);
    forall i: nat ensures Lands(lines, po, e.item, i) <==> k == Some(i) {
      SameLanding(lines, d.lines, po, rest, e.item, i);
      if k.Some? && Lands(lines, po, e.item, i) { LandsOnce(d.lines, po, e.item, i, k.value); }
    }
    assert Admissible(lines, bins, po, warehouse, es) <==> e.bin in bins && bins[e.bin] == warehouse && k.Some? by {
      AdmissibleNext(lines, bins, po, warehouse, es);
    }
    if k.Some? {
      QtyOnGrows(lines, po, rest, k.value);
      forall i | 0 <= i < |lines|
          ensures QtyOn(lines, po, es, i) == QtyOn(lines, po, rest, i) + if k.value == i then e.qty else 0 {}
    }
  }

  lemma AdmissibleNext(lines: seq<Line>, bins: map<nat, nat>, po: nat, warehouse: nat, es: seq<Entry>)
    requires es != [] && Admissible(lines, bins, po, warehouse, es[..|es| - 1])
    ensures var e := es[|es| - 1];
            Admissible(lines, bins, po, warehouse, es) <==>
              e.bin in bins && bins[e.bin] == warehouse && exists i | 0 <= i < |lines| :: Lands(lines, po, e.item, i)
  {
    var n := |es| - 1;
    forall k | 0 <= k < n ensures es[..n][k] == es[k] {}
  }

  lemma {:induction false} EntriesIff(db: Db, bins: map<nat, nat>, po: nat, warehouse: nat, allowOver: bool,
        es: seq<Entry>)
    requires forall k | 0 <= k < |es| :: es[k].qty >= 1
    ensures var r := ReceiveEntries(db, bins, po, warehouse, allowOver, es);
            && (r.Ok? <==> Accepts(db.lines, bins, po, warehouse, allowOver, es))
            && (r.Ok? ==> Brought(db.lines, r.value.lines, po, es))
  {
    if es != [] {
      var rest := es[..|es| - 1];
      EntriesIff(db, bins, po, warehouse, allowOver, rest);
      var r := ReceiveEntries(db, bins, po, warehouse, allowOver, rest);
      if r.Ok? {
        LastEntryIff(db, r.value, bins, po, warehouse, allowOver, es);
      } else if Accepts(db.lines, bins, po, warehouse, allowOver, es) {
        AcceptsFewer(db.lines, bins, po, warehouse, allowOver, es);
      }
    }
  }

  /** A receipt is accepted if and only if the order is open in the caller's scope, every entry goes to a bin of its
      warehouse and a line of it, and, unless over-receipt is allowed, the entries landing on a line sum to no more than
      what remains on it; and then each line has received just that much more. */
  lemma ReceiveAcceptedIff(db: Db, bins: map<nat, nat>, scope: set<nat>, po: nat, allowOver: bool, es: seq<Entry>)
    requires forall k | 0 <= k < |es| :: es[k].qty >= 1
    ensures var r := Receive(db, bins, scope, po, allowOver, es);
            && (r.Ok? <==>
                  && po in db.pos && db.pos[po].warehouse in scope
                  && (db.pos[po].status == Open || db.pos[po].status == Partial)
                  && Admissible(db.lines, bins, po, db.pos[po].warehouse, es)
                  && (allowOver || WithinOrdered(db.lines, po, es)))
            && (r.Ok? ==> Brought(db.lines, r.value.lines, po, es))
  {
    if po in db.pos { EntriesIff(db, bins, po, db.pos[po].warehouse, allowOver, es); }
  }

  // ----- Runs without over-receipt -----

  predicate NoneOver(db: Db) {
    forall i | 0 <= i < |db.lines| :: db.lines[i].received <= db.lines[i].ordered
  }

  predicate Strict(ops: seq<Op>) {
    forall k | 0 <= k < |ops| && ops[k].ReceiveOp? :: !ops[k].allowOver
  }

  lemma ReceiveKeepsNoneOver(db: Db, bins: map<nat, nat>, scope: set<nat>, po: nat, es: seq<Entry>)
    requires NoneOver(db) && (forall k | 0 <= k < |es| :: es[k].qty >= 1) && Receive(db, bins, scope, po, false, es).Ok?
    ensures NoneOver(Receive(db, bins, scope, po, false, es).value)
  {
    ReceiveAcceptedIff(db, bins, scope, po, false, es);
    forall i | 0 <= i < |db.lines| ensures db.lines[i].received + QtyOn(db.lines, po, es, i) <= db.lines[i].ordered {
      QtyOnGrows(db.lines, po, es, i);
    }
  }

  lemma CancelOneKeepsNoneOver(db: Db, scope: set<nat>, id: nat)
    requires Ledger(db) && NoneOver(db)
    ensures NoneOver(CancelOne(db, scope, id))
  {
    var f := FindReceipt(db.receipts, id);
    if f.Some? && f.value.warehouse in scope {
      var k :| 0 <= k < |db.receipts| && db.receipts[k] == f.value;
      assert LineOk(db, f.value.line);
      SumNonNegative(db.receipts, OnLine(f.value.line));
    }
  }

  lemma {:induction false} CancelKeepsNoneOver(db: Db, scope: set<nat>, ids: seq<nat>)
    requires Ledger(db) && NoneOver(db)
    ensures NoneOver(CancelMany(db, scope, ids))
  {
    if ids != [] {
      var n := |ids| - 1;
      CancelKeepsNoneOver(db, scope, ids[..n]);
      CancelManyReceipts(db, scope, ids[..n]);
      CancelOneKeepsNoneOver(CancelMany(db, scope, ids[..n]), scope, ids[n]);
    }
  }

  /** With over-receipt off, no run of receipts and cancels takes a line beyond what was ordered. */
  lemma {:induction false} RunsStayWithinOrdered(db: Db, bins: map<nat, nat>, scope: set<nat>, ops: seq<Op>)
    requires Inv(db) && NoneOver(db) && Strict(ops) && forall k | 0 <= k < |ops| :: WellFormed(ops[k])
    ensures NoneOver(ApplyAll(db, bins, scope, ops))
  {
    if ops != [] {
      var n := |ops| - 1;
      RunsStayWithinOrdered(db, bins, scope, ops[..n]);
      RunsKeepTheBooks(db, bins, scope, ops[..n]);
      var d := ApplyAll(db, bins, scope, ops[..n]);
      match ops[n]
      case ReceiveOp(po, allowOver, es) =>
        if Receive(d, bins, scope, po, false, es).Ok? { ReceiveKeepsNoneOver(d, bins, scope, po, es); }
      case CancelOp(po, ids) => CancelKeepsNoneOver(d, scope, ids);
    }
  }

  // ----- What the statuses mean -----

  /** In every run a line is PENDING with nothing received, RECEIVED with all that was ordered, and PARTIAL between;
      an order with lines that is neither closed nor archived is RECEIVED when each of its lines has all, OPEN when
      none has any and some line lacks some, and PARTIAL between. */
  lemma StatusesMean(db: Db, bins: map<nat, nat>, scope: set<nat>, ops: seq<Op>, i: nat, po: nat)
    requires Inv(db) && forall k | 0 <= k < |ops| :: WellFormed(ops[k])
    ensures var d := ApplyAll(db, bins, scope, ops);
            && (i < |d.lines| ==>
                  var x := d.lines[i];
                  && (x.status == LinePending <==> x.received == 0)
                  && (x.status == LineReceived <==> x.received >= x.ordered)
                  && (x.status == LinePartial <==> 0 < x.received < x.ordered))
            && (po in d.pos && HasLines(d, po) && d.pos[po].status != Closed && d.pos[po].status != Archived ==>
                  var all := forall k | 0 <= k < |d.lines| && d.lines[k].po == po ::
                      d.lines[k].received >= d.lines[k].ordered;
                  var some := exists k | 0 <= k < |d.lines| && d.lines[k].po == po :: d.lines[k].received > 0;
                  && (d.pos[po].status == Received <==> all)
                  && (d.pos[po].status == Partial <==> !all && some)
                  && (d.pos[po].status == Open <==> !all && !some))
  {
    RunsKeepTheBooks(db, bins, scope, ops);
    var d := ApplyAll(db, bins, scope, ops);
    if i < |d.lines| {
      assert LineOk(d, i);
      SumNonNegative(d.receipts, OnLine(i));
    }
    if po in d.pos { assert PoOk(d, po); }
  }
}
