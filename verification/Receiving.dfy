/**
 Receiving against purchase orders, and its inverse, cancelling a session's receipts.
 */
module Receiving {
  import opened Prelude

  datatype PoStatus = Open | Partial | Received | Closed | Archived

  datatype LineStatus = LinePending | LinePartial | LineReceived

  datatype Po = Po(warehouse: nat, status: PoStatus)

  datatype Line = Line(po: nat, item: nat, ordered: int, received: int, status: LineStatus)

  datatype Receipt = Receipt(id: nat, po: nat, line: nat, item: nat, qty: int, bin: nat, warehouse: nat,
        lot: Option<string>)

  /** UNIQUE (item_id, bin_id, lot_number); the bin fixes the warehouse. */
  datatype Loc = Loc(item: nat, bin: nat, lot: Option<string>)

  datatype Entry = Entry(item: nat, qty: int, bin: nat, lot: Option<string>)

  /** Lines are indexed by po_line_id, receipts listed in insertion order. */
  datatype Db = Db(pos: map<nat, Po>, lines: seq<Line>, receipts: seq<Receipt>, nextReceipt: nat, stock: map<Loc, int>)

  function OnHand(stock: map<Loc, int>, l: Loc): int {
    if l in stock then stock[l] else 0
  }

  // ----- Statuses as functions of quantities -----

  function LineStatusOf(received: int, ordered: int): LineStatus {
    if received == 0 then LinePending else if received >= ordered then LineReceived else LinePartial
  }

  function PoStatusOf(lines: seq<Line>, po: nat): PoStatus {
    if forall i | 0 <= i < |lines| && lines[i].po == po :: lines[i].received >= lines[i].ordered then Received
    else if exists i | 0 <= i < |lines| && lines[i].po == po :: lines[i].received > 0 then Partial
    else Open
  }

  // ----- Receive -----

  /** The line an entry lands on: the first of the PO for that item. */
  function FindLine(lines: seq<Line>, po: nat, item: nat, from: nat): (r: Option<nat>)
    requires from <= |lines|
    ensures r.Some? ==> from <= r.value < |lines| && lines[r.value].po == po && lines[r.value].item == item
    decreases |lines| - from
  {
    if from == |lines| then None
    else if lines[from].po == po && lines[from].item == item then Some(from)
    else FindLine(lines, po, item, from + 1)
  }

  datatype Refusal =
    | PoNotFound | CannotReceive | BinNotFound | WrongWarehouse | NotOnPo | OverReceipt | SpansPurchaseOrders

  datatype Outcome<T> = Ok(value: T) | Refused(why: Refusal)

  function ReceiveEntry(db: Db, bins: map<nat, nat>, po: nat, warehouse: nat, allowOver: bool,
        e: Entry): (r: Outcome<Db>)
    ensures r.Ok? ==> |r.value.lines| == |db.lines| && r.value.pos == db.pos
  {
    if e.bin !in bins then Refused(BinNotFound)
    else if bins[e.bin] != warehouse then Refused(WrongWarehouse)
    else
      var k := FindLine(db.lines, po, e.item, 0);
      if k.None? then Refused(NotOnPo)
      else
        var line := db.lines[k.value];
        if e.qty > line.ordered - line.received && !allowOver then Refused(OverReceipt)
        else
          var got := line.received + e.qty;
          var loc := Loc(e.item, e.bin, e.lot);
          Ok(Db(db.pos,
                db.lines[k.value :=
                    line.(received := got, status := if got >= line.ordered then LineReceived else LinePartial)],
                db.receipts + [Receipt(db.nextReceipt, po, k.value, e.item, e.qty, e.bin, warehouse, e.lot)],
                db.nextReceipt + 1,
                db.stock[loc := OnHand(db.stock, loc) + e.qty]))
  }

  function ReceiveEntries(db: Db, bins: map<nat, nat>, po: nat, warehouse: nat, allowOver: bool,
        es: seq<Entry>): (r: Outcome<Db>)
    ensures r.Ok? ==> |r.value.lines| == |db.lines| && r.value.pos == db.pos
  {
    if es == [] then Ok(db)
    else
      var r := ReceiveEntries(db, bins, po, warehouse, allowOver, es[..|es| - 1]);
      if r.Refused? then r else ReceiveEntry(r.value, bins, po, warehouse, allowOver, es[|es| - 1])
  }

  /** The PO status `receive_items` writes, from line statuses. */
  function StatusAfterReceive(lines: seq<Line>, po: nat): PoStatus {
    if forall i | 0 <= i < |lines| && lines[i].po == po :: lines[i].status == LineReceived then Received else Partial
  }

  function Receive(db: Db, bins: map<nat, nat>, scope: set<nat>, po: nat, allowOver: bool,
        es: seq<Entry>): Outcome<Db> {
    if po !in db.pos || db.pos[po].warehouse !in scope then Refused(PoNotFound)
    else if db.pos[po].status != Open && db.pos[po].status != Partial then Refused(CannotReceive)
    else
      var r := ReceiveEntries(db, bins, po, db.pos[po].warehouse, allowOver, es);
      if r.Refused? then r
      else Ok(r.value.(pos := db.pos[po := db.pos[po].(status := StatusAfterReceive(r.value.lines, po))]))
  }

  // ----- Cancel -----

  function FindReceipt(rs: seq<Receipt>, id: nat): (r: Option<Receipt>)
    ensures r.Some? ==> r.value in rs && r.value.id == id
  {
    if rs == [] then None else if rs[0].id == id then Some(rs[0]) else FindReceipt(rs[1..], id)
  }

  function Without(rs: seq<Receipt>, id: nat): seq<Receipt> {
    if rs == [] then [] else (if rs[0].id == id then [] else [rs[0]]) + Without(rs[1..], id)
  }

  function Max0(x: int): int {
    if x > 0 then x else 0
  }

  /** GREATEST(0, quantity_on_hand - qty) on every row of the item in the bin, whatever its lot. */
  function TakeBack(stock: map<Loc, int>, item: nat, bin: nat, qty: int): map<Loc, int> {
    map l | l in stock :: if l.item == item && l.bin == bin then Max0(stock[l] - qty) else stock[l]
  }

  /** The three statements that undo a receipt as it was read: its stock, its line, and its row. */
  function Reversed(db: Db, x: Receipt): (r: Db)
    ensures |r.lines| == |db.lines| && r.pos == db.pos
  {
    db.(stock := TakeBack(db.stock, x.item, x.bin, x.qty),
        lines := if x.line >= |db.lines| then db.lines
                 else var line := db.lines[x.line];
                      var left := Max0(line.received - x.qty);
                      db.lines[x.line := line.(received := left, status := LineStatusOf(left, line.ordered))],
        receipts := Without(db.receipts, x.id))
  }

  function CancelOne(db: Db, scope: set<nat>, id: nat): (r: Db)
    ensures |r.lines| == |db.lines| && r.pos == db.pos
  {
    var f := FindReceipt(db.receipts, id);
    if f.None? || f.value.warehouse !in scope then db else Reversed(db, f.value)
  }

  function CancelMany(db: Db, scope: set<nat>, ids: seq<nat>): (r: Db)
    ensures |r.lines| == |db.lines| && r.pos == db.pos
  {
    if ids == [] then db else CancelOne(CancelMany(db, scope, ids[..|ids| - 1]), scope, ids[|ids| - 1])
  }

  predicate Mismatched(db: Db, scope: set<nat>, po: nat, ids: seq<nat>) {
    exists k | 0 <= k < |db.receipts| ::
        db.receipts[k].id in ids && db.receipts[k].po != po && db.receipts[k].warehouse in scope
  }

  function Cancel(db: Db, scope: set<nat>, po: nat, ids: seq<nat>): Outcome<Db> {
    if ids == [] then Ok(db)
    else if Mismatched(db, scope, po, ids) then Refused(SpansPurchaseOrders)
    else
      var d := CancelMany(db, scope, ids);
      Ok(if po in d.pos then d.(pos := d.pos[po := d.pos[po].(status := PoStatusOf(d.lines, po))]) else d)
  }

  // ----- Invariant -----

  /** Total quantity of the receipts selected by `f`. */
  function SumWhere(rs: seq<Receipt>, f: Receipt -> bool): int {
    if rs == [] then 0 else SumWhere(rs[..|rs| - 1], f) + if f(rs[|rs| - 1]) then rs[|rs| - 1].qty else 0
  }

  function OnLine(line: nat): Receipt -> bool {
    (x: Receipt) => x.line == line
  }

  function InBin(item: nat, bin: nat): Receipt -> bool {
    (x: Receipt) => x.item == item && x.bin == bin
  }

  function InLot(l: Loc): Receipt -> bool {
    (x: Receipt) => x.item == l.item && x.bin == l.bin && x.lot == l.lot
  }

  function ReceivedOn(rs: seq<Receipt>, line: nat): int {
    SumWhere(rs, OnLine(line))
  }

  predicate ReceiptsOk(db: Db) {
    && (forall k | 0 <= k < |db.receipts| ::
          && db.receipts[k].id < db.nextReceipt && db.receipts[k].qty >= 1 && db.receipts[k].line < |db.lines|
          && db.lines[db.receipts[k].line].po == db.receipts[k].po)
    && (forall j, k | 0 <= j < k < |db.receipts| :: db.receipts[j].id < db.receipts[k].id)
  }

  predicate LineOk(db: Db, i: nat)
    requires i < |db.lines|
  {
    && db.lines[i].ordered >= 1
    && db.lines[i].received == ReceivedOn(db.receipts, i)
    && db.lines[i].status == LineStatusOf(db.lines[i].received, db.lines[i].ordered)
  }

  predicate HasLines(db: Db, po: nat) {
    exists i | 0 <= i < |db.lines| :: db.lines[i].po == po
  }

  /** Of a PO that has lines and is still in the receiving lifecycle. */
  predicate PoOk(db: Db, po: nat)
    requires po in db.pos
  {
    HasLines(db, po) && db.pos[po].status != Closed && db.pos[po].status != Archived ==>
      db.pos[po].status == PoStatusOf(db.lines, po)
  }

  predicate Ledger(db: Db) {
    ReceiptsOk(db) && forall i | 0 <= i < |db.lines| :: LineOk(db, i)
  }

  predicate Inv(db: Db) {
    Ledger(db) && forall po | po in db.pos :: PoOk(db, po)
  }

  lemma {:induction false} SumNonNegative(rs: seq<Receipt>, f: Receipt -> bool)
    requires forall k | 0 <= k < |rs| :: rs[k].qty >= 1
    ensures SumWhere(rs, f) >= 0
  {
    if rs != [] { SumNonNegative(rs[..|rs| - 1], f); }
  }

  lemma SumSnoc(rs: seq<Receipt>, x: Receipt, f: Receipt -> bool)
    ensures SumWhere(rs + [x], f) == SumWhere(rs, f) + if f(x) then x.qty else 0
  {}

  lemma EntryKeepsLedger(db: Db, bins: map<nat, nat>, po: nat, warehouse: nat, allowOver: bool, e: Entry)
    requires Ledger(db) && e.qty >= 1 && ReceiveEntry(db, bins, po, warehouse, allowOver, e).Ok?
    ensures Ledger(ReceiveEntry(db, bins, po, warehouse, allowOver, e).value)
  {
    var d := ReceiveEntry(db, bins, po, warehouse, allowOver, e).value;
    var x := d.receipts[|db.receipts|];
    assert d.receipts == db.receipts + [x];
    forall i | 0 <= i < |d.lines| ensures LineOk(d, i) {
      assert LineOk(db, i);
      SumSnoc(db.receipts, x, OnLine(i));
      SumNonNegative(db.receipts, OnLine(i));
    }
  }

  // ----- Removing receipts -----

  lemma {:induction false} SumPrepend(x: Receipt, rs: seq<Receipt>, f: Receipt -> bool)
    ensures SumWhere([x] + rs, f) == (if f(x) then x.qty else 0) + SumWhere(rs, f)
  {
    if rs == [] {
      assert [x] + rs == [x] && [x][..0] == [];
    } else {
      SumPrepend(x, rs[..|rs| - 1], f);
      assert ([x] + rs)[..|rs|] == [x] + rs[..|rs| - 1];
    }
  }

  predicate DistinctIds(rs: seq<Receipt>) {
    forall j, k | 0 <= j < k < |rs| :: rs[j].id < rs[k].id
  }

  lemma {:induction false} WithoutMissing(rs: seq<Receipt>, id: nat)
    requires forall k | 0 <= k < |rs| :: rs[k].id != id
    ensures Without(rs, id) == rs && FindReceipt(rs, id).None?
  {
    if rs != [] { WithoutMissing(rs[1..], id); }
  }

  lemma {:induction false} WithoutOne(rs: seq<Receipt>, id: nat)
    requires DistinctIds(rs) && FindReceipt(rs, id).Some?
    ensures |Without(rs, id)| == |rs| - 1
  {
    if rs[0].id == id { WithoutMissing(rs[1..], id); } else { WithoutOne(rs[1..], id); }
  }

  /** Deleting a found receipt takes exactly its quantity off every sum that counted it. */
  lemma {:induction false} WithoutFound(rs: seq<Receipt>, id: nat, f: Receipt -> bool)
    requires DistinctIds(rs) && FindReceipt(rs, id).Some?
    ensures var x := FindReceipt(rs, id).value;
            SumWhere(rs, f) == SumWhere(Without(rs, id), f) + if f(x) then x.qty else 0
  {
    assert rs == [rs[0]] + rs[1..];
    SumPrepend(rs[0], rs[1..], f);
    if rs[0].id == id {
      WithoutMissing(rs[1..], id);
      assert [] + rs[1..] == rs[1..];
    } else {
      WithoutFound(rs[1..], id, f);
      SumPrepend(rs[0], Without(rs[1..], id), f);
    }
  }

  lemma HeadIsLeast(rs: seq<Receipt>)
    requires DistinctIds(rs) && rs != []
    ensures forall x | x in rs[1..] :: rs[0].id < x.id
  {
    forall x | x in rs[1..] ensures rs[0].id < x.id {
      var j :| 0 <= j < |rs[1..]| && rs[1..][j] == x;
      assert rs[j + 1] == x;
    }
  }

  lemma {:induction false} WithoutKeeps(rs: seq<Receipt>, id: nat, x: Receipt)
    ensures x in Without(rs, id) <==> x in rs && x.id != id
  {
    if rs != [] {
      WithoutKeeps(rs[1..], id, x);
      assert rs == [rs[0]] + rs[1..];
    }
  }

  lemma {:induction false} WithoutOrdered(rs: seq<Receipt>, id: nat)
    requires DistinctIds(rs)
    ensures DistinctIds(Without(rs, id))
  {
    if rs != [] {
      WithoutOrdered(rs[1..], id);
      HeadIsLeast(rs);
      var rest := Without(rs[1..], id);
      forall k | 0 <= k < |rest| ensures rs[0].id < rest[k].id { WithoutKeeps(rs[1..], id, rest[k]); }
    }
  }

  lemma WithoutMembers(rs: seq<Receipt>, id: nat)
    requires DistinctIds(rs)
    ensures DistinctIds(Without(rs, id))
    ensures forall x :: x in Without(rs, id) <==> x in rs && x.id != id
  {
    WithoutOrdered(rs, id);
    forall x ensures x in Without(rs, id) <==> x in rs && x.id != id { WithoutKeeps(rs, id, x); }
  }

  lemma {:induction false} FindIffMember(rs: seq<Receipt>, id: nat)
    ensures FindReceipt(rs, id).Some? <==> exists k | 0 <= k < |rs| :: rs[k].id == id
  {
    if rs != [] {
      FindIffMember(rs[1..], id);
      if k :| 0 <= k < |rs| && rs[k].id == id {
        if k > 0 { assert rs[1..][k - 1] == rs[k]; }
      }
    }
  }

  lemma CancelOneKeepsReceipts(db: Db, scope: set<nat>, id: nat)
    requires Ledger(db)
    ensures ReceiptsOk(CancelOne(db, scope, id))
  {
    var d := CancelOne(db, scope, id);
    WithoutMembers(db.receipts, id);
    forall k | 0 <= k < |d.receipts|
      ensures d.receipts[k].id < d.nextReceipt && d.receipts[k].qty >= 1 && d.receipts[k].line < |d.lines|
      ensures d.lines[d.receipts[k].line].po == d.receipts[k].po
    {
      assert d.receipts[k] in d.receipts;
    }
  }

  lemma CancelOneKeepsLedger(db: Db, scope: set<nat>, id: nat)
    requires Ledger(db)
    ensures Ledger(CancelOne(db, scope, id))
  {
    var d, f := CancelOne(db, scope, id), FindReceipt(db.receipts, id);
    CancelOneKeepsReceipts(db, scope, id);
    forall i | 0 <= i < |d.lines| ensures LineOk(d, i) {
      assert LineOk(db, i);
      if f.Some? && f.value.warehouse in scope {
        WithoutFound(db.receipts, id, OnLine(i));
        SumNonNegative(d.receipts, OnLine(i));
      }
    }
  }

  // ----- Whole operations -----

  /** Only lines of this PO changed, and only in what has been received. */
  predicate OnlyThisPo(a: seq<Line>, b: seq<Line>, po: nat) {
    && |a| == |b|
    && forall i | 0 <= i < |a| ::
         b[i].po == a[i].po && b[i].item == a[i].item && b[i].ordered == a[i].ordered
             && (a[i].po != po ==> b[i] == a[i])
  }

  lemma OtherPosKeepStatus(a: seq<Line>, b: seq<Line>, po: nat, q: nat)
    requires OnlyThisPo(a, b, po) && q != po
    ensures PoStatusOf(a, q) == PoStatusOf(b, q)
  {}

  lemma {:induction false} EntriesKeepLedger(db: Db, bins: map<nat, nat>, po: nat, warehouse: nat, allowOver: bool,
        es: seq<Entry>)
    requires Ledger(db) && (forall k | 0 <= k < |es| :: es[k].qty >= 1)
    requires ReceiveEntries(db, bins, po, warehouse, allowOver, es).Ok?
    ensures var d := ReceiveEntries(db, bins, po, warehouse, allowOver, es).value;
            && Ledger(d) && OnlyThisPo(db.lines, d.lines, po)
            && (es != [] ==> exists i | 0 <= i < |d.lines| :: d.lines[i].po == po && d.lines[i].received > 0)
  {
    if es != [] {
      var n := |es| - 1;
      EntriesKeepLedger(db, bins, po, warehouse, allowOver, es[..n]);
      var m := ReceiveEntries(db, bins, po, warehouse, allowOver, es[..n]).value;
      EntryKeepsLedger(m, bins, po, warehouse, allowOver, es[n]);
      var d := ReceiveEntry(m, bins, po, warehouse, allowOver, es[n]).value;
      var k := FindLine(m.lines, po, es[n].item, 0).value;
      assert LineOk(m, k);
      SumNonNegative(m.receipts, OnLine(k));
      assert d.lines[k].po == po && d.lines[k].received > 0;
    }
  }

  /** With every line ordered at least once, the two ways the code derives a PO's status agree. */
  lemma StatusesAgree(db: Db, po: nat)
    requires Ledger(db) && exists i | 0 <= i < |db.lines| :: db.lines[i].po == po && db.lines[i].received > 0
    ensures StatusAfterReceive(db.lines, po) == PoStatusOf(db.lines, po)
  {
    forall i | 0 <= i < |db.lines|
      ensures db.lines[i].status == LineReceived <==> db.lines[i].received >= db.lines[i].ordered
    {
      assert LineOk(db, i);
    }
  }

  predicate LedgerSame(a: Db, b: Db) {
    a.lines == b.lines && a.receipts == b.receipts && a.nextReceipt == b.nextReceipt
  }

  lemma LedgerFrame(a: Db, b: Db)
    requires Ledger(a) && LedgerSame(a, b)
    ensures Ledger(b)
  {
    forall i | 0 <= i < |b.lines| ensures LineOk(b, i) { assert LineOk(a, i); }
  }

  lemma ReceiveKeepsInv(db: Db, bins: map<nat, nat>, scope: set<nat>, po: nat, allowOver: bool, es: seq<Entry>)
    requires Inv(db) && es != [] && (forall k | 0 <= k < |es| :: es[k].qty >= 1)
    requires Receive(db, bins, scope, po, allowOver, es).Ok?
    ensures Inv(Receive(db, bins, scope, po, allowOver, es).value)
  {
    var d := Receive(db, bins, scope, po, allowOver, es).value;
    var m := ReceiveEntries(db, bins, po, db.pos[po].warehouse, allowOver, es).value;
    EntriesKeepLedger(db, bins, po, db.pos[po].warehouse, allowOver, es);
    StatusesAgree(m, po);
    LedgerFrame(m, d);
    forall q | q in d.pos ensures PoOk(d, q) {
      assert PoOk(db, q);
      if q != po { OtherPosKeepStatus(db.lines, d.lines, po, q); }
    }
  }

  /** Which receipts survive does not depend on the order of the list, nor on repetitions in it. */
  lemma {:induction false} CancelManyReceipts(db: Db, scope: set<nat>, ids: seq<nat>)
    requires Ledger(db)
    ensures var d := CancelMany(db, scope, ids);
            && Ledger(d) && d.nextReceipt == db.nextReceipt
            && (forall x :: x in d.receipts <==> x in db.receipts && !(x.id in ids && x.warehouse in scope))
  {
    if ids != [] {
      var n := |ids| - 1;
      CancelManyReceipts(db, scope, ids[..n]);
      var m := CancelMany(db, scope, ids[..n]);
      CancelOneKeepsLedger(m, scope, ids[n]);
      CancelOneShape(m, scope, ids[n]);
      assert forall x: nat :: x in ids <==> x in ids[..n] || x == ids[n];
    }
  }

  lemma CancelOneLines(db: Db, scope: set<nat>, po: nat, id: nat)
    requires Ledger(db) && forall x | x in db.receipts && x.id == id && x.warehouse in scope :: x.po == po
    ensures OnlyThisPo(db.lines, CancelOne(db, scope, id).lines, po)
  {}

  lemma {:induction false} CancelManyLines(db: Db, scope: set<nat>, po: nat, ids: seq<nat>)
    requires Ledger(db) && forall x | x in db.receipts && x.id in ids && x.warehouse in scope :: x.po == po
    ensures OnlyThisPo(db.lines, CancelMany(db, scope, ids).lines, po)
  {
    if ids != [] {
      var n := |ids| - 1;
      CancelManyReceipts(db, scope, ids[..n]);
      CancelManyLines(db, scope, po, ids[..n]);
      CancelOneLines(CancelMany(db, scope, ids[..n]), scope, po, ids[n]);
    }
  }

  lemma CancelOneShape(db: Db, scope: set<nat>, id: nat)
    requires Ledger(db)
    ensures var d := CancelOne(db, scope, id);
            && d.nextReceipt == db.nextReceipt
            && (forall x :: x in d.receipts <==> x in db.receipts && !(x.id == id && x.warehouse in scope))
  {
    var f := FindReceipt(db.receipts, id);
    FindIffMember(db.receipts, id);
    WithoutMembers(db.receipts, id);
    forall x | x in db.receipts && x.id == id ensures f.Some? && f.value == x {
      var k :| 0 <= k < |db.receipts| && db.receipts[k] == x;
      assert db.receipts[k].id == id;
      var j :| 0 <= j < |db.receipts| && db.receipts[j] == f.value;
    }
  }

  lemma CancelLeavesOthers(db: Db, scope: set<nat>, po: nat, ids: seq<nat>)
    requires Ledger(db) && !Mismatched(db, scope, po, ids)
    ensures Ledger(CancelMany(db, scope, ids)) && OnlyThisPo(db.lines, CancelMany(db, scope, ids).lines, po)
  {
    CancelManyReceipts(db, scope, ids);
    forall x | x in db.receipts && x.id in ids && x.warehouse in scope ensures x.po == po {
      var k :| 0 <= k < |db.receipts| && db.receipts[k] == x;
    }
    CancelManyLines(db, scope, po, ids);
  }

  /** Cancel leaves the PO's status a function of its quantities, whatever it was before. */
  lemma CancelKeepsInv(db: Db, scope: set<nat>, po: nat, ids: seq<nat>)
    requires Inv(db) && Cancel(db, scope, po, ids).Ok?
    ensures var d := Cancel(db, scope, po, ids).value;
            Inv(d) && (ids != [] && po in d.pos ==> d.pos[po].status == PoStatusOf(d.lines, po))
  {
    if ids != [] {
      var m, d := CancelMany(db, scope, ids), Cancel(db, scope, po, ids).value;
      CancelLeavesOthers(db, scope, po, ids);
      LedgerFrame(m, d);
      forall q | q in d.pos ensures PoOk(d, q) {
        assert PoOk(db, q);
        if q != po { OtherPosKeepStatus(db.lines, d.lines, po, q); }
      }
    }
  }

  // ----- Runs -----

  datatype Op =
    | ReceiveOp(po: nat, allowOver: bool, es: seq<Entry>)
    | CancelOp(po: nat, ids: seq<nat>)

  /** Request schemas: at least one entry, quantities positive. */
  predicate WellFormed(op: Op) {
    op.ReceiveOp? ==> op.es != [] && forall k | 0 <= k < |op.es| :: op.es[k].qty >= 1
  }

  /** A refused request rolls back. */
  function Apply(db: Db, bins: map<nat, nat>, scope: set<nat>, op: Op): Db {
    var r := match op
      case ReceiveOp(po, allowOver, es) => Receive(db, bins, scope, po, allowOver, es)
      case CancelOp(po, ids) => Cancel(db, scope, po, ids);
    if r.Ok? then r.value else db
  }

  function ApplyAll(db: Db, bins: map<nat, nat>, scope: set<nat>, ops: seq<Op>): Db {
    if ops == [] then db else Apply(ApplyAll(db, bins, scope, ops[..|ops| - 1]), bins, scope, ops[|ops| - 1])
  }

  /** Every run keeps each line's received quantity equal to its surviving receipts and every status a
      function of quantities. */
  lemma {:induction false} RunsKeepTheBooks(db: Db, bins: map<nat, nat>, scope: set<nat>, ops: seq<Op>)
    requires Inv(db) && forall k | 0 <= k < |ops| :: WellFormed(ops[k])
    ensures Inv(ApplyAll(db, bins, scope, ops))
  {
    if ops != [] {
      var n := |ops| - 1;
      RunsKeepTheBooks(db, bins, scope, ops[..n]);
      var d := ApplyAll(db, bins, scope, ops[..n]);
      match ops[n]
      case ReceiveOp(po, allowOver, es) =>
        if Receive(d, bins, scope, po, allowOver, es).Ok? { ReceiveKeepsInv(d, bins, scope, po, allowOver, es); }
      case CancelOp(po, ids) =>
        if Cancel(d, scope, po, ids).Ok? { CancelKeepsInv(d, scope, po, ids); }
    }
  }

  // ----- Cancelling what was received -----

  lemma {:induction false} SortedSame(a: seq<Receipt>, b: seq<Receipt>)
    requires DistinctIds(a) && DistinctIds(b) && forall x :: x in a <==> x in b
    ensures a == b
  {
    assert a != [] ==> a[0] in a;
    assert b != [] ==> b[0] in b;
    if a != [] && b != [] {
      var i :| 0 <= i < |b| && b[i] == a[0];
      var j :| 0 <= j < |a| && a[j] == b[0];
      assert a[0] == b[0];
      TailMembers(a, b);
      TailMembers(b, a);
      SortedSame(a[1..], b[1..]);
    }
  }

  lemma TailMembers(a: seq<Receipt>, b: seq<Receipt>)
    requires a != [] && b != [] && a[0] == b[0] && DistinctIds(a) && forall x :: x in a ==> x in b
    ensures forall x :: x in a[1..] ==> x in b[1..]
  {
    forall x | x in a[1..] ensures x in b[1..] {
      var i :| 0 <= i < |a[1..]| && a[1..][i] == x;
      assert a[i + 1] == x && x in a;
      var j :| 0 <= j < |b| && b[j] == x;
      assert j != 0 && b[1..][j - 1] == x;
    }
  }

  /** What a batch adds: one receipt per entry, numbered on, and its stock on its own row. */
  ghost predicate Added(db: Db, d: Db, batch: seq<Receipt>, po: nat, warehouse: nat) {
    && d.receipts == db.receipts + batch
    && d.nextReceipt == db.nextReceipt + |batch|
    && (forall k | 0 <= k < |batch| ::
        batch[k].id == db.nextReceipt + k && batch[k].po == po && batch[k].warehouse == warehouse && batch[k].qty >= 1)
    && StockAdded(db.stock, d.stock, batch)
  }

  ghost predicate StockAdded(a: map<Loc, int>, b: map<Loc, int>, batch: seq<Receipt>) {
    forall l :: OnHand(b, l) == OnHand(a, l) + SumWhere(batch, InLot(l))
  }

  /** The receipt an entry leaves behind. */
  predicate Records(x: Receipt, e: Entry) {
    x.item == e.item && x.bin == e.bin && x.lot == e.lot && x.qty == e.qty
  }

  lemma EntryAdds(db: Db, bins: map<nat, nat>, po: nat, warehouse: nat, allowOver: bool, e: Entry) returns (x: Receipt)
    requires ReceiveEntry(db, bins, po, warehouse, allowOver, e).Ok? && e.qty >= 1
    ensures Records(x, e) && Added(db, ReceiveEntry(db, bins, po, warehouse, allowOver, e).value, [x], po, warehouse)
  {
    var d := ReceiveEntry(db, bins, po, warehouse, allowOver, e).value;
    x := d.receipts[|db.receipts|];
    assert [x][..0] == [];
    forall l ensures OnHand(d.stock, l) == OnHand(db.stock, l) + SumWhere([x], InLot(l)) {
      assert l == Loc(e.item, e.bin, e.lot) <==> InLot(l)(x);
    }
  }

  lemma AddedTwice(a: Db, b: Db, c: Db, xs: seq<Receipt>, x: Receipt, po: nat, warehouse: nat)
    requires Added(a, b, xs, po, warehouse) && Added(b, c, [x], po, warehouse)
    ensures Added(a, c, xs + [x], po, warehouse)
  {
    assert a.receipts + xs + [x] == a.receipts + (xs + [x]);
    assert [x][..0] == [];
    assert [x][0] == x;
    forall l ensures OnHand(c.stock, l) == OnHand(a.stock, l) + SumWhere(xs + [x], InLot(l)) {
      SumSnoc(xs, x, InLot(l));
      SumSnoc([], x, InLot(l));
      assert [] + [x] == [x];
    }
  }

  lemma AddedNone(db: Db, po: nat, warehouse: nat)
    ensures Added(db, db, [], po, warehouse)
  {}

  predicate AllRecorded(batch: seq<Receipt>, es: seq<Entry>) {
    |batch| == |es| && forall k | 0 <= k < |es| :: Records(batch[k], es[k])
  }

  lemma {:induction false} EntriesAdd(db: Db, bins: map<nat, nat>, po: nat, warehouse: nat, allowOver: bool,
        es: seq<Entry>) returns (batch: seq<Receipt>)
    requires ReceiveEntries(db, bins, po, warehouse, allowOver, es).Ok? && forall k | 0 <= k < |es| :: es[k].qty >= 1
    ensures Added(db, ReceiveEntries(db, bins, po, warehouse, allowOver, es).value, batch, po, warehouse)
    ensures AllRecorded(batch, es)
  {
    if es == [] {
      batch := [];
      AddedNone(db, po, warehouse);
    } else {
      var n := |es| - 1;
      var r := ReceiveEntries(db, bins, po, warehouse, allowOver, es[..n]);
      assert ReceiveEntries(db, bins, po, warehouse, allowOver, es) ==
          ReceiveEntry(r.value, bins, po, warehouse, allowOver, es[n]);
      var rest := EntriesAdd(db, bins, po, warehouse, allowOver, es[..n]);
      var x := EntryAdds(r.value, bins, po, warehouse, allowOver, es[n]);
      AddedTwice(db, r.value, ReceiveEntry(r.value, bins, po, warehouse, allowOver, es[n]).value, rest, x, po,
          warehouse);
      batch := rest + [x];
    }
  }

  predicate NonNegative(stock: map<Loc, int>) {
    forall l | l in stock :: stock[l] >= 0
  }

  function BinTotal(db: Db, l: Loc): int {
    SumWhere(db.receipts, InBin(l.item, l.bin))
  }

  /** The row lost what its bin's deleted receipts had brought, clamped at zero. */
  predicate TakenBack(a: Db, b: Db, l: Loc) {
    BinTotal(b, l) <= BinTotal(a, l)
        && OnHand(b.stock, l) == Max0(OnHand(a.stock, l) - (BinTotal(a, l) - BinTotal(b, l)))
  }

  lemma TakenBackTwice(a: Db, b: Db, c: Db, l: Loc)
    requires TakenBack(a, b, l) && TakenBack(b, c, l)
    ensures TakenBack(a, c, l)
  {}

  /** What a receipt brought comes off every row of its item and bin. */
  lemma UndoneStock(db: Db, x: Receipt, l: Loc)
    requires DistinctIds(db.receipts) && FindReceipt(db.receipts, x.id) == Some(x) && x.qty >= 1
    requires NonNegative(db.stock)
    ensures TakenBack(db, Reversed(db, x), l)
  {
    WithoutFound(db.receipts, x.id, InBin(l.item, l.bin));
  }

  lemma CancelOneStock(db: Db, scope: set<nat>, id: nat, l: Loc)
    requires Ledger(db) && NonNegative(db.stock)
    ensures var d := CancelOne(db, scope, id);
            NonNegative(d.stock) && TakenBack(db, d, l)
  {
    var f := FindReceipt(db.receipts, id);
    if f.Some? && f.value.warehouse in scope {
      var k :| 0 <= k < |db.receipts| && db.receipts[k] == f.value;
      UndoneStock(db, f.value, l);
    }
  }

  /** Clamping one subtraction at a time comes to clamping the total once. */
  lemma {:induction false} CancelManyStock(db: Db, scope: set<nat>, ids: seq<nat>, l: Loc)
    requires Ledger(db) && NonNegative(db.stock)
    ensures var d := CancelMany(db, scope, ids);
            NonNegative(d.stock) && TakenBack(db, d, l)
  {
    if ids != [] {
      var n := |ids| - 1;
      CancelManyStock(db, scope, ids[..n], l);
      CancelManyReceipts(db, scope, ids[..n]);
      var m := CancelMany(db, scope, ids[..n]);
      CancelOneStock(m, scope, ids[n], l);
      TakenBackTwice(db, m, CancelOne(m, scope, ids[n]), l);
    }
  }

  lemma {:induction false} SumAppend(a: seq<Receipt>, b: seq<Receipt>, f: Receipt -> bool)
    ensures SumWhere(a + b, f) == SumWhere(a, f) + SumWhere(b, f)
  {
    if b == [] {
      assert a + b == a;
    } else {
      SumAppend(a, b[..|b| - 1], f);
      assert (a + b)[..|a + b| - 1] == a + b[..|b| - 1];
    }
  }

  lemma {:induction false} LotWithinBin(rs: seq<Receipt>, l: Loc)
    requires forall k | 0 <= k < |rs| :: rs[k].qty >= 1
    ensures 0 <= SumWhere(rs, InLot(l)) <= SumWhere(rs, InBin(l.item, l.bin))
  {
    if rs != [] { LotWithinBin(rs[..|rs| - 1], l); }
  }

  /** `ids` names exactly the receipts of one batch, in any order, with any repetition. */
  predicate NamesBatch(ids: seq<nat>, db: Db, d: Db) {
    (forall k | 0 <= k < |ids| :: db.nextReceipt <= ids[k] < d.nextReceipt)
        && forall x: nat | db.nextReceipt <= x < d.nextReceipt :: x in ids
  }

  /** Old receipts have old numbers, the batch's have new ones. */
  lemma OldOrBatch(db: Db, d: Db, batch: seq<Receipt>, po: nat, warehouse: nat, x: Receipt)
    requires ReceiptsOk(db) && Added(db, d, batch, po, warehouse)
    ensures x in d.receipts <==> x in db.receipts || x in batch
    ensures x in db.receipts ==> x.id < db.nextReceipt
    ensures x in batch ==> db.nextReceipt <= x.id < d.nextReceipt && x.warehouse == warehouse
  {
    if x in db.receipts {
      var k :| 0 <= k < |db.receipts| && db.receipts[k] == x;
    }
    if x in batch {
      var k :| 0 <= k < |batch| && batch[k] == x;
    }
  }

  lemma BatchReceiptsReturn(db: Db, d: Db, batch: seq<Receipt>, po: nat, warehouse: nat, scope: set<nat>,
                            ids: seq<nat>)
    requires Ledger(db) && Ledger(d) && Added(db, d, batch, po, warehouse) && warehouse in scope
    requires NamesBatch(ids, db, d)
    ensures CancelMany(d, scope, ids).receipts == db.receipts
  {
    CancelManyReceipts(d, scope, ids);
    var c := CancelMany(d, scope, ids);
    forall x ensures x in c.receipts <==> x in db.receipts { OldOrBatch(db, d, batch, po, warehouse, x); }
    SortedSame(c.receipts, db.receipts);
  }

  lemma LinesFollowReceipts(a: Db, b: Db, po: nat)
    requires Ledger(a) && Ledger(b) && a.receipts == b.receipts && OnlyThisPo(a.lines, b.lines, po)
    ensures a.lines == b.lines
  {
    forall i | 0 <= i < |a.lines| ensures a.lines[i] == b.lines[i] {
      assert LineOk(a, i) && LineOk(b, i);
    }
  }

  lemma OnlyThisPoTrans(a: seq<Line>, b: seq<Line>, c: seq<Line>, po: nat)
    requires OnlyThisPo(a, b, po) && OnlyThisPo(b, c, po)
    ensures OnlyThisPo(a, c, po)
  {}

  /** Round trip: cancelling a batch's receipts restores receipts, line quantities and every status; and it
      restores stock if and only if no row that held stock shares its item and bin with a receipt of the
      batch that went to another lot. */
  lemma CancelUndoesReceive(db: Db, bins: map<nat, nat>, scope: set<nat>, po: nat, allowOver: bool, es: seq<Entry>,
        ids: seq<nat>)
      returns (batch: seq<Receipt>)
    requires Inv(db) && NonNegative(db.stock) && WellFormed(ReceiveOp(po, allowOver, es))
    requires Receive(db, bins, scope, po, allowOver, es).Ok?
    requires NamesBatch(ids, db, Receive(db, bins, scope, po, allowOver, es).value)
    ensures var d := Receive(db, bins, scope, po, allowOver, es).value;
            && Added(db, d, batch, po, db.pos[po].warehouse) && AllRecorded(batch, es)
    ensures var d := Receive(db, bins, scope, po, allowOver, es).value;
            var r := Cancel(d, scope, po, ids);
            && r.Ok? && r.value.receipts == db.receipts && r.value.lines == db.lines && r.value.pos == db.pos
            && ((forall l :: OnHand(r.value.stock, l) == OnHand(db.stock, l)) <==>
                (forall l :: OnHand(db.stock, l) == 0 || SumWhere(batch, InBin(l.item, l.bin)) ==
                    SumWhere(batch, InLot(l))))
  {
    var w := db.pos[po].warehouse;
    var d := Receive(db, bins, scope, po, allowOver, es).value;
    var m := ReceiveEntries(db, bins, po, w, allowOver, es).value;
    batch := EntriesAdd(db, bins, po, w, allowOver, es);
    EntriesKeepLedger(db, bins, po, w, allowOver, es);
    LedgerFrame(m, d);
    ReceiveThenCancelLines(db, d, batch, po, w, scope, ids);
    var c := CancelMany(d, scope, ids);
    assert HasLines(db, po) by {
      var i :| 0 <= i < |d.lines| && d.lines[i].po == po && d.lines[i].received > 0;
      assert db.lines[i].po == po;
    }
    assert PoOk(db, po);
    assert d.pos[po := db.pos[po]] == db.pos;
    StockReturnsIff(db, d, batch, po, w, scope, ids);
  }

  /** The ids of a batch name receipts of its PO only. */
  lemma BatchIsOnePo(db: Db, d: Db, batch: seq<Receipt>, po: nat, w: nat, scope: set<nat>, ids: seq<nat>)
    requires ReceiptsOk(db) && Added(db, d, batch, po, w) && NamesBatch(ids, db, d)
    ensures !Mismatched(d, scope, po, ids)
  {
    forall k | 0 <= k < |d.receipts| && d.receipts[k].id in ids ensures d.receipts[k].po == po {
      OldOrBatch(db, d, batch, po, w, d.receipts[k]);
      assert d.receipts[k] in batch;
    }
  }

  lemma ReceiveThenCancelLines(db: Db, d: Db, batch: seq<Receipt>, po: nat, w: nat, scope: set<nat>, ids: seq<nat>)
    requires Ledger(db) && Ledger(d) && Added(db, d, batch, po, w) && w in scope && NamesBatch(ids, db, d)
    requires OnlyThisPo(db.lines, d.lines, po)
    ensures !Mismatched(d, scope, po, ids)
    ensures CancelMany(d, scope, ids).receipts == db.receipts && CancelMany(d, scope, ids).lines == db.lines
  {
    var c := CancelMany(d, scope, ids);
    BatchIsOnePo(db, d, batch, po, w, scope, ids);
    CancelLeavesOthers(d, scope, po, ids);
    BatchReceiptsReturn(db, d, batch, po, w, scope, ids);
    OnlyThisPoTrans(db.lines, d.lines, c.lines, po);
    LinesFollowReceipts(db, c, po);
  }

  lemma StockReturnsIff(db: Db, d: Db, batch: seq<Receipt>, po: nat, w: nat, scope: set<nat>, ids: seq<nat>)
    requires Ledger(db) && Ledger(d) && NonNegative(db.stock) && Added(db, d, batch, po, w) && w in scope
        && NamesBatch(ids, db, d)
    ensures (forall l :: OnHand(CancelMany(d, scope, ids).stock, l) == OnHand(db.stock, l)) <==>
            (forall l :: OnHand(db.stock, l) == 0 || SumWhere(batch, InBin(l.item, l.bin)) == SumWhere(batch, InLot(l)))
  {
    BatchReceiptsReturn(db, d, batch, po, w, scope, ids);
    forall l | l in d.stock ensures d.stock[l] >= 0 {
      LotWithinBin(batch, l);
      assert OnHand(d.stock, l) == OnHand(db.stock, l) + SumWhere(batch, InLot(l));
    }
    forall l
      ensures OnHand(CancelMany(d, scope, ids).stock, l) == OnHand(db.stock, l) <==>
              (OnHand(db.stock, l) == 0 || SumWhere(batch, InBin(l.item, l.bin)) == SumWhere(batch, InLot(l)))
    {
      CancelManyStock(d, scope, ids, l);
      SumAppend(db.receipts, batch, InBin(l.item, l.bin));
      LotWithinBin(batch, l);
      assert OnHand(d.stock, l) == OnHand(db.stock, l) + SumWhere(batch, InLot(l));
    }
  }

  // ----- The handlers -----

  /** Where the loop stands after `n` entries: at `now` if none was refused, or stopped at the first refusal. */
  predicate Gone(start: Db, bins: map<nat, nat>, po: nat, warehouse: nat, allowOver: bool, es: seq<Entry>, n: nat,
                 now: Db, why: Option<Refusal>)
    requires n <= |es|
  {
    match why
    case None => ReceiveEntries(start, bins, po, warehouse, allowOver, es[..n]) == Ok(now)
    case Some(refusal) => ReceiveEntries(start, bins, po, warehouse, allowOver, es) == Refused(refusal)
  }

  /** One entry on: the entry's own outcome decides. */
  lemma GoneOn(start: Db, bins: map<nat, nat>, po: nat, warehouse: nat, allowOver: bool, es: seq<Entry>, i: nat,
               before: Db, now: Db, why: Option<Refusal>)
    requires i < |es| && Gone(start, bins, po, warehouse, allowOver, es, i, before, None)
    requires var r := ReceiveEntry(before, bins, po, warehouse, allowOver, es[i]);
             if r.Ok? then why.None? && now == r.value else why == Some(r.why)
    ensures Gone(start, bins, po, warehouse, allowOver, es, i + 1, now, why)
  {
    EntriesSnoc(start, bins, po, warehouse, allowOver, es, i);
    if why.Some? { RefusalSticks(start, bins, po, warehouse, allowOver, es, i + 1); }
  }

  /** The tables, changed row by row; a refusal puts back what the transaction started from. */
  class Tables {
    var pos: map<nat, Po>
    var lines: seq<Line>
    var receipts: seq<Receipt>
    var nextReceipt: nat
    var stock: map<Loc, int>

    ghost function View(): Db
      reads this
    {
      Db(pos, lines, receipts, nextReceipt, stock)
    }

    method Rollback(start: Db)
      modifies this
      ensures View() == start
    {
      pos, lines, receipts, nextReceipt, stock :=
          start.pos, start.lines, start.receipts, start.nextReceipt, start.stock;
    }

    /** One entry of a receipt. `checked` holds the bins this request has already validated. */
    method ReceiveOne(bins: map<nat, nat>, po: nat, warehouse: nat, allowOver: bool, e: Entry, checked: set<nat>)
          returns (why: Option<Refusal>)
      requires forall b | b in checked :: b in bins && bins[b] == warehouse
      modifies this
      ensures var r := ReceiveEntry(old(View()), bins, po, warehouse, allowOver, e);
              if r.Ok? then why.None? && View() == r.value && e.bin in bins && bins[e.bin] == warehouse
              else why == Some(r.why) && View() == old(View())
    {
      if e.bin !in checked {
        if e.bin !in bins { return Some(BinNotFound); }
        if bins[e.bin] != warehouse { return Some(WrongWarehouse); }
      }
      var k := FindLine(lines, po, e.item, 0);
      if k.None? { return Some(NotOnPo); }
      var line := lines[k.value];
      if e.qty > line.ordered - line.received && !allowOver { return Some(OverReceipt); }
      receipts := receipts + [Receipt(nextReceipt, po, k.value, e.item, e.qty, e.bin, warehouse, e.lot)];
      nextReceipt := nextReceipt + 1;
      var got := line.received + e.qty;
      lines := lines[k.value :=
          line.(received := got, status := if got >= line.ordered then LineReceived else LinePartial)];
      var loc := Loc(e.item, e.bin, e.lot);
      stock := stock[loc := OnHand(stock, loc) + e.qty];
      return None;
    }

    /** The loop over entries; what it leaves behind when it stops short is rolled back by the caller. */
    method ReceiveAll(bins: map<nat, nat>, po: nat, warehouse: nat, allowOver: bool, es: seq<Entry>)
          returns (why: Option<Refusal>, ids: seq<nat>)
      modifies this
      ensures Gone(old(View()), bins, po, warehouse, allowOver, es, |es|, View(), why)
      ensures why.None? ==> Numbered(ids, old(nextReceipt), nextReceipt) && |ids| == |es|
    {
      ghost var start := View();
      var checked: set<nat> := {};
      ids := [];
      why := None;
      for i := 0 to |es|
        invariant Gone(start, bins, po, warehouse, allowOver, es, i, View(), None) && why.None?
        invariant forall b | b in checked :: b in bins && bins[b] == warehouse
        invariant |ids| == i && Numbered(ids, start.nextReceipt, nextReceipt)
      {
        ghost var before := View();
        NumberedNext(ids, start.nextReceipt, nextReceipt);
        ids := ids + [nextReceipt];
        why := ReceiveOne(bins, po, warehouse, allowOver, es[i], checked);
        GoneOn(start, bins, po, warehouse, allowOver, es, i, before, View(), why);
        if why.Some? { return; }
        checked := checked + {es[i].bin};
      }
    }

    method ReceiveItems(bins: map<nat, nat>, scope: set<nat>, po: nat, allowOver: bool, es: seq<Entry>)
          returns (r: Outcome<seq<nat>>)
      modifies this
      ensures var want := Receive(old(View()), bins, scope, po, allowOver, es);
              if want.Ok? then
                  r.Ok? && View() == want.value && NamesBatch(r.value, old(View()), View()) && |r.value| == |es|
              else r == Refused(want.why) && View() == old(View())
    {
      if po !in pos || pos[po].warehouse !in scope { return Refused(PoNotFound); }
      if pos[po].status != Open && pos[po].status != Partial { return Refused(CannotReceive); }
      var start := Db(pos, lines, receipts, nextReceipt, stock);
      var why, ids := ReceiveAll(bins, po, pos[po].warehouse, allowOver, es);
      assert es[..|es|] == es;
      if why.Some? {
        Rollback(start);
        return Refused(why.value);
      }
      pos := pos[po := pos[po].(status := StatusAfterReceive(lines, po))];
      NumberedNames(ids, start, View());
      return Ok(ids);
    }

    /** One id of the list; a receipt that is gone or out of scope is skipped. */
    method CancelReceipt(scope: set<nat>, id: nat) returns (hit: bool)
      modifies this
      ensures View() == CancelOne(old(View()), scope, id)
      ensures DistinctIds(old(receipts)) ==>
          DistinctIds(receipts) && |receipts| + (if hit then 1 else 0) == |old(receipts)|
    {
      var f := FindReceipt(receipts, id);
      if f.None? || f.value.warehouse !in scope { return false; }
      var x := f.value;
      stock := TakeBack(stock, x.item, x.bin, x.qty);
      if x.line < |lines| {
        var line, left := lines[x.line], Max0(lines[x.line].received - x.qty);
        lines := lines[x.line := line.(received := left, status := LineStatusOf(left, line.ordered))];
      }
      if DistinctIds(receipts) {
        WithoutMembers(receipts, id);
        WithoutOne(receipts, id);
      }
      receipts := Without(receipts, id);
      return true;
    }

    /** Returns how many receipts were reversed. */
    method CancelReceiving(scope: set<nat>, po: nat, ids: seq<nat>) returns (r: Outcome<nat>)
      modifies this
      ensures var want := Cancel(old(View()), scope, po, ids);
              if want.Ok? then r.Ok? && View() == want.value else r == Refused(want.why) && View() == old(View())
      ensures r.Ok? && DistinctIds(old(receipts)) ==> |receipts| + r.value == |old(receipts)|
    {
      if ids == [] { return Ok(0); }
      if exists k | 0 <= k < |receipts| ::
          receipts[k].id in ids && receipts[k].po != po && receipts[k].warehouse in scope {
        return Refused(SpansPurchaseOrders);
      }
      var reversed := CancelAll(scope, ids);
      if po in pos { pos := pos[po := pos[po].(status := PoStatusOf(lines, po))]; }
      return Ok(reversed);
    }

    method CancelAll(scope: set<nat>, ids: seq<nat>) returns (reversed: nat)
      modifies this
      ensures View() == CancelMany(old(View()), scope, ids)
      ensures DistinctIds(old(receipts)) ==> |receipts| + reversed == |old(receipts)|
    {
      reversed := 0;
      for i := 0 to |ids|
        invariant View() == CancelMany(old(View()), scope, ids[..i])
        invariant DistinctIds(old(receipts)) ==> DistinctIds(receipts) && |receipts| + reversed == |old(receipts)|
      {
        assert ids[..i + 1][..i] == ids[..i];
        var hit := CancelReceipt(scope, ids[i]);
        if hit { reversed := reversed + 1; }
      }
      assert ids[..|ids|] == ids;
    }
  }

  predicate Numbered(ids: seq<nat>, from: nat, to: nat) {
    from + |ids| == to && forall k | 0 <= k < |ids| :: ids[k] == from + k
  }

  lemma NumberedNext(ids: seq<nat>, from: nat, to: nat)
    requires Numbered(ids, from, to)
    ensures Numbered(ids + [to], from, to + 1)
  {}

  lemma NumberedNames(ids: seq<nat>, db: Db, d: Db)
    requires Numbered(ids, db.nextReceipt, d.nextReceipt)
    ensures NamesBatch(ids, db, d)
  {
    forall x: nat | db.nextReceipt <= x < d.nextReceipt ensures x in ids {
      assert ids[x - db.nextReceipt] == x;
    }
  }

  lemma EntriesSnoc(db: Db, bins: map<nat, nat>, po: nat, warehouse: nat, allowOver: bool, es: seq<Entry>, i: nat)
    requires i < |es| && ReceiveEntries(db, bins, po, warehouse, allowOver, es[..i]).Ok?
    ensures ReceiveEntries(db, bins, po, warehouse, allowOver, es[..i + 1]) ==
            ReceiveEntry(ReceiveEntries(db, bins, po, warehouse, allowOver, es[..i]).value, bins, po, warehouse,
                allowOver, es[i])
  {
    assert es[..i + 1][..i] == es[..i];
  }

  /** The first refusal is the request's answer. */
  lemma {:induction false} RefusalSticks(db: Db, bins: map<nat, nat>, po: nat, warehouse: nat, allowOver: bool,
        es: seq<Entry>, n: nat)
    requires n <= |es| && ReceiveEntries(db, bins, po, warehouse, allowOver, es[..n]).Refused?
    ensures ReceiveEntries(db, bins, po, warehouse, allowOver, es) ==
        ReceiveEntries(db, bins, po, warehouse, allowOver, es[..n])
    decreases |es|
  {
    if n == |es| {
      assert es[..n] == es;
    } else {
      assert es[..|es| - 1][..n] == es[..n];
      RefusalSticks(db, bins, po, warehouse, allowOver, es[..|es| - 1], n);
    }
  }
}
