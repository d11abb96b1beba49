/**
 The dockd ship and void-ship protocol, together with the handheld `fulfill`
 route that competes with it for the same sales order.

 Requests run as concurrent READ COMMITTED transactions.  `State` holds what has
 been committed, plus the phase every transaction has reached.  A transaction's
 own uncommitted writes (its sentinel row, its order update) live in its phase, so
 nobody else can see them, and rolling back is forgetting the phase.
 */
module Dockd {
  import opened Prelude

  type TxnId = nat

  datatype Status =
    | Open | Picked | Packed | Shipped | Cancelled | FraudReview | Refunded | WaitingStock

  datatype Endpoint = ShipEndpoint | VoidEndpoint

  datatype Body = Body(idempotencyKey: string, operatorName: string, content: string)

  /** The canonical hash: a function of the body without its key, taken to be injective,
      so the rest of the body stands for its own digest. */
  function BodyHash(b: Body): Body {
    b.(idempotencyKey := "")
  }

  datatype Request =
    | Dockd(endpoint: Endpoint, token: nat, scope: set<nat>, so: string, body: Body)
    | Fulfill(scope: set<nat>, so: string)

  /** Primary key of `dockd_idempotency`. */
  datatype Slot = Slot(token: nat, key: string)

  function SlotOf(r: Request): Slot
    requires r.Dockd?
  {
    Slot(r.token, r.body.idempotencyKey)
  }

  /** `ShipResponse` carries the fulfillment id, `VoidResponse` the status reverted to. */
  datatype Response = ShipResponse(shipment: TxnId) | VoidResponse(status: Status)

  datatype IdemRow = IdemRow(endpoint: Endpoint, bodyHash: Body, response: Option<Response>)

  datatype Order = Order(warehouse: nat, status: Status)

  /** A row of `item_fulfillments`, keyed in `State.shipments` by the transaction that inserted it. */
  datatype Shipment = Shipment(so: string, preShip: Option<Status>, voided: bool)

  datatype Refusal =
    | KeyReused | LockTimeout | NotFound | AlreadyShipped | NotShippable | NotShipped | ServerError | RolledBack

  datatype Reply =
    | Fresh(response: Response)
    | Replayed(cached: Option<Response>)
    | Refused(reason: Refusal)

  datatype Write =
    | MarkShipped(preShip: Option<Status>)
    | MarkVoided(shipment: TxnId, revertTo: Status)

  datatype Phase =
    | Arrived
    | Missed                      // no cached answer; the sentinel comes next
    | Claimed                     // sentinel inserted, uncommitted
    | Conflicted                  // the insert hit a committed row
    | Holding(row: Order)         // order row locked and read
    | Ready(write: Write, response: Response)  // effects and cached answer written, uncommitted
    | Done(reply: Reply)

  datatype Txn = Txn(req: Request, phase: Phase)

  /** Idempotency history of the server: who was told what, in order. */
  datatype Answer =
    | Committed(slot: Slot, endpoint: Endpoint, body: Body, response: Response)
    | Replay(slot: Slot, endpoint: Endpoint, body: Body, cached: Option<Response>)
    | Pruned(slot: Slot)

  /** History of one order's shipping. */
  datatype Move =
    | WasShipped(so: string, shipment: TxnId, before: Status, byDockd: bool)
    | WasVoided(so: string, shipment: TxnId, after: Status)

  datatype State = State(
    idem: map<Slot, IdemRow>,
    orders: map<string, Order>,
    shipments: map<TxnId, Shipment>,
    txns: map<TxnId, Txn>,
    answers: seq<Answer>,
    moves: seq<Move>,
    sold: set<string>)         // orders inserted as SHIPPED, with no fulfillment row: counter sales

  // ----- What a transaction holds -----

  predicate HoldsSlot(x: Txn, slot: Slot) {
    x.req.Dockd? && SlotOf(x.req) == slot && (x.phase.Claimed? || x.phase.Holding? || x.phase.Ready?)
  }

  predicate HoldsOrder(x: Txn, so: string) {
    x.req.so == so && (x.phase.Holding? || x.phase.Ready?)
  }

  predicate SlotFree(s: State, slot: Slot) {
    forall t | t in s.txns :: !HoldsSlot(s.txns[t], slot)
  }

  predicate OrderFree(s: State, so: string) {
    forall t | t in s.txns :: !HoldsOrder(s.txns[t], so)
  }

  predicate Live(s: State, id: TxnId, so: string) {
    id in s.shipments && s.shipments[id].so == so && !s.shipments[id].voided
  }

  // ----- Steps -----

  datatype Step =
    | Begin(t: TxnId, req: Request)
    | ProbeCache(t: TxnId)
    | InsertSentinel(t: TxnId)
    | RereadPeer(t: TxnId)
    | LockOrder(t: TxnId)
    | PassGate(t: TxnId, packingRequired: bool, shipment: TxnId)
    | Commit(t: TxnId)
    | Abort(t: TxnId)
    | Prune(slot: Slot)
    | NewOrder(so: string, order: Order)
    | AdvanceOrder(so: string, to: Status)

  predicate Enabled(s: State, e: Step) {
    match e
    case Begin(t, req) => t !in s.txns
    case ProbeCache(t) => t in s.txns && s.txns[t].req.Dockd? && s.txns[t].phase.Arrived?
    // Blocked while a peer holds an uncommitted row under the same key.
    case InsertSentinel(t) =>
      t in s.txns && s.txns[t].req.Dockd? && s.txns[t].phase.Missed? && SlotFree(s, SlotOf(s.txns[t].req))
    case RereadPeer(t) => t in s.txns && s.txns[t].req.Dockd? && s.txns[t].phase.Conflicted?
    // Blocked while a peer holds the row lock.
    case LockOrder(t) =>
      && t in s.txns
      && (if s.txns[t].req.Dockd? then s.txns[t].phase.Claimed? else s.txns[t].phase.Arrived?)
      && (InScope(s, s.txns[t].req) ==> OrderFree(s, s.txns[t].req.so))
    case PassGate(t, _, shipment) =>
      && t in s.txns && s.txns[t].phase.Holding?
      && (AnyLive(s, s.txns[t].req.so) ==> Live(s, shipment, s.txns[t].req.so))
    case Commit(t) => t in s.txns && s.txns[t].phase.Ready? && s.txns[t].req.so in s.orders
    case Abort(t) => t in s.txns && !s.txns[t].phase.Done?
    case Prune(slot) => slot in s.idem
    case NewOrder(so, order) => so !in s.orders
    // Picking, packing, cancelling: other routes, which also lock the row and never enter or leave SHIPPED.
    case AdvanceOrder(so, to) => so in s.orders && OrderFree(s, so) && s.orders[so].status != Shipped && to != Shipped
  }

  predicate InScope(s: State, r: Request) {
    r.so in s.orders && s.orders[r.so].warehouse in r.scope
  }

  predicate AnyLive(s: State, so: string) {
    exists id | id in s.shipments :: Live(s, id, so)
  }

  function Goto(s: State, t: TxnId, p: Phase): State
    requires t in s.txns
  {
    s.(txns := s.txns[t := s.txns[t].(phase := p)])
  }

  function Matches(row: IdemRow, r: Request): bool
    requires r.Dockd?
  {
    row.endpoint == r.endpoint && row.bodyHash == BodyHash(r.body)
  }

  function SendReplay(s: State, t: TxnId, row: IdemRow): State
    requires t in s.txns && s.txns[t].req.Dockd?
  {
    var r := s.txns[t].req;
    Goto(s, t, Done(Replayed(row.response)))
    .(answers := s.answers + [Replay(SlotOf(r), r.endpoint, r.body, row.response)])
  }

  /** The warm-cache probe, outside the transaction. */
  function DoProbe(s: State, t: TxnId): State
    requires t in s.txns && s.txns[t].req.Dockd?
  {
    var r := s.txns[t].req;
    if SlotOf(r) !in s.idem then Goto(s, t, Missed)
    else
      var row := s.idem[SlotOf(r)];
      if !Matches(row, r) then Goto(s, t, Done(Refused(KeyReused)))
      else if row.response.None? then Goto(s, t, Missed)   // a peer is still in flight
      else SendReplay(s, t, row)
  }

  /** After `ON CONFLICT DO NOTHING` inserted no row. */
  function DoReread(s: State, t: TxnId): State
    requires t in s.txns && s.txns[t].req.Dockd?
  {
    var r := s.txns[t].req;
    if SlotOf(r) !in s.idem then Goto(s, t, Done(Refused(LockTimeout)))
    else
      var row := s.idem[SlotOf(r)];
      if !Matches(row, r) then Goto(s, t, Done(Refused(KeyReused)))
      else SendReplay(s, t, row)
  }

  predicate Shippable(st: Status, packingRequired: bool) {
    st == Packed || (st == Picked && !packingRequired)
  }

  /** The status gate and, when it passes, the writes of `record_ship` / `record_void_ship`. */
  function Gate(s: State, t: TxnId, packingRequired: bool, shipment: TxnId): Phase
    requires t in s.txns && s.txns[t].phase.Holding?
    requires AnyLive(s, s.txns[t].req.so) ==> Live(s, shipment, s.txns[t].req.so)
  {
    var r, st := s.txns[t].req, s.txns[t].phase.row.status;
    match r
    case Fulfill(_, _) =>
      if !Shippable(st, packingRequired) then Done(Refused(NotShippable))
      else Ready(MarkShipped(None), ShipResponse(t))   // the handheld route passes no pre_ship_status
    case Dockd(ShipEndpoint, _, _, _, _) =>
      if st == Shipped then Done(Refused(AlreadyShipped))
      else if !Shippable(st, packingRequired) then Done(Refused(NotShippable))
      else Ready(MarkShipped(Some(st)), ShipResponse(t))
    case Dockd(VoidEndpoint, _, _, so, _) =>
      if st != Shipped || !AnyLive(s, so) then Done(Refused(NotShipped))
      else match s.shipments[shipment].preShip
           case None => Done(Refused(ServerError))     // sales_orders.status is NOT NULL
           case Some(pre) => Ready(MarkVoided(shipment, pre), VoidResponse(pre))
  }

  /** The order and fulfillment writes of a committing transaction. */
  function WriteOrder(s: State, t: TxnId): State
    requires Enabled(s, Commit(t))
  {
    var r, p := s.txns[t].req, s.txns[t].phase;
    var row := s.orders[r.so];
    match p.write
    case MarkShipped(pre) =>
      s.(orders := s.orders[r.so := row.(status := Shipped)],
         shipments := s.shipments[t := Shipment(r.so, pre, false)],
         txns := s.txns[t := Txn(r, Done(Fresh(p.response)))],
         moves := s.moves + [WasShipped(r.so, t, row.status, r.Dockd?)])
    case MarkVoided(id, revertTo) =>
      s.(orders := s.orders[r.so := row.(status := revertTo)],
         shipments := if id in s.shipments then s.shipments[id := s.shipments[id].(voided := true)] else s.shipments,
         txns := s.txns[t := Txn(r, Done(Fresh(p.response)))],
         moves := s.moves + [WasVoided(r.so, id, revertTo)])
  }

  /** A dockd transaction also fills in its sentinel row. */
  function CacheAnswer(s: State, r: Request, response: Response): State {
    if r.Fulfill? then s
    else s.(idem := s.idem[SlotOf(r) := IdemRow(r.endpoint, BodyHash(r.body), Some(response))],
            answers := s.answers + [Committed(SlotOf(r), r.endpoint, r.body, response)])
  }

  function DoCommit(s: State, t: TxnId): State
    requires Enabled(s, Commit(t))
  {
    CacheAnswer(WriteOrder(s, t), s.txns[t].req, s.txns[t].phase.response)
  }

  function Take(s: State, e: Step): State
    requires Enabled(s, e)
  {
    match e
    case Begin(t, req) => s.(txns := s.txns[t := Txn(req, Arrived)])
    case ProbeCache(t) => DoProbe(s, t)
    case InsertSentinel(t) => Goto(s, t, if SlotOf(s.txns[t].req) in s.idem then Conflicted else Claimed)
    case RereadPeer(t) => DoReread(s, t)
    case LockOrder(t) =>
      Goto(s, t, if InScope(s, s.txns[t].req) then Holding(s.orders[s.txns[t].req.so]) else Done(Refused(NotFound)))
    case PassGate(t, packing, shipment) => Goto(s, t, Gate(s, t, packing, shipment))
    case Commit(t) => DoCommit(s, t)
    case Abort(t) => Goto(s, t, Done(Refused(RolledBack)))
    case Prune(slot) => s.(idem := s.idem - {slot}, answers := s.answers + [Pruned(slot)])
    case NewOrder(so, order) =>
      s.(orders := s.orders[so := order], sold := if order.status == Shipped then s.sold + {so} else s.sold)
    case AdvanceOrder(so, to) => s.(orders := s.orders[so := s.orders[so].(status := to)])
  }

  // ----- Runs -----

  predicate Legal(s: State, steps: seq<Step>)
    decreases |steps|
  {
    steps == [] || (Enabled(s, steps[0]) && Legal(Take(s, steps[0]), steps[1..]))
  }

  function Run(s: State, steps: seq<Step>): State
    requires Legal(s, steps)
    decreases |steps|
  {
    if steps == [] then s else Run(Take(s, steps[0]), steps[1..])
  }

  /** An idle server: no open transaction, no cached answer, no fulfillment. */
  predicate Init(s: State) {
    && s.idem == map[] && s.txns == map[] && s.shipments == map[] && s.answers == [] && s.moves == []
    && s.sold <= s.orders.Keys && forall so | so in s.orders :: s.orders[so].status == Shipped <==> so in s.sold
  }
}
