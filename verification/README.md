# Warehouse core: a verified model

Sentry is a warehouse management system: orders are picked, packed and shipped, counters sell and refund stock,
connectors publish availability, and outside systems poll events, page snapshots and sync catalogs. Its state lives in
database rows, so every handler is modelled as a transition over tables. A handler that works through a transaction
statement by statement becomes a state machine whose steps interleave with those of other requests; a handler that
loops over rows becomes a method proved against a function. A path that does not reach its commit leaves the tables as
they were.

What is proved, by part of the system:

- **Point of sale** (`PosLedger`, `PosStock`, `PosCarts`, `PosRefunds`, `PosTill`, `PosTxn`, `PosKeys`, `PosSerial`,
  `PosDeadlock`, `PosAccepts`). Checkout's running stock
  check over lines in lock order decides exactly whether each location's total demand fits its first row. Over every
  run of counter sales, phone orders, backorders and refunds, stock plus net shipments is constant per item, so are
  reservations less what phone orders hold, no sale is credited beyond what it sold, and a sale is REFUNDED exactly
  when every item is credited in full. A whole-order refund is accepted exactly when nothing was credited before and
  reverses its sale row by row. With the lock on a refund's original, the key insert, one lock and one write per line
  and the commit as separate steps, every interleaving leaves what its committed requests leave when run in commit
  order, each once; and which requests can deadlock is characterised exactly.
- **Ship and void** (`Dockd`, `DockdProofs`, `DockdGates`, `DockdServer`). Sentinel insert, row lock, status gate, cached response,
  abort and prune, interleaved with handheld fulfilment: exactly-once keys, replays that agree, one live shipment per
  order, and voids that restore the status before the ship.
- **Channel availability** (`ChannelAvailability`, `ChannelNumbers`, `ChannelPublishing`,
  `SweepRace`). A materialised number that a sweep makes equal
  to the clamped pickable sum, when a targeted sweep equals a full one, and what a row that is not dirty says about the
  marketplace.
- **Workload forecast** (`Forecast`). The flow-shop loop is the least finish time over all feasible schedules and the
  longest pick-then-pack path.
- **Event cursor and snapshots** (`Paging`, `EventPoll`, `SnapshotPaging`, `CursorAck`, `CursorCodec`). When following
  the cursor is the one-shot scan, exactly when a reader of a growing log misses nothing, exactly when an unlocked
  acknowledgement passes only events its token could read, exactly when a token keeps to one open scan, and the round
  trip of the opaque page cursor.
- **SKU sync** (`SkuCatalog`, `SkuSync`). A completed run delivered all its pages, and when the active rows are exactly
  its SKUs.
- **Receiving** (`Receiving`, `ReceiveRules`, `CancelRace`). Received quantities are the sum of surviving receipts; cancelling undoes
  receiving; and exactly when concurrent cancels, which lock nothing, keep the books.
- **Connector calls** (`Connector`). The circuit breaker against the history of outcomes, and the retry loop.
- **Preferred bins** (`PreferredBins`). Integer priorities behave as a move-to-front list.

Where the code and what is written about it disagree, the model follows the code:

- The docstring of `refund` and its schema speak of a sale becoming CANCELLED; the code writes REFUNDED
  (api/routes/pos.py:1921).
- Handheld `fulfill` records no pre-ship status and `sales_orders.status` is NOT NULL, so a dockd void of a handheld ship
  fails at the write although the docstring of `void_ship` allows it (`DockdProofs.HandheldShipIsFinal`).
- `cancel_receiving` recomputes the status of the order it is given, also of one that was closed or has no lines.
- Snapshot pages are keyed by item and bin only, so two lots of one bin can lose one at a page boundary
  (`SnapshotPaging.LotsCanBeLost`); `Paging.CompleteAtEveryLimitIff` says exactly when nothing is lost.
- An event committed between a token's scope check and its update, or with an id at or below the cursor, is passed
  unseen (`CursorAck.LateCommitEscapes`); `CursorAck.CoveredThroughoutIff` says exactly when no run does that.
- The limit of one snapshot scan per token is counted and then inserted without a lock (`SnapshotPaging.TwoScansRun`,
  `SnapshotPaging.OneOpenThroughoutIff`).
- Two cancels of one receipt can both take its quantity off the line (`CancelRace.DoubleCancel`,
  `CancelRace.BooksThroughoutIff`).
- Validate-cart sums all rows of a location line by line, checkout sums the lines and looks at the first row only
  (`PosCarts.RepeatedLineCanFail`, `PosCarts.SplitStockCanFail`); so it also commits what validate-cart refuses, when a
  later row is over-reserved, as a cancelled receipt can leave it (`PosCarts.OverReservedRowIsMissed`,
  `PosCarts.CommittedCartsAreValidIff`).
- Lines are locked in order to prevent deadlock, but the foreign key to a parent order adds a lock: a refund and an
  exchange of its original under one key can wait for each other (`PosDeadlock.CrossedKeysDeadlock`).
- A sweep is meant to bump versions of changed rows only; two that overlap can bump one twice
  (`SweepRace.SecondSweepBumps`).
- A connector call that ends by raising counts one failure more than the sends that raised
  (`Connector.RaisingCallCountsOneExtra`).

## Model

| member | source | states |
|---|---|---|
| PosStock.LoopIsDemand | api/routes/pos.py:1085-1131 | checking and moving stock one line at a time passes if and only if every location's total demand fits its first row, and then shifts each first row by that total |
| PosStock.LockedLoopIsDemand | api/routes/pos.py:1085-1213 | the same for the lines in lock order: the sort changes neither the decision nor the result |
| PosStock.LockOrderOrdered | api/routes/pos.py:1086-1092 | the lines a handler visits are in ascending (item, bin) order |
| PosStock.MovedKeeps | api/routes/pos.py:1119-1211 | a movement that fits keeps 0 <= reserved <= on hand on every row and changes each item's stock and reservations by exactly the demand |
| PosStock.ReturnNegatesShip | api/routes/pos.py:1837-1896 | returning lines adds to a row exactly what shipping them took, for repeated lines too |
| PosCarts.CommittedCartsAreValidIff | api/routes/pos.py:495-552 | every counter or phone cart within the schema's bounds that checkout would commit is accepted by validate-cart, if and only if no location offers less than one line can take from its first row |
| PosCarts.OverReservedRowIsMissed | api/routes/pos.py:1093-1131 | a line within the first row and beyond its location, another row being over-reserved, is refused by validate-cart and committed by checkout |
| PosCarts.CommittedCartResolves | api/routes/pos.py:666-761 | a committed line has passed every other test of validate-cart, and fails it exactly when it asks for more than its whole location offers |
| PosCarts.CommittedCartWasValid | api/routes/pos.py:495-552 | while no row is over-reserved, every cart a counter or phone checkout commits would have been accepted just before |
| PosCarts.AcceptedCartCommitsIff | api/routes/pos.py:312-340 | an accepted cart commits if and only if its parent order is visible, what it takes back was on that order, and the demand fits; nothing else can refuse it |
| PosCarts.AcceptedCartPasses | api/routes/pos.py:1089-1131 | with distinct locations and one row in each, an accepted cart passes the stock gate from that same state |
| PosCarts.RepeatedLineCanFail | api/routes/pos.py:503-541 | two lines on one location, each within the stock but not together, are accepted and then refused |
| PosCarts.SplitStockCanFail | api/routes/pos.py:1093-1131 | a quantity beyond the first row but within the location is accepted and then refused |
| PosCarts.ClassifyIsFirstFailure | api/routes/pos.py:312-340 | a line passes when SKU, activity, warehouse, scope, bin and stock all pass, and otherwise gets the reason of the first that fails |
| PosCarts.AvailableAdds | api/routes/pos.py:503-521 | a location's stock is the sum over its rows of on hand less reserved |
| PosRefunds.SoldIsTotal | api/routes/pos.py:1633-1646 | the per-item dictionary of the original sale is the per-SKU sum over its audit lines |
| PosRefunds.CheckoutConserves | api/routes/pos.py:1014-1218 | a committed checkout of any mode keeps stock plus net shipments and reservations less held quantities, per item |
| PosRefunds.RefundConserves | api/routes/pos.py:1831-1901 | so does a committed refund |
| PosRefunds.RunsConserve | api/routes/pos.py:1085-1218 | over every run of checkouts, refunds and refused attempts both balances are constant and no row becomes over-reserved |
| PosRefunds.FreshLedger | api/routes/pos.py:1694-1707 | a database without sales and credit memos satisfies the ledger invariant |
| PosRefunds.CheckoutKeepsLedger | api/routes/pos.py:876-1013 | a checkout keeps the ledger invariant and every existing order |
| PosRefunds.CompletesIff | api/routes/pos.py:1726-1734 | the completion test over sold items holds if and only if every item of any kind is credited in full |
| PosRefunds.RefundKeepsLedger | api/routes/pos.py:1633-1734 | a refund keeps credit between zero and what was sold for every item and marks the sale exactly at full credit |
| PosRefunds.RunsKeepLedger | api/routes/pos.py:1908-1932 | in every run each sale is credited within what it sold, is REFUNDED with time and memo set exactly when credited in full, and otherwise stays as it was |
| PosRefunds.OneMoreUnitIff | api/routes/pos.py:1648-1725 | one more unit at a location of the sale is taken back if and only if its item is not yet credited in full, whatever that location got back before |
| PosRefunds.WholeRefundReversesSale | api/routes/pos.py:1685-1725 | after a counter sale and any run, the whole order is taken back if and only if scope, date and tender allow it and nothing was credited; every row then regains exactly what the sale took |
| PosAccepts.RefundAcceptedIff | api/routes/pos.py:1478-1725 | a refund is accepted if and only if the sale is a point-of-sale sale in scope, SHIPPED, unrefunded, at most ninety days old and paid the same way, its lines name known places, every line asked has a row, no location is asked beyond what the sale took from it, and no item beyond what is left of it |
| PosAccepts.CheckoutAcceptedIff | api/routes/pos.py:666-761 | a checkout is accepted if and only if its SKUs are live, its warehouses in scope, its parent visible and its returns on that parent, and either it is a backorder with a warehouse to take it or every location's first row offers all that the cart asks of it |
| PosAccepts.CheckoutWrites | api/routes/pos.py:857-1213 | a committed checkout appends one order with the sale as its audit: SHIPPED and off the shelf, or OPEN and reserved by phone, or WAITING_STOCK and only ordered as a backorder, row by row and item by item |
| PosAccepts.RefundWrites | api/routes/pos.py:1759-1932 | a committed refund appends a credit memo with the negated quantities, puts the goods back on their first rows, and changes nothing on the original but the mark of a completed refund |
| PosAccepts.CommittedRefundsStayWithin | api/routes/pos.py:1672-1725 | every refund committed in an interleaved run was within what each location and each item had left when it took effect |
| PosAccepts.CommittedCheckoutsWereOffered | api/routes/pos.py:1085-1131 | every checkout committed in an interleaved run was offered by its locations' first rows when it took effect |
| PosAccepts.CommitAnswersTruly | api/routes/pos.py:1269-1292 | what a commit answers and keeps under its key is the number of the order it wrote, and for a refund whether the original is now closed |
| PosTill.Tally | api/routes/pos.py:1633-1675 | the accumulating loop gives each location and item its total, with exactly the keys that occur |
| PosTill.CheckAsked | api/routes/pos.py:1672-1734 | the dictionary guards refuse exactly requests beyond a location's sale or beyond the unrefunded remainder, and flag exactly the completing refund |
| PosTill.Till.ValidateCart | api/routes/pos.py:528-552 | one conflict per failing line, in cart order, each under its first applicable reason; none exactly when every line passes |
| PosTill.Till.MoveLines | api/routes/pos.py:1089-1213 | the row-by-row loop is the fold over lines and stops exactly where the fold does |
| PosTill.CheckReturns | api/routes/pos.py:1225-1260 | the loop over an exchange's returned SKUs stops at the first that is unknown or not on the parent order |
| PosTill.Till.Checkout | api/routes/pos.py:666-1292 | the handler's outcome and new tables are those of the declarative checkout, an exchange's returned SKUs included; a refusal restores the tables |
| PosTill.Till.Refund | api/routes/pos.py:1478-1734 | the same for refund, through its dictionaries |
| PosTill.Till.Book | api/routes/pos.py:1831-1932 | goods back on the first rows, a credit memo with negative lines, and the sale closed only at full credit; a missing row rolls back |
| PosKeys.OneOrderPerKey | api/routes/pos.py:636-664 | at most one order commits under a key and all 200 answers for it carry the same reply to the same body |
| PosKeys.TakenKeyChangesNothing | api/routes/pos.py:1451-1476 | once a key is taken no step of a request under it, with whatever body, changes stock, orders or key rows |
| PosKeys.RetryGetsItsReply | api/routes/pos.py:636-664 | at the probe or the re-read, a request whose key belongs to a committed order is answered once, with that order's reply for the same body and with 409 for another; a probe of a free key is not answered |
| PosKeys.RereadFindsItsPeer | api/routes/pos.py:1799-1829 | after an insert conflict the re-read finds a row with a reply, so both 503 branches are unreachable |
| PosKeys.RunKeepsKeys | api/routes/pos.py:918-1013 | in every interleaving keys are unique on orders, one transaction at most has inserted an uncommitted order under a key, and every committed order has its cached reply |
| PosSerial.LockLineRows | api/routes/pos.py:1093-1110 | locking the next row keeps every locked row equal to what the lines written so far make of the row now committed |
| PosSerial.RowMoved | api/routes/pos.py:1111-1211 | the gate against the locked row decides what the running demand decides, and the write keeps that equality |
| PosSerial.QuietKeepsLocks | api/routes/pos.py:1498-1512 | every step short of a commit keeps locks exclusive and each plan what the checks would decide now |
| PosSerial.PeerKept | api/routes/pos.py:1684-1734 | a peer's commit changes neither the rows nor the credit a transaction has locked, so its written rows and its plan stay good |
| PosSerial.CommitIsApply | api/routes/pos.py:1831-1932 | publishing a transaction's locked rows, order lines and completion mark is running its whole request on what is committed at that moment |
| PosSerial.InterleavingsAreSerial | api/routes/pos.py:1089-1211 | every interleaving of probes, order and row locks, line writes, inserts, commits and aborts leaves what its committed requests leave when run in commit order, each once; so ledger, balances and row bounds hold under concurrency and retries |
| PosDeadlock.RowWaitRises | api/routes/pos.py:1086-1110 | a transaction that waits for a row waits for one that is further on in (item, bin) order |
| PosDeadlock.DeadlockIff | api/routes/pos.py:1498-1512 | a ring of transactions wait for each other if and only if they are by turns refunds before their insert and replacements or exchanges before the share lock on their parent, each refund under the key of the next child and each child under the original of the next refund |
| PosDeadlock.NoDeadlock | api/routes/pos.py:1086-1092 | as long as no key is used for a refund and for a replacement or exchange, no cycle of waits for originals, parents, keys or rows can form |
| PosDeadlock.CrossedKeysDeadlock | api/routes/pos.py:918-978 | a refund of an order and a replacement or exchange of it under one key, each of which could commit, can reach such a cycle |
| DockdProofs.StepKeepsIdem | api/routes/dockd.py:440-554 | every step keeps: one holder per key, no sentinel visible before commit, the cache equal to the history of answers |
| DockdProofs.StepKeepsOrders | api/routes/dockd.py:556-663 | every step keeps: one lock holder per order, the status it read still current, shipments and status in agreement |
| DockdProofs.KeyCommitsOncePerWindow | api/routes/dockd.py:673-693 | commits under a key exceed its prunes by one exactly while its row is kept, and a kept row always carries its response |
| DockdProofs.InFlightBranchUnreachable | api/routes/dockd.py:454-469 | the warm probe falls through only when there is no row, and no replay is empty |
| DockdProofs.AnswersAgree | api/routes/dockd.py:755-850 | two 200 answers under one key without a prune between them are for the same request and body, and the later is a replay |
| DockdProofs.KeptRowHasOneOwner | api/jobs/cleanup_tasks.py:411-419 | every row not yet pruned was written by exactly one committed transaction and holds its answer |
| DockdProofs.OrderShipsOnce | api/routes/shipping.py:123-164 | at most one un-voided shipment per order, and SHIPPED exactly when there is one or the order was inserted SHIPPED by a counter sale; such an order never has one |
| DockdProofs.VoidRestoresStatus | api/routes/dockd.py:856-929 | a void returns the order to the status it had before the dockd ship it undoes, with no other ship or void in between |
| DockdProofs.HandheldShipIsFinal | api/routes/shipping.py:144-156 | a handheld shipment is never voided |
| DockdGates.LockIff | api/routes/dockd.py:556-577 | the lock reads the order if it exists in the caller's warehouses and answers not-found otherwise |
| DockdGates.ShipGateIff | api/routes/dockd.py:579-622 | a ship passes the gate if and only if the order is PACKED, or PICKED where packing is not required, and records the status it read unless handheld |
| DockdGates.VoidGateIff | api/routes/dockd.py:872-908 | a void passes the gate if and only if the order is SHIPPED and has a live shipment with a recorded status, to which it reverts |
| DockdGates.ShipsFromPickedOrPacked | api/routes/shipping.py:138-144 | in every run an order ships only from PICKED or PACKED, and only from PACKED where every gate required packing |
| DockdGates.RetryGetsItsResponse | api/routes/dockd.py:440-469 | a probe or re-read that finds its key's row is answered with the response of the commit that wrote it for the same request, and refused as a reused key for another |
| DockdServer.Server.Probe | api/routes/dockd.py:440-469 | the warm probe is the protocol's probe step |
| DockdServer.Server.Reread | api/routes/dockd.py:518-554 | the re-read after a conflict is the protocol's re-read step |
| DockdServer.Server.Lock | api/routes/dockd.py:556-577 | the scoped row lock is the protocol's lock step |
| DockdServer.Server.FindShipment | api/routes/dockd.py:880-908 | the search finds an un-voided shipment of the order exactly when there is one |
| DockdServer.Server.CheckGate | api/routes/dockd.py:579-663 | the branches on endpoint, status and the shipment found are the protocol's gate step |
| DockdServer.Server.CommitWrites | api/routes/dockd.py:673-693 | order, shipment and cached response are written together, as the protocol's commit step |
| DockdServer.Server.ClaimOrReplay | api/routes/dockd.py:491-554 | an uncontended insert is a legal run that ends owning the key or answered |
| DockdServer.Server.LockAndWrite | api/routes/shipping.py:123-164 | an uncontended request from lock to reply is a legal run of the protocol, so the theorems apply to it |
| ChannelAvailability.GroupedIsSum | api/services/channel_availability_service.py:110-118 | the grouped aggregate is, item by item, the sum over the item's rows |
| ChannelNumbers.AddingARow | api/services/channel_availability_service.py:110-118 | a new row adds to its item's number what is free in it, GREATEST(on hand - reserved, 0), if its bin is Pickable or PickableStaging and its warehouse in scope, and nothing otherwise; no rows make 0 (`NothingIsZero`) |
| ChannelNumbers.ReplacingARow | api/services/channel_availability_service.py:110-118 | replacing a row moves the number by the difference of what is free in it |
| ChannelNumbers.FullSweepWrites | api/services/channel_availability_service.py:85-127 | a full sweep leaves every active item of a SKU or category in scope at its number and touches no other row |
| ChannelNumbers.ReservingLowersTheNumber | api/services/channel_availability_service.py:110-153 | reserving n free units of a row that counts lowers the number the next full sweep writes by exactly n |
| ChannelAvailability.ComputedIsSellable | api/services/channel_availability_service.py:119-127 | the computed rows are exactly the wanted items, each with its sellable number, zero included |
| ChannelAvailability.Channel.Recompute | api/services/channel_availability_service.py:57-154 | a sweep rewrites exactly the changed rows with fresh distinct versions, leaves the rest alone, and counts them |
| ChannelAvailability.FullSweepAgrees | api/services/channel_availability_service.py:57-69 | after a full sweep every in-scope active item holds its sellable number |
| ChannelAvailability.SecondSweepIsQuiet | api/services/channel_availability_service.py:66-68 | a second sweep, full or targeted, bumps nothing |
| ChannelAvailability.TargetedEqualsFullIff | api/services/channel_availability_service.py:97-101 | a targeted sweep gives the numbers of a full one if and only if every wanted item outside the targets was already right |
| ChannelAvailability.TargetedSweepSuffices | api/services/channel_availability_service.py:157-173 | if the table agreed before and only targeted items changed since, a targeted sweep equals a full one |
| ChannelPublishing.StepKeepsInv | api/services/channel_availability_service.py:130-153 | each step, sweeps being one step, moves a row's version exactly when it moves its number, upwards, and keeps every row that is not dirty equal to what the sink received |
| SweepRace.LoneSweep | api/services/channel_availability_service.py:128-153 | a sweep nothing overlaps is its computation followed by its upsert |
| SweepRace.AdvancesThroughoutIff | api/services/channel_availability_service.py:128-153 | over overlapping sweeps a version moves exactly when its number does, if and only if no sweep writes a number that the row has come to hold since the sweep computed it |
| SweepRace.SecondSweepBumps | api/services/channel_availability_service.py:142-153 | of two sweeps that found an item changed to one number, the second moves its version without its number |
| ChannelPublishing.VersionsTrackNumbers | api/services/channel_availability_service.py:23-27 | between any two points of a run a row's version never decreases, and one version never stands for two numbers |
| ChannelPublishing.CleanRowsArePublished | api/services/connector_publisher/publish.py:80-108 | at any moment a row that is not dirty shows the number the sink received last |
| ChannelPublishing.CleanAfterSweepIsTrue | api/services/connector_publisher/publish.py:52-69 | right after a full sweep a wanted row that is not dirty is on the sink with its true sellable number |
| Forecast.NoPlanIsFaster | api/routes/work_control.py:194-202 | no feasible one-picker one-packer plan finishes before the recurrence says |
| Forecast.EagerPlanAttains | api/routes/work_control.py:194-202 | the plan that starts everything as early as possible is feasible and finishes then |
| Forecast.PackFinishIsLeast | api/routes/work_control.py:194-202 | the recurrence is the least finish time over all feasible plans |
| Forecast.FinishIsCriticalPath | api/routes/work_control.py:196-202 | it is the maximum over k of picking batches up to k and packing from k on |
| Forecast.FinishBounds | api/routes/work_control.py:189-202 | it lies between the larger stage total and the sum of both |
| Forecast.BatchesCoverAll | api/routes/work_control.py:184-188 | the batch sizes add up to the packages, all full but the last |
| Forecast.StageTotals | api/routes/work_control.py:191-192 | stage totals are the rate for fifty packages times the package count, however the packages are batched |
| Forecast.PackingBottleneck | api/routes/work_control.py:198-202 | when packing is the slower stage the packer waits for the first batch only |
| Forecast.OnePickerOnePacker | api/routes/work_control.py:196-202 | the loop returns that least finish time |
| Forecast.WorkloadForecast | api/routes/work_control.py:184-210 | pack notes of fifty, and minutes of each stage, of both in series and of the least two-person schedule, each rounded up; each stage at or below the two-person figure and that at or below the sum |
| Paging.FollowIsScanIff | api/routes/snapshot.py:319-339 | following the cursor yields the ordered scan if and only if no page boundary splits rows that share a key |
| Paging.CompleteIff | api/routes/snapshot.py:196-238 | the same from any starting cursor: the first row must also lie past it |
| Paging.UniqueKeysComplete | api/routes/snapshot.py:319-339 | with distinct keys past the start every page size yields each row once, in order |
| Paging.CompleteAtEveryLimitIff | api/routes/snapshot.py:334-335 | complete at every page size if and only if keys are distinct and past the start |
| Paging.RequestCount | api/routes/snapshot.py:218-238 | the number of requests is the row count divided by the limit, plus one, also when the count is a multiple of the limit |
| EventPoll.PollIsPage | api/routes/polling.py:208-255 | one poll returns one page of the filtered scan and the cursor it ends at, or echoes the cursor when empty |
| EventPoll.FollowingYieldsScan | api/routes/polling.py:65-113 | over a fixed log, polling with each next_cursor from zero yields the whole scan at every page size |
| EventPoll.PolledEventsAre | api/routes/polling.py:65-113 | what following the cursor hands over is exactly the events visible for two seconds, of a warehouse and a type in the token's scope, within every filter of request and subscription |
| EventPoll.PollRefusedIff | api/routes/polling.py:50-56 | a poll is refused exactly when it asks for a warehouse or type outside the token's scope |
| EventPoll.GrowingLogIsReadIff | api/routes/polling.py:240-249 | over a growing log and clock, a reader has after every poll exactly what the log then selects up to its cursor, if and only if between polls no event at or below the cursor comes to be selected or ceases to be |
| EventPoll.SettledIff | api/routes/polling.py:78-92 | two calls select the same sequence at or below a cursor if and only if they select the same events there |
| EventPoll.LateEventsAreLost | api/routes/polling.py:240-249 | an event at or below the cursor that the reader does not have by then is returned by no later poll |
| SnapshotPaging.StepKeepsInv | api/routes/snapshot.py:100-245 | each step keeps every served page a page of its scan's own snapshot, and every count of zero true of the scans it saw |
| SnapshotPaging.InsertKeepsOneOpenIff | api/routes/snapshot.py:141-180 | an insert leaves its token with one open scan if and only if no scan a peer inserted since the count is still open |
| SnapshotPaging.OneOpenThroughoutIff | api/routes/snapshot.py:141-180 | over a run no token ever has two open scans, if and only if every insert meets that condition |
| SnapshotPaging.TwoScansRun | api/routes/snapshot.py:141-180 | two first-page requests that both count before either inserts end with two open scans |
| SnapshotPaging.SessionReadsSnapshotIff | api/routes/snapshot.py:196-238 | whatever runs meanwhile, a session paged to its end has read its scan's snapshot whole and once, if and only if the first row lies past the anchor and no boundary splits equal keys |
| SnapshotPaging.CountAnswers | api/routes/snapshot.py:112-166 | a first request is refused for a warehouse out of scope, or while its token has a scan pending or active |
| SnapshotPaging.CursorServedIff | api/routes/snapshot.py:117-140 | a cursor is served if and only if it names the warehouse asked for, in scope, and an active scan of the same token; each refusal under its condition |
| SnapshotPaging.Server.CountScans | api/routes/snapshot.py:141-166 | scope check and count are the protocol's count step |
| SnapshotPaging.Server.NextPage | api/routes/snapshot.py:117-140 | the cursor checks and the page after it are the protocol's step, each refusal under its condition |
| SnapshotPaging.Server.Serve | api/routes/snapshot.py:199-238 | one page after the key, the next cursor from its last row, and the scan closed on a short page while active |
| SnapshotPaging.LotsCanBeLost | api/routes/snapshot.py:334-335 | two lots of one item in one bin are both returned at page size two and not at page size one |
| CursorCodec.Base64RoundTrip | api/routes/snapshot.py:71-83 | decoding the padded base64url form of any bytes gives the bytes back |
| CursorCodec.PadRoundTrip | api/routes/snapshot.py:76-81 | stripped padding is restored exactly |
| CursorCodec.CursorRoundTrip | api/routes/snapshot.py:71-90 | a cursor handed out decodes to the scan id and key it was made from |
| CursorAck.StepKeepsInv | api/routes/polling.py:284-366 | every step of interleaved acks keeps the cursor within the horizon, never lower, and passes end to end from zero |
| CursorAck.PassedEventsWereReadable | api/routes/polling.py:323-345 | in every run the cursor never decreases and every event it has passed was readable by the token that passed it, unless it arrived late |
| CursorAck.PassedEventsWereInScope | api/routes/polling.py:306-345 | event by event: unless late, its warehouse and type are in the lists of the token that moved the cursor over it; and the cursor is zero or at most some logged id |
| CursorAck.PassIsUnique | api/routes/polling.py:347-366 | one pass only moved the cursor over any given id |
| CursorAck.InOrderLogIsCovered | api/routes/polling.py:323-345 | when ids arrive in order every passed event was readable, without exception |
| CursorAck.ArrivalKeepsCoverageIff | api/routes/polling.py:323-345 | an arrival keeps every passed event readable if and only if it lands past the cursor or in the scope of the token that passed its place |
| CursorAck.UpdateKeepsCoverageIff | api/routes/polling.py:347-366 | an update keeps it if and only if every event it passes that arrived late, after a scope check over its place, is in the token's scope |
| CursorAck.CoveredThroughoutIff | api/routes/polling.py:284-366 | at every point of a run each passed event was readable by the token that passed it, if and only if every arrival and every update of the run meets its condition |
| CursorAck.ArrivalIsHarmlessIff | api/routes/polling.py:323-345 | an arrival is harmless whatever its scope if and only if it lands past the cursor and past every approved target |
| CursorAck.HarmlessIffNoneLate | api/routes/polling.py:284-366 | whatever the scopes, a run is safe if and only if none of its events arrives late |
| CursorAck.LateCommitEscapes | api/routes/polling.py:323-345 | a run in which an event committed late lies under the cursor though no acking token could read it |
| SkuCatalog.Server.Sync | api/routes/work_control.py:1365-1450 | one page upserts its items in order and the last page switches off exactly the stale rows and counts them |
| SkuCatalog.AcceptWrites | api/routes/work_control.py:1370-1408 | a page leaves each SKU it mentions active, as a SiteGiant row of its run and capture time, under the name given last |
| SkuCatalog.ClosedRunListsItsSkus | api/routes/work_control.py:1409-1424 | after the closing page the active SiteGiant rows are exactly the run's SKUs if and only if no other active one was captured later; unmentioned manual rows are unchanged |
| SkuSync.StepKeepsInv | sitegiant-bridge/background.js:79-179 | each client or server step keeps: a run's messages follow the pages the server accepted |
| SkuSync.CompletedRunIsWhole | sitegiant-bridge/background.js:136-179 | a run the server reports completed delivered pages 1 to N, none missing |
| SkuSync.CompletedSyncIsTheCatalog | api/routes/work_control.py:1365-1450 | end to end, for a run with captures in order and no other run's page in between, the active rows are exactly its SKUs if and only if none newer was there |
| Receiving.ReceiveKeepsInv | api/routes/receiving.py:183-310 | a receipt keeps each line's quantity equal to its receipts and line and order statuses functions of quantities |
| Receiving.StatusesAgree | api/routes/receiving.py:401-418 | the status receiving writes from line statuses is the one cancelling would write from quantities |
| ReceiveRules.ReceiveAcceptedIff | api/routes/receiving.py:141-240 | a receipt is accepted if and only if the order is open in scope, every entry goes to a bin of its warehouse and a line of it, and, unless over-receipt is allowed, the entries landing on a line sum to at most what remains on it; each line then has received just that much more |
| ReceiveRules.RunsStayWithinOrdered | api/routes/receiving.py:230-240 | with over-receipt off no run of receipts and cancels takes a line beyond what was ordered |
| ReceiveRules.StatusesMean | api/routes/receiving.py:534-563 | in every run the statuses of lines and orders say what they mean of the quantities, written out |
| Receiving.CancelManyReceipts | api/routes/receiving.py:502-546 | which receipts survive depends neither on the order of the ids nor on repetitions |
| Receiving.CancelKeepsInv | api/routes/receiving.py:463-563 | a cancel keeps the same, and leaves the order's status a function of its quantities whatever it was |
| Receiving.RunsKeepTheBooks | api/routes/receiving.py:183-310 | so does every run of receives, cancels and refused requests |
| Receiving.CancelManyStock | api/routes/receiving.py:521-528 | clamping one subtraction at a time comes to clamping the total once |
| Receiving.CancelUndoesReceive | api/routes/receiving.py:463-563 | cancelling a batch's ids, repeated or not, restores receipts, lines and statuses, and stock if and only if no row with stock shares item and bin with a receipt of the batch in another lot |
| Receiving.Tables.ReceiveItems | api/routes/receiving.py:141-438 | the handler's loop and its bin memo have the outcome of the specification, with the batch's ids; a refusal restores the tables |
| Receiving.Tables.CancelReceiving | api/routes/receiving.py:448-563 | the same for cancelling, with the number of receipts reversed |
| CancelRace.UndoKeepsBooksIff | api/routes/receiving.py:502-546 | undoing a receipt as it was read keeps received quantities equal to receipts if and only if it is still there or its line has nothing left to take |
| CancelRace.BooksThroughoutIff | api/routes/receiving.py:502-563 | over interleaved receipts and cancels the books hold throughout if and only if every undo meets that condition |
| CancelRace.DoubleCancel | api/routes/receiving.py:502-546 | two cancels that read one receipt before either undoes it break the books |
| Connector.BreakerTracksFailures | api/connectors/rate_limiter.py:124-181 | after any history the breaker holds the trailing failures, and while open the time of the latest |
| Connector.OpenIffThresholdReached | api/connectors/rate_limiter.py:166-181 | open exactly when the trailing failures reach the threshold, for every history, if and only if the threshold is positive |
| Connector.CircuitBreaker.RecordFailure | api/connectors/rate_limiter.py:166-177 | the method is that function's failure step |
| Connector.CircuitBreaker.Check | api/connectors/rate_limiter.py:139-157 | refuses exactly while open and within the cooldown, and changes nothing |
| Connector.RateLimit.Update | api/connectors/rate_limiter.py:79-102 | each header replaces its field only when present |
| Connector.Slowdown | api/connectors/rate_limiter.py:104-121 | no delay, or at least a tenth of a second and at most two |
| Connector.SlowdownIs | api/connectors/rate_limiter.py:104-121 | no delay without both figures or above the threshold, and from there in proportion to the headroom lost, up to two seconds |
| Connector.SendsOutcome | api/connectors/base.py:222-272 | a call stops at the first answer that is neither raised nor 429 nor 503, or at the third send, and never falls through |
| Connector.SendsBook | api/connectors/base.py:222-272 | it books one failure per raised send plus one final event, a success exactly for a reply below 500 |
| Connector.RaisingCallCountsOneExtra | api/connectors/base.py:266-270 | a call that raises adds one failure more than the sends that raised |
| Connector.Client.MakeRequest | api/connectors/base.py:205-272 | refused exactly while the breaker is open, otherwise result, sends and breaker are those of the specification |
| PreferredBins.SetPrimaryMovesToFront | api/routes/putaway.py:481-508 | one call moves the bin to the front of the item's list and keeps the order of the others |
| PreferredBins.SetPrimaryFrame | api/routes/putaway.py:483-486 | and leaves every other item's list alone |
| PreferredBins.ConstraintHoldsIff | api/routes/putaway.py:481-508 | the uniqueness constraint survives if and only if no other bin of the item sat at priority zero |
| PreferredBins.TableIsMoveToFrontList | api/routes/putaway.py:481-514 | a valid table stands for exactly one list, and after any calls for the moved-to-front list and no other, with positive distinct priorities |
| PreferredBins.Store.UpdatePreferred | api/routes/putaway.py:419-514 | each refusal under exactly its condition; otherwise the bin is first and the item's default, and no non-Pickable bin enters |

## Left out

- HTTP, JSON bodies, schema validation, authentication, rate-limit decorators and response headers; request schemas'
  bounds appear as preconditions (`WellFormed`, `BodyOk`).
- The audit log, outbox events and notifications, except the sale's audit entry that a refund reads.
- Lock timeouts, deadlocks and crashes appear as aborts that may happen at any point; clocks are parameters.
- PosSerial.InterleavingsAreSerial: the catalog and a token's scope do not change during a run; a lock timeout is an abort
  that may come at any point.
- PosDeadlock.DeadlockIff: waits for a minted order number, foreign keys other than the parent order, and transactions
  of other routes are not part of this model.
- ChannelPublishing.StepKeepsInv: a sweep is one step there; overlapping sweeps are the subject of SweepRace, without the
  publisher.
- PosLedger.Checkout: orders are named by their index in commit order instead of a minted number; the return order that
  an exchange opens, prices, addresses and the details in error bodies are not modelled.
- PosRefunds.RunsConserve: picking and shipping of phone orders, receiving and other writers of inventory are not steps
  of the run, and the catalog does not change during it; reference orders move no stock and are outside the sums.
- Dockd: orders may enter as SHIPPED, as counter sales do, but the administrator's ship and unship and the REFUNDED mark
  of a refund are not steps, nor are the line-level effects of recording a shipment.
- Hashes of request bodies are taken to be injective.
- Receiving: receipts booked against return orders and the release of backorders are not part of this model; where a
  purchase order lists an item twice, the line a receipt lands on is taken to be the first.
- CursorAck and SkuSync: each database statement or message is a step on values, not a method that updates an object.
- CursorCodec.CursorRoundTrip: the decoder accepts the text the encoder writes and not every JSON object with those
  fields; characters outside the base64url alphabet are rejected, where the library skips them. Scan ids are printable
  ASCII without quotes or backslashes.
- Forecast.WorkloadForecast: rates are real numbers given as parameters; floating point and the choice between history
  and baseline are not modelled.
- Connector.Client.MakeRequest: the waits themselves, exponential back-off and the URL guard are not modelled.
- SnapshotPaging.SessionReadsSnapshotIff: of the keeper process only promotion, aborting and closing of scans are
  steps; rows of one key keep one order within a snapshot.
- CancelRace.BooksThroughoutIff: the three statements that undo one receipt are one step, the row locks they take being
  held to the commit; a cancel that fails half-way is not a step.
- Availability lookup, sales-order lookup, reference-order ingest, dashboards and reports: read-only or without a stock
  effect, they would only add easy members.
