# Verified model of the stock, settlement and numbering core

This project models, in Dafny, the parts of an order-to-cash and procure-to-pay backend whose
correctness depends on several tables staying in step, and proves that they do.

* **Stock.** `inventory_levels` caches, per product and bin, what an immutable ledger, the reservation
  lines and the transfers under way add up to. `Inventory` is the service as a class; each request is
  also a relation between two states of all tables (`Tables.State`), and `StockRuns` puts 23 kinds of
  requests into runs of any length. `StockInvariant.Inv` is what every reachable state satisfies.
  A request works on the rows its session has loaded and assigns the tables at the end, where the
  router commits; so a refused request changes nothing.
  The modules whose names end in `Laws` say once more, over the columns themselves, exactly when each request
  goes through and what it leaves.
* **Settlement.** `Receivables` derives an invoice balance from the payments on each read, `Payables`
  stores it and updates it in place; both share the post-dated-cheque lifecycle in `Cheques` and the
  48-hour keys in `Idempotency`. `ReceivableBook` and `PayableBook` are the services as classes.
* **Numbering.** `Counters` interleaves transactions that lock a counter row, draw numbers and commit
  or abort; `DocumentNumbers` prints and parses the numbers.
* **Smaller algorithms.** `Quotations`, `GraphSlices`, `Workspaces` (slugs), `Pagination`, `LineMoney`.

Stored quantities are whole hundredths and stored amounts whole cents, unbounded, as the `Numeric` columns
hold them; what requests carry are arbitrary decimals (`real`, in the same unit). A session adds decimals up
exactly until it writes a column, which rounds it (`Demands`, `Rounding`), so a column and the rows it
summarises can come apart; `Demands.Slip` says by how much, and the theorems about the cached columns carry
it. A session writes its rows at the end of a request, and in the middle of one where it creates a level row
or flushes by itself; a written row that the loop no longer refers to is then read back rounded
(`Demands.Reloads`). Clocks, generated ids and the order in which a query returns rows are parameters. Loops of the
services are methods with loops, proved against closed forms (sums over the lines of a document); the
theorems are about those closed forms.

`dafny verify dfyconfig.toml` checks the project.

## Where the code differs from what it documents

The model follows the code. Each item names the member that states it.

* Requests may carry more decimals than the columns keep. An adjustment or a dispatched return that takes a
  quantity ending in half a hundredth lifts the snapshot by one hundredth against its ledger, until an
  opposite slip (`Postings.AdjustSlips`, `Postings.HalfAdjustmentSlips`, `Postings.IssueSlips`); several lines
  on one level are rounded together in the level and once each in their rows
  (`Transfers.TwoSmallReceiptsSlip`, `Reservations.TwoSmallRowsSlip`), and then the floor at zero of a release
  can bite (`Reservations.ReleaseGap`). A line into a new level row between two others changes the outcome
  (`Transfers.NewRowBetweenReceipts`).
* `backend/app/database.py:24-30` turns autoflush off, so `recalc_delivered` sums the notes as they
  were before the status change: delivered figures are exact if and only if the session autoflushes
  (`Deliveries.DeliveredNeedsAutoflush`), and late by exactly one confirmation or cancellation if it does
  not (`StockTheorems.DeliveredLags`). They are never out of range. The flag is a parameter of every stock
  state, and results that depend on it say so.
* Goods receipts find the level by warehouse and product only, so they fail once a product has rows in two
  bins of the warehouse (`Postings.Place`).
* The receipt map of a transfer is keyed by product although lines are not
  (`Transfers.ReportedIsBookedIn`).
* Cancelling a delivery note does not give back the reservations it consumed
  (`StockTheorems.ReservationsStayConsumed`).
* Reconciling a count adds its variances to whatever the level holds by then, so the shelf and the
  books agree only when movements since scheduling cancel out (`StockTheorems.ReconcileCommutes`).
* Receipts against purchase returns post an ISSUE and then overwrite `on_hand`
  (`PurchaseReturns.ConfirmAgreesIff`, `PurchaseReturns.CancelAgreesIff`). At this commit none can be
  created, because `purchase_return_receipt_service.py:269` and `:286` query a column
  `WarehouseBin.workspace_id` that the model class does not have.
* Supplier payment amounts are not limited to two decimals, so an amount that ends in half a cent
  rounds up in both stored columns (`Payables.StoredRefinesDerived`,
  `PayableTheorems.ReversalUndoesSettlement`, `PayableTheorems.HalfCentsOverpay`).
* A debit note that brings a balance to zero leaves the invoice APPROVED or PARTIALLY_PAID
  (`PayableTheorems.NoteNeverPays`, `PayableTheorems.OrderDecidesPaid`), and only taking back one of its
  payments reopens it: so for good exactly when none can be taken back (`PayableTheorems.ExhaustedForGood`).
* `is_expired` and the services differ at the instant of expiry (`Idempotency.ReusedAtExpiry`).

## Model

| member | source | states |
|---|---|---|
| `StockTheorems.EveryLevelAgrees` | backend/app/models/inventory.py:64-76 | in every state that any requests lead to from an empty workspace, whatever decimals they carry: `on_hand` of every level is the replay of its ledger rows plus the slips of the requests on it, so the two agree if and only if the slips add up to zero; `reserved` is the open quantity of its ACTIVE lines plus what reserving slipped; `in_transit` is its shipments under way; none of the four counters is negative |
| `StockTheorems.TwoDecimalsAgree` | backend/app/models/stock_reservation.py:28-34 | over runs whose quantities have two decimals `on_hand` is exactly the replay of the ledger and `reserved` exactly the open quantity of the ACTIVE lines |
| `StockTheorems.OneLineALevel` | backend/app/models/inventory.py:64-76 | on a level that no document names twice, `on_hand` is above the replay by one hundredth for each request that took a quantity ending in half a hundredth, and `reserved` is exact |
| `StockTheorems.NeverTooMuch` | backend/app/services/delivery_note_service.py:194-243 | no run delivers more of an LPO line than it orders or consumes more of a reservation line than it holds |
| `StockRuns.StepSlips` | backend/app/models/inventory.py:118-141 | every kind of request moves the snapshot of a level away from its ledger by exactly its slip: what its lines leave in the column, which is rounded whenever the session writes and rereads it, less the sum of its rounded lines; a receipt that creates a level row writes its earlier lines there and then |
| `StockRuns.StepHolds` | backend/app/models/stock_reservation.py:28-34 | every kind of request moves `reserved` away from the open lines by exactly its slip, and where a release stops at zero by what the open lines still claim |
| `StockRuns.OneLineSlips` | backend/app/models/inventory.py:90-101 | with one line on a level a request slips by one hundredth if the line takes a quantity that ends in half a hundredth, and not otherwise; so never in a receipt or a reservation |
| `StockTheorems.StockIsConserved` | backend/app/models/stock_transfer.py:27-33 | in every state of every run, on hand plus in transit plus recorded discrepancies, each summed over all level rows of a product, equals what non-TRANSFER rows brought in less what they took out, plus the slips on its levels; so stock is conserved if and only if these cancel out |
| `StockRuns.StepKeeps` | backend/app/routers/inventory.py:446-461 | each of the 23 kinds of request keeps the whole invariant: shipments, non-negative counters, lines, the balance of the ledger, counts, deliveries |
| `StockRuns.RunKeeps` | backend/app/models/inventory.py:64-76 | the invariant holds after any number of requests of any kinds |
| `StockRuns.RunExtends` | backend/app/models/inventory.py:118-141 | over any stretch of a run the ledger only grows at its end, and delivery notes that left DRAFT keep their lines |
| `LedgerLaws.LedgerExplained` | backend/app/models/inventory.py:118-141 | in every state of every run each ledger row is explained: by kind, sign and direction, and, for what comes from a note, transfer or count, by a line of that document with the same level and quantity |
| `StockRuns.EmptyOk` | backend/app/models/inventory.py:69-76 | a workspace without rows satisfies the invariant |
| `StockInvariant.PostingGap` | backend/app/models/inventory.py:118-141 | rows that carry the lines of a document, and a column that takes them as the session rounds it, come apart by the slip of the lines, however many hit one level |
| `StockInvariant.BalancedMove` | backend/app/models/stock_transfer.py:27-33 | a transfer step keeps a product in balance when its rows make up for what it changes in flight and in discrepancies |
| `Demands.LineByLineIsPerLevel` | backend/app/services/inventory_ledger.py:39-40 | checking the lines of a document one after the other against what is left available, their exact sums, is the same as comparing the whole demand on each level with its available stock once; so order and splitting of lines do not matter |
| `Demands.SlipOne` | backend/app/models/inventory.py:90-101 | one line on a level: the column and its row come apart, by one hundredth, if and only if the line takes a quantity that ends in half a hundredth |
| `Demands.SlipRising` | backend/app/models/inventory.py:90-101 | where stock comes in they come apart by what the lines leave on an empty level less the sum of the rounded lines, whatever the level held; with a single write that is the rounded sum of the lines |
| `Demands.SlipWhole` | backend/app/services/inventory_ledger.py:34-36 | quantities with two decimals never slip |
| `Demands.FlushGet` | backend/app/database.py:24-30 | a flush writes each loaded column rounded, and leaves other rows alone |
| `Demands.ReopenedPeek` | backend/app/services/inventory_ledger.py:157-172 | what the session shows after it wrote its rows in the middle of a document: the rows it let go of are read back rounded, the others stay as they are |
| `Demands.ColumnCapped` | backend/app/services/stock_reservation_service.py:155-166 | a column that each line keeps within a whole cap stays within it however it is rounded between the lines |
| `Rounding.OneChange` | backend/app/models/inventory.py:90-101 | what a two-decimal column stores after one change of any length |
| `Postings.PostKeeps` | backend/app/services/inventory_ledger.py:202-239 | a posting of any lines that leave stock on hand keeps the invariant |
| `Postings.PostGap` | backend/app/services/inventory_ledger.py:202-239 | it moves the snapshot of each level away from its ledger by the slip of the lines there, and leaves `reserved` where it was |
| `Postings.AdjustKeeps` | backend/app/services/inventory_ledger.py:258-315 | a manual adjustment keeps the invariant; only `on_hand` is checked, so available stock may go negative |
| `Postings.AdjustSlips` | backend/app/services/inventory_ledger.py:290-315 | an adjustment keeps snapshot and ledger together if and only if it does not take a quantity that ends in half a hundredth; if it does, the snapshot comes to lie one hundredth higher against the ledger, until an opposite slip; other levels are untouched |
| `PostingLaws.AdjustsIff` | backend/app/services/inventory_ledger.py:258-300 | exactly when an adjustment goes through; it may leave available stock below zero |
| `PostingLaws.AdjustDoes` | backend/app/services/inventory_ledger.py:287-315 | it moves one level to the nearest hundredth, writes one row, and nothing else |
| `Postings.HalfAdjustmentSlips` | backend/app/schemas/inventory.py:77 | the input: one unit on hand adjusted by -0.005 |
| `Postings.DisposeKeeps` | backend/app/services/grn_service.py:394-447 | disposing a goods-receipt line with any decimals keeps the invariant and never slips: accepted stock is worth a ledger row, damaged stock none |
| `PostingLaws.DisposesIff` | backend/app/services/grn_service.py:394-429 | a goods receipt finds its level exactly when the product has one row in the warehouse, or none and the warehouse one bin |
| `PostingLaws.DisposeDoes` | backend/app/services/grn_service.py:394-447 | accepted goods go on hand with one row, damaged ones into their own column with none, and nothing else moves |
| `Postings.IssueKeeps` | backend/app/services/inventory_ledger.py:210-239 | issues that find enough available stock keep the invariant, however the session rounds between their lines |
| `Postings.IssueSlips` | backend/app/services/purchase_return_service.py:362-383 | a level that one line of a dispatched return draws on slips if and only if the line ends in half a hundredth |
| `PostingLaws.IssuesIff` | backend/app/services/inventory_ledger.py:202-222 | two-decimal quantities are issued exactly when no level is asked for more than is neither reserved nor damaged |
| `PostingLaws.IssueDoes` | backend/app/services/inventory_ledger.py:202-239 | each level then loses exactly what is issued from it |
| `PostingLaws.IssueLeavesHeld` | backend/app/services/inventory_ledger.py:39-40 | whatever decimals an issue carries, it leaves on each level it draws on what is reserved and damaged there |
| `PostingLaws.IssuedEachOrTogether` | backend/app/database.py:24-30 | a session that flushes by itself rounds each line on its own, the application session their sum |
| `Postings.IssueLines` | backend/app/services/purchase_return_service.py:362-383 | the loop: a line with nothing to issue is skipped, and a new level row for it still writes the lines before; refuses exactly when a line finds too little after the lines before it; else every level took its lines as the session rounded them and each posted line wrote a row |
| `Postings.IssueLine` | backend/app/services/purchase_return_service.py:362-383 | one turn of the loop: skipped, refused exactly when too little is free on the loaded row, or posted |
| `Postings.Place` | backend/app/services/grn_service.py:394-429 | a goods receipt posts to the only level row of the product in the warehouse, or to the only bin of a warehouse without one, and fails otherwise |
| `Inventory.Inventory.constructor` | backend/app/models/inventory.py:64-76 | a new workspace is empty and valid |
| `Inventory.Inventory.Adjust` | backend/app/services/inventory_ledger.py:258-315 | for a quantity with any decimals, refuses exactly the non-manager, the zero quantity and the quantity that takes `on_hand` below zero, leaving everything unchanged; otherwise the level and one row change as `Adjusts` says |
| `Inventory.Inventory.Dispose` | backend/app/services/grn_service.py:394-447 | finds the level or refuses; adds accepted and damaged quantities, and one RECEIPT row only if something was accepted |
| `Inventory.Inventory.Issue` | backend/app/services/purchase_return_service.py:362-383 | takes the lines of a return off their levels, all or nothing |
| `Transfers.DispatchNeedsWholeDemand` | backend/app/services/stock_transfer_service.py:167-215 | an approved transfer is dispatched if and only if on every source level the total of all its lines there fits the available stock |
| `TransferLaws.DispatchesIff` | backend/app/services/stock_transfer_service.py:167-215 | the same over the columns of lines and levels |
| `TransferLaws.SourceSide` | backend/app/services/stock_transfer_service.py:167-331 | what dispatch, receipt and cancellation do to the source level: exactly the lines of that level, and nothing at all when a transfer is cancelled before it left |
| `TransferLaws.StatusSteps` | backend/app/services/stock_transfer_service.py:151-331 | exactly when a transfer is approved or cancelled, and that these steps change its status only |
| `TransferLaws.TransferAnswers` | backend/app/services/stock_transfer_service.py:151-331 | what each refusal of a transfer step means |
| `TransferLaws.TransferStep` | backend/app/models/stock_transfer.py:27-33 | no request of any kind takes a transfer another way than DRAFT, APPROVED, IN_TRANSIT, RECEIVED or CANCELLED |
| `TransferLaws.FinalForGood` | backend/app/models/stock_transfer.py:27-33 | over any stretch of a run a received or cancelled transfer stays as it is |
| `TransferLaws.CreatesIff` | backend/app/services/stock_transfer_service.py:86-148 | a transfer is entered exactly when every line has a usable bin in each of the two warehouses and none is stored as zero |
| `TransferLaws.CreateStores` | backend/app/services/stock_transfer_service.py:122-148 | the lines as they are stored |
| `TransferLaws.CreateAnswers` | backend/app/services/stock_transfer_service.py:86-148 | otherwise the first line whose bin cannot be used decides, and what is wrong with the bin |
| `Transfers.ReportedIsBookedIn` | backend/app/routers/inventory.py:453-458 | the receipt map is keyed by product: the quantity booked in for a product is the quantity reported if and only if the figure has two decimals and one line carries the product, or nothing of it arrived |
| `TransferLaws.MissingArrivesInFull` | backend/app/services/stock_transfer_service.py:232-275 | a product the map does not name arrives in full: as much is booked in as was sent, and no discrepancy recorded |
| `TransferLaws.EmptyMapReceipt` | backend/app/services/stock_transfer_service.py:218-280 | a transfer under way can always be received with an empty map, and then every destination level gains exactly the lines that go there |
| `TransferLaws.ReceivesIff` | backend/app/services/stock_transfer_service.py:225-242 | exactly when a receipt goes through |
| `TransferLaws.ReceivedLineByLine` | backend/app/services/stock_transfer_service.py:232-275 | what each line is booked in with; it keeps everything else, and other transfers stay |
| `TransferLaws.ShortfallIs` | backend/app/models/stock_transfer.py:27-33 | the recorded discrepancy of a product is what was sent less what was booked in |
| `Transfers.ReceivedPerProductTo` | backend/app/routers/inventory.py:453-458 | every line of a product in the map receives the same figure, so the quantity booked in is that figure, rounded, times the number of lines |
| `Transfers.MoveKeeps` | backend/app/models/stock_transfer.py:27-33 | any step that moves `in_transit` by what its transfer has in flight, and writes rows that make up for it, keeps the whole invariant |
| `Transfers.CreateKeeps` | backend/app/services/stock_transfer_service.py:86-148 | a new draft between two warehouses keeps the invariant |
| `Transfers.ApproveKeeps` | backend/app/services/stock_transfer_service.py:151-164 | approval moves no stock and keeps the invariant |
| `Transfers.DispatchKeeps` | backend/app/services/stock_transfer_service.py:167-215 | dispatch keeps the invariant and never slips; in particular no `on_hand` goes below zero although lines share levels |
| `Transfers.ReceiveKeeps` | backend/app/services/stock_transfer_service.py:218-280 | full and partial receipt with any decimals keep the invariant: `in_transit` is cleared in full at the source and the shortfall counts as discrepancy |
| `Transfers.ReceiptSlips` | backend/app/services/stock_transfer_service.py:232-275 | a receipt moves the snapshot of a level away from its ledger by what its lines would leave on an empty level, rounded wherever the session writes, less the sum of the rounded lines, so it keeps them together if and only if these are equal |
| `Transfers.ReceiptSlipsOnce` | backend/app/services/stock_transfer_service.py:232-275 | when every destination row exists, the application session keeps snapshot and ledger of a level together if and only if the rounded sum of what arrives there is the sum of the rounded lines |
| `Transfers.NewRowBetweenReceipts` | backend/app/services/inventory_ledger.py:157-172 | the input where this is different: a line into a new row between two lines of 0.006 into one bin, which then takes 0.02 as its rows do |
| `Transfers.TwoSmallReceiptsSlip` | backend/app/schemas/stock_transfer.py:41-43 | the input: two lines of 0.006 into one bin that has a level row |
| `Transfers.CancelKeeps` | backend/app/services/stock_transfer_service.py:283-331 | cancelling in any open status keeps the invariant and never slips; a shipment under way returns to its source |
| `Transfers.ShipLine` | backend/app/services/stock_transfer_service.py:180-210 | one line: refused exactly when the level, after the earlier lines, has too little available |
| `Transfers.ShipLines` | backend/app/services/stock_transfer_service.py:167-215 | the loop: refuses exactly when some line does not fit, else has moved every level by the sum of its lines and written one row a line |
| `Transfers.ReceiveLine` | backend/app/services/stock_transfer_service.py:232-275 | one line: refused exactly when the quantity is negative or above what was sent; destination first, then the swing account, on the rows the session has loaded, which it writes and lets go of when the destination row is new |
| `Transfers.ReceiveLines` | backend/app/services/stock_transfer_service.py:218-280 | the loop: every line got its arrival, every level took its lines as the session rounded them, source and destination alike, also when they meet on one level |
| `Transfers.ReturnLines` | backend/app/services/stock_transfer_service.py:298-325 | the loop of a cancelled shipment puts every line back on its source level |
| `Transfers.EnterLines` | backend/app/services/stock_transfer_service.py:122-147 | the loop that enters the lines of a new transfer with the bins it finds for them, rounded: the first line whose bin is missing, foreign or inactive refuses, or else one that rounds to zero, which a session that flushes by itself meets first |
| `Bins.ResolveBin` | backend/app/services/inventory_ledger.py:71-122 | the named bin if it is an active one of the warehouse, the first active bin if none is named; each refusal otherwise |
| `Bins.ResolvedOnce` | backend/app/services/stock_transfer_service.py:57-65 | a line has a bin if and only if it is not refused, and never two |
| `Bins.ResolvedIsActive` | backend/app/services/inventory_ledger.py:71-122 | a bin that is found is active and in the warehouse; what each refusal means |
| `Inventory.Inventory.CreateTransfer` | backend/app/services/stock_transfer_service.py:86-148 | refuses a transfer within one warehouse, a line without a usable bin and a line that rounds to zero, in the order of the service, else adds the draft and nothing else |
| `Inventory.Inventory.ApproveTransfer` | backend/app/services/stock_transfer_service.py:151-164 | only a draft is approved; a refusal changes nothing |
| `Inventory.Inventory.DispatchTransfer` | backend/app/services/stock_transfer_service.py:167-215 | all or nothing: the refusal is the one specified and leaves every table as it was, success is the specified new state |
| `Inventory.Inventory.ReceiveTransfer` | backend/app/services/stock_transfer_service.py:218-280 | all or nothing, as above, for a receipt with any map |
| `Inventory.Inventory.CancelTransfer` | backend/app/services/stock_transfer_service.py:283-331 | all or nothing; RECEIVED and CANCELLED transfers are refused |
| `Reservations.ReserveNeedsWholeDemand` | backend/app/services/stock_reservation_service.py:126-183 | a reservation against an order that may ship goes through if and only if every row names a catalogue line, all rows for an order line together fit what is undelivered and unheld of it, all rows for a level together fit its available stock, and no row rounds to zero: for any decimals in the application session, for two decimals in one that flushes by itself |
| `HoldLaws.ReservesIff` | backend/app/services/stock_reservation_service.py:72-183 | the same over the columns: what the ACTIVE lines hold of an LPO line is summed from quantity and consumed quantity, and a level counts what is neither reserved nor damaged |
| `HoldLaws.RowAnswers` | backend/app/services/stock_reservation_service.py:113-165 | otherwise the first row that is refused decides, and which refusal it gets, over the columns |
| `HoldLaws.ReserveHolds` | backend/app/services/stock_reservation_service.py:102-183 | a reservation adds to what is held of each line of its LPO the rounded rows for it, and to no line of another LPO |
| `HoldLaws.ReserveWrites` | backend/app/services/stock_reservation_service.py:113-183 | the rows it writes, field by field, under a reservation that lasts 604800 seconds |
| `HoldLaws.HeldFits` | backend/app/services/stock_reservation_service.py:139-153 | after a reservation, delivered and held quantity of each LPO line it names stay within the ordered one, but for half a hundredth each of its rows may gain when it is stored |
| `HoldLaws.CancelHolds` | backend/app/services/stock_reservation_service.py:187-237 | cancelling lowers what is held of each LPO line by exactly what the reservation held of it, and rewrites its ACTIVE lines only |
| `HoldLaws.CancelsIff` | backend/app/services/stock_reservation_service.py:211-232 | exactly the ACTIVE reservations can be cancelled |
| `HoldLaws.ExpiryHolds` | backend/app/services/stock_reservation_service.py:240-266 | expiry releases exactly the ACTIVE reservations whose time has come, and lowers what is held by exactly what they held |
| `Reservations.AutoflushRefuses` | backend/app/services/stock_reservation_service.py:152-166 | the input for which a session that flushes by itself refuses rows that fit together: 0.005 on a level with 0.01 available, a row elsewhere, and 0.005 again |
| `Reservations.ReservedIsCovered` | backend/app/services/stock_reservation_service.py:155-167 | a reservation that goes through leaves no level it touches with negative available stock, also when several rows name one level, and however their sum rounds |
| `Reservations.ReserveKeeps` | backend/app/services/stock_reservation_service.py:102-184 | reserving keeps the invariant: every new line is open and well formed |
| `Reservations.ReserveSlips` | backend/app/services/stock_reservation_service.py:155-183 | reserving moves `reserved` of a level away from its open lines by what the rows would leave where nothing is reserved less the sum of the rounded rows, so it keeps them together if and only if these are equal; in the application session the former is the rounded sum of the rows |
| `Reservations.TwoSmallRowsSlip` | backend/app/schemas/stock_reservation.py:18 | the input: two rows of 0.006 on one level store 0.01 in `reserved` and 0.01 in each line, and releasing both stops at the floor |
| `Reservations.ReleasedClaims` | backend/app/services/stock_reservation_service.py:187-208 | releasing reservations lowers the open quantity on every level by exactly what their ACTIVE lines still held |
| `Reservations.ReleaseKeeps` | backend/app/services/stock_reservation_service.py:187-266 | cancelling one reservation or expiring any set of them keeps the invariant |
| `Reservations.ReleaseGap` | backend/app/services/stock_reservation_service.py:205-206 | releasing leaves `reserved` as far from its open lines as it was, unless the floor at zero bites, which it does if and only if `reserved` lacks more than the lines that stay open claim |
| `Consumption.ConsumedInOrder` | backend/app/services/stock_reservation_service.py:269-328 | a shipment consumes exactly the smaller of its quantity and the open reservations, and no later line gives anything while an earlier one still could |
| `HoldLaws.DrawsOnlyOn` | backend/app/services/stock_reservation_service.py:285-328 | a reservation line of another LPO, LPO line or product, or one that is not ACTIVE, is left as it is by a shipment |
| `HoldLaws.DrawsInOrder` | backend/app/services/stock_reservation_service.py:285-328 | a shipped line consumes the smaller of its quantity and what the columns hold for its LPO line and product, and an earlier line gives everything before a later one gives anything |
| `HoldLaws.SettlesWhenDone` | backend/app/services/stock_reservation_service.py:331-347 | a reservation becomes DISPATCHED exactly when it gave something and all its lines are DISPATCHED |
| `HoldLaws.ConfirmHolds` | backend/app/services/delivery_note_service.py:419-453 | confirming a note takes from what is held for each line and product of its LPO what it ships of them, as far as that goes, and nothing from another LPO |
| `HoldLaws.ConfirmTouchesOnly` | backend/app/services/delivery_note_service.py:419-453 | a reservation line that no line of the note names by LPO, line and product is the same row before and after |
| `Consumption.DrawnKeeps` | backend/app/services/stock_reservation_service.py:306-347 | consumption keeps every line within its quantity, a full line DISPATCHED, and no ACTIVE line under a closed reservation |
| `Consumption.DrawnClaims` | backend/app/services/stock_reservation_service.py:306-328 | the open claims on a level fall by exactly what was taken there |
| `Reservations.CheckRow` | backend/app/services/stock_reservation_service.py:127-165 | one row: the checks in the order of the service, against the running map and what is free on the loaded row, and the flush that an earlier row rounding to zero does not survive |
| `Reservations.ReserveRow` | backend/app/services/stock_reservation_service.py:126-182 | one turn of the loop: the verdict on the row, and the loaded rows, the map and the lines once it is in |
| `Reservations.ReserveRows` | backend/app/services/stock_reservation_service.py:126-184 | the loop and its flush: the first row that is refused decides, else all rows are in and every level took them as the session rounded them |
| `Reservations.ReleaseLine` | backend/app/services/stock_reservation_service.py:187-208 | one line gives back its open quantity, down to the floor at zero |
| `Reservations.ReleaseLines` | backend/app/services/stock_reservation_service.py:187-208 | the loop releases exactly the ACTIVE lines of one reservation |
| `Reservations.ExpireHeads` | backend/app/services/stock_reservation_service.py:240-266 | the loop expires exactly the ACTIVE reservations due at the cutoff and returns their number |
| `Consumption.TakeLine` | backend/app/services/stock_reservation_service.py:306-325 | one line gives the smaller of what it holds and what is still wanted; its level lets go of as much, down to the floor at zero |
| `Consumption.TakeLines` | backend/app/services/stock_reservation_service.py:303-328 | stopping at the first line that covers the rest gives the same rows as asking every line |
| `Consumption.SettleHeads` | backend/app/services/stock_reservation_service.py:331-347 | exactly the touched reservations whose lines are all DISPATCHED become DISPATCHED |
| `Consumption.ReleaseForDispatch` | backend/app/services/stock_reservation_service.py:269-328 | the consumed quantity, the new rows, and `reserved` less what the lines lost, down to the floor at zero |
| `Inventory.Inventory.Reserve` | backend/app/services/stock_reservation_service.py:102-184 | all or nothing, with the specified refusal, for rows with any decimals |
| `Inventory.Inventory.CancelReservation` | backend/app/services/stock_reservation_service.py:211-237 | only an ACTIVE reservation is cancelled, and its open quantity goes back |
| `Inventory.Inventory.ExpireDue` | backend/app/routers/inventory.py:275-290 | for managers only: expires the due reservations and reports how many |
| `StockTheorems.ReconcileCommutes` | backend/app/models/stock_count.py:28-35 | in any run, a level of a reconciled count ends at the counted quantity plus the net ledger movement, and the slips, since the request that scheduled it; and at the counted quantity itself if and only if these cancel out |
| `Counts.ReconciledLine` | backend/app/services/stock_count_service.py:267-323 | the same for one state: counted quantity plus what the level gained since, told by the level and by the ledger |
| `CountLaws.AppliedAfterApproval` | backend/app/services/stock_count_service.py:204-323 | in every run, a count reconciled with a line off by more than two per cent was completed before, and approved by a request that came after its completion |
| `CountLaws.NothingUnapproved` | backend/app/services/stock_count_service.py:280-290 | what is reconciled has no flagged line that is not approved |
| `CountLaws.ReconcilesIff` | backend/app/services/stock_count_service.py:267-323 | exactly when a count is reconciled |
| `CountLaws.StepsIff` | backend/app/services/stock_count_service.py:166-348 | exactly when figures are recorded and a count is completed, approved or cancelled |
| `CountLaws.CountAnswers` | backend/app/services/stock_count_service.py:114-348 | what each refusal of a count step means |
| `CountLaws.StepsDo` | backend/app/services/stock_count_service.py:204-264 | completion flags exactly the lines beyond two per cent, approval covers exactly the flagged ones |
| `CountLaws.RecordDoes` | backend/app/services/stock_count_service.py:166-201 | a recorded figure is the nearest hundredth, and the other lines stay |
| `CountLaws.ScheduledLines` | backend/app/services/stock_count_service.py:114-163 | a count is scheduled with every level row of its warehouse, each once, at the quantity on hand |
| `Counts.ReconcileLeavesOthers` | backend/app/services/stock_count_service.py:291-318 | levels on no line of the count stay as they are |
| `Counts.CorrectionsReplay` | backend/app/services/stock_count_service.py:291-318 | the ADJUSTMENT rows of a count replay to its variances |
| `Counts.CreateKeeps` | backend/app/services/stock_count_service.py:114-163 | a count schedules each level of the warehouse once and keeps the invariant |
| `Counts.RecordKeeps` | backend/app/services/stock_count_service.py:166-201 | recording moves nothing and keeps the invariant |
| `Counts.CompleteKeeps` | backend/app/services/stock_count_service.py:204-239 | completing moves nothing and leaves every line counted |
| `Counts.ApproveKeeps` | backend/app/services/stock_count_service.py:242-264 | approving moves nothing and keeps the invariant |
| `Counts.CancelKeeps` | backend/app/services/stock_count_service.py:326-348 | a cancelled count moves nothing |
| `Counts.ReconcileKeeps` | backend/app/services/stock_count_service.py:267-323 | reconciling keeps the invariant and never slips |
| `Counts.SnapshotLines` | backend/app/services/stock_count_service.py:147-161 | the loop snapshots `on_hand` of each listed level |
| `Counts.FlagLines` | backend/app/services/stock_count_service.py:230-234 | the loop flags exactly the lines beyond two per cent, and any variance on an expected zero |
| `Counts.ApproveLines` | backend/app/services/stock_count_service.py:256-262 | the loop approves exactly the flagged lines |
| `Counts.CorrectLines` | backend/app/services/stock_count_service.py:291-318 | the loop writes one row for each line that is off, moves each level by its variance, and tells whether the database check would fail |
| `Inventory.Inventory.CreateCount` | backend/app/services/stock_count_service.py:114-163 | adds the count for managers, moves nothing |
| `Inventory.Inventory.RecordCount` | backend/app/services/stock_count_service.py:166-201 | stores one counted quantity, rounded, and puts the count in progress, or refuses |
| `Inventory.Inventory.CompleteCount` | backend/app/services/stock_count_service.py:204-239 | refuses while a line is uncounted, else flags the lines |
| `Inventory.Inventory.ApproveCount` | backend/app/services/stock_count_service.py:242-264 | approves the flagged lines of a completed count, or refuses |
| `Inventory.Inventory.ReconcileCount` | backend/app/services/stock_count_service.py:267-323 | all or nothing: an unapproved flagged line or a level below zero refuses the whole count |
| `Inventory.Inventory.CancelCount` | backend/app/services/stock_count_service.py:326-348 | only an open count is cancelled |
| `Deliveries.RemainingNeedsWholeDemand` | backend/app/services/delivery_note_service.py:382-405 | the line-by-line check with its running map refuses nothing if and only if every note line has its LPO line and, for each LPO line, all note lines together fit what is left of it |
| `DeliveryLaws.ConfirmsIff` | backend/app/services/delivery_note_service.py:194-243 | exactly when a draft is confirmed, over the columns: the LPO may ship, confirmed and shipped quantity of each line stay within the ordered one, and each line finds stock once it and the lines before have drawn on the reservations |
| `DeliveryLaws.ConfirmAnswers` | backend/app/services/delivery_note_service.py:194-243 | what each refusal of a confirmation means, in the order they are looked for |
| `DeliveryLaws.NoteMoves` | backend/app/services/delivery_note_service.py:194-283 | what confirming and cancelling do to one level, and that reservations are left alone when a note is cancelled |
| `DeliveryLaws.ConfirmLeavesHeld` | backend/app/services/inventory_ledger.py:39-40 | a confirmed note leaves on each level it draws on what is still reserved and damaged there |
| `DeliveryLaws.CancelsNoteIff` | backend/app/services/delivery_note_service.py:246-283 | exactly the confirmed notes of an LPO that may ship can be cancelled |
| `DeliveryLaws.PlansIff` | backend/app/services/delivery_note_service.py:313-380 | exactly when a note can be planned: lines that fit what is undelivered, or no lines and something undelivered |
| `DeliveryLaws.RequestedLines` | backend/app/services/delivery_note_service.py:347-374 | the lines it gets then: one each in order, at their own bin or else that of the note, to the nearest hundredth |
| `DeliveryLaws.EverythingLeft` | backend/app/services/delivery_note_service.py:347-374 | without requested lines it gets each undelivered LPO line once, in full |
| `DeliveryLaws.RedraftsLikeDrafts` | backend/app/services/delivery_note_service.py:141-185 | rewriting a draft gives it the lines drafting it now would |
| `DeliveryLaws.PlanAnswers` | backend/app/services/delivery_note_service.py:313-380 | what each refusal of planning means, in the order they are looked for |
| `Deliveries.RemainsCovers` | backend/app/services/delivery_note_service.py:382-405 | the line-by-line check bounds the whole shipment of each LPO line by what is left of it |
| `Deliveries.StockedCovers` | backend/app/services/delivery_note_service.py:419-453 | a note whose lines all find stock leaves every level with stock on hand, however its lines share levels and reservations |
| `Deliveries.ConfirmKeeps` | backend/app/services/delivery_note_service.py:194-243 | confirming keeps the invariant: stock, reservation lines, and no LPO line over-delivered |
| `Deliveries.ConfirmGap` | backend/app/services/delivery_note_service.py:419-453 | confirming never slips, and leaves `reserved` as far from its open lines as it was unless the floor bites |
| `Deliveries.CancelKeeps` | backend/app/services/delivery_note_service.py:246-283 | cancelling keeps the invariant |
| `Deliveries.DraftKeeps` | backend/app/services/delivery_note_service.py:83-138 | a new draft note, its lines planned by the service, keeps the invariant |
| `Deliveries.RedraftKeeps` | backend/app/services/delivery_note_service.py:141-185 | rewriting the lines of a draft keeps the invariant |
| `Deliveries.ResolveSlices` | backend/app/services/delivery_note_support.py:346-391 | the loop over requested lines with its running map: the first line without parent, or above what the lines before it left, refuses; then one that rounds to zero |
| `Deliveries.RemainingLines` | backend/app/services/delivery_note_support.py:334-343 | the loop for a note without requested lines takes what is left of every LPO line |
| `Deliveries.PlanLines` | backend/app/services/delivery_note_service.py:347-374 | the refusals of drafting in order, an LPO that may not ship included, and the lines of the note |
| `Deliveries.DeliveredNeedsAutoflush` | backend/app/services/delivery_note_support.py:304-314 | after confirming or cancelling a note the delivered figures of its LPO equal the confirmed quantities if and only if the session flushes before it queries |
| `StockTheorems.DeliveredLags` | backend/app/services/delivery_note_support.py:149-166 | in any run, from one confirmation or cancellation of an LPO to the next, the stored delivered figure of a line is the sum over its confirmed notes as that request found them without autoflush, and as it left them with it |
| `StockTheorems.DeliveredExact` | backend/app/models/customer_purchase_order_item.py:91-93 | with autoflush every stored delivered figure is exact in every state of every run |
| `Deliveries.CheckRemaining` | backend/app/services/delivery_note_service.py:382-405 | the loop with its running map finds the first refusal of the specification |
| `Deliveries.IssueLine` | backend/app/services/delivery_note_service.py:429-453 | one line draws on reservations first and then needs the stock available |
| `Deliveries.IssueLines` | backend/app/services/delivery_note_service.py:419-453 | the loop: refuses exactly when some line is short after the lines before it consumed their reservations |
| `Deliveries.ReturnLines` | backend/app/services/delivery_note_service.py:419-453 | the loop of a cancellation puts back every catalogue line |
| `Deliveries.RecalcDelivered` | backend/app/services/delivery_note_support.py:304-314 | every line of the LPO gets what the query returns, stale or fresh |
| `StockTheorems.CancelUndoesConfirm` | backend/app/services/delivery_note_service.py:246-283 | cancelling a note gives every level back, and takes from every LPO line, exactly what its confirmation moved, whatever ran in between |
| `StockTheorems.CancelUndoesDelivered` | backend/app/services/delivery_note_service.py:246-283 | the stored delivered figures follow: with autoflush the cancellation takes back exactly what the confirmation added, whatever ran in between; without it the confirmation does not count the note yet and the cancellation still does |
| `StockTheorems.ReservationsStayConsumed` | backend/app/services/delivery_note_service.py:419-453 | after confirming and at once cancelling a note a level has its former available stock if and only if nothing reserved there was drawn on; otherwise it has more |
| `Inventory.Inventory.AddOrder` | backend/app/models/customer_purchase_order_item.py:25-34 | a new LPO has nothing delivered |
| `Inventory.Inventory.SetShippable` | backend/app/services/delivery_note_support.py:91-117 | sets whether an LPO may ship, and nothing else |
| `Inventory.Inventory.DraftNote` | backend/app/services/delivery_note_service.py:83-138 | adds a draft with the planned lines, or refuses as planning does |
| `Inventory.Inventory.RedraftNote` | backend/app/services/delivery_note_service.py:141-185 | rewrites a draft with the planned lines, or refuses: not a draft, order missing, not shippable, nothing left, line missing, over-delivery, line that rounds to zero |
| `Inventory.Inventory.CheckNote` | backend/app/services/delivery_note_service.py:203-223 | the refusals before any stock moves, in the order of the service |
| `Inventory.Inventory.ConfirmNote` | backend/app/services/delivery_note_service.py:194-243 | all or nothing; confirming a confirmed note changes nothing |
| `Inventory.Inventory.CancelNote` | backend/app/services/delivery_note_service.py:246-283 | all or nothing; only a confirmed note is cancelled |
| `PurchaseReturns.PostLine` | backend/app/services/purchase_return_receipt_service.py:384-416 | one line: after the posting `on_hand` is overwritten from the available quantity, so the level loses what is reserved or damaged there instead of gaining the line |
| `PurchaseReturns.PostLines` | backend/app/services/purchase_return_receipt_service.py:476-514 | the loop of confirming and of cancelling: refusal, rows and levels |
| `PurchaseReturns.PostsIff` | backend/app/services/purchase_return_receipt_service.py:476-514 | exactly when a receipt is confirmed or cancelled, over the columns |
| `PurchaseReturns.PostDoes` | backend/app/services/purchase_return_receipt_service.py:384-416 | a level then loses what is reserved and damaged there once for each line, whatever the quantities, and the ledger gets one row a line |
| `PurchaseReturns.ConfirmAgreesIff` | backend/app/services/purchase_return_receipt_service.py:384-416 | confirming a receipt keeps snapshot and ledger of a level together if and only if the rows for it bring exactly what it has reserved and damaged, counted once a line |
| `PurchaseReturns.CancelAgreesIff` | backend/app/services/purchase_return_receipt_service.py:476-514 | cancelling it keeps them together if and only if nothing on the level is reserved or damaged and its lines round to zero |
| `Cheques.ActKeepsPairs` | backend/app/services/pdc_service.py:152-272 | cheque actions reach only paired statuses, never leave a terminal one, change nothing but the two statuses, and book a payment only by clearing an amount that fits |
| `Cheques.ActTwice` | backend/app/services/pdc_service.py:152-272 | repeating an action that went through does nothing, whatever the balance is by then |
| `Cheques.ActIff` | backend/app/services/pdc_service.py:152-272 | a manager deposits a cheque from RECEIVED on its date or later, clears it from DEPOSITED within the balance, bounces it from DEPOSITED and returns it from RECEIVED, and in no other case; what it leaves are the statuses of that step and nothing else |
| `Cheques.ActOtherwise` | backend/app/services/pdc_service.py:152-272 | which answer is given otherwise: the cheque is there already, the user may not act, the date has not come, the balance is too small |
| `Receivables.PaidAfterDeposit` | backend/app/services/pdc_service.py:190-217 | in every run from an empty book a customer cheque that counts as paid was deposited before, by a request that went through on its date or later |
| `Payables.PaidAfterDeposit` | backend/app/services/supplier_pdc_service.py:137-289 | the same for supplier cheques |
| `Rounding.RoundedTwice` | backend/app/services/supplier_payment_service.py:232-243 | rounding an amount and the rest of a whole balance separately gives a cent too much if and only if the amount ends in half a cent |
| `Receivables.QuantizeIsIdentity` | backend/app/models/invoice.py:141-156 | quantizing the derived balance changes nothing |
| `Receivables.BalanceMovesByBooked` | backend/app/services/payment_service.py:66-238 | a payment or cheque request moves only the balance of its own invoice, only by what it newly books, never below zero; deposits, bounces, returns, repeats, replays and refusals move none |
| `Receivables.RunBalances` | backend/app/services/pdc_service.py:152-272 | the same over any run of such requests on any invoices |
| `Receivables.TerminalForGood` | backend/app/services/pdc_service.py:191-272 | a cleared, bounced or returned cheque never changes again |
| `Receivables.StatusIff` | backend/app/services/invoice_service.py:289-306 | the recomputed status over the amounts and the due date: PAID exactly when nothing is owed, OVERDUE from the day after the due date unless it was PAID, otherwise by whether anything was paid; drafts and void invoices keep theirs |
| `Receivables.PaysIff` | backend/app/services/payment_service.py:133-220 | exactly when a payment is recorded, over the columns; it leaves one payment row and its key for 172800 seconds, and no other invoice changes |
| `Receivables.PayAnswers` | backend/app/services/payment_service.py:133-220 | otherwise which answer it gets, a replay included, in the order the service looks |
| `Receivables.ServeKeeps` | backend/app/services/payment_service.py:66-238 | every payment stays paired and every key points at a payment, so the "key exists but payment not found" branch is never reached |
| `ReceivableBook.ReceivableBook.constructor` | backend/app/models/payment.py:38-43 | an empty book is valid |
| `ReceivableBook.ReceivableBook.Enter` | backend/app/models/invoice.py:130-156 | a sent invoice enters with nothing paid |
| `ReceivableBook.ReceivableBook.AmountPaid` | backend/app/models/invoice.py:130-139 | the loop over the payments computes the SUCCESS sum of one invoice |
| `ReceivableBook.ReceivableBook.ReadBalance` | backend/app/models/invoice.py:141-156 | sum, clamp and quantize give the derived balance |
| `ReceivableBook.ReceivableBook.UpdateStatus` | backend/app/services/invoice_service.py:308-350 | rewrites the status of one invoice from its payments and nothing else |
| `ReceivableBook.ReceivableBook.Record` | backend/app/services/payment_service.py:66-238 | outcome and new tables are those of `Record`: key first, then balance, then the cheque date |
| `ReceivableBook.ReceivableBook.Ready` | backend/app/services/pdc_service.py:124-138 | the common checks refuse exactly the missing pair, the non-manager and the non-cheque |
| `ReceivableBook.ReceivableBook.Deposit` | backend/app/services/pdc_service.py:151-188 | branch by branch the specified outcome and tables |
| `ReceivableBook.ReceivableBook.Clear` | backend/app/services/pdc_service.py:190-217 | the same for clearing, with the balance read afresh |
| `ReceivableBook.ReceivableBook.Bounce` | backend/app/services/pdc_service.py:219-245 | the same for bouncing |
| `ReceivableBook.ReceivableBook.ReturnCheque` | backend/app/services/pdc_service.py:247-272 | the same for returning |
| `Payables.StoredRefinesDerived` | backend/app/models/supplier_payment.py:4-6 | after any sequence of requests the stored `amount_paid` is the SUCCESS sum, and the stored `balance_due` is non-negative and equals total less payments less applied notes plus one cent for each settlement that ended in half a cent; so stored and derived agree if and only if there was none |
| `Payables.RunKeeps` | backend/app/services/supplier_payment_service.py:91-230 | the payables invariant holds after any run of payments, cheque actions, reversals, note steps and approvals |
| `Payables.SettledMoves` | backend/app/services/supplier_payment_service.py:232-243 | what one settlement does to both stored columns and the status, for any decimal amount |
| `Payables.UnsettledMoves` | backend/app/services/supplier_payment_reversal_service.py:157-178 | what one reversal does to both stored columns and the status |
| `PayableTheorems.ReversalUndoesSettlement` | backend/app/services/supplier_payment_reversal_service.py:101-155 | whatever was served between a settlement and its reversal, `amount_paid` gets back what it took; `balance_due` does if and only if the amount did not end in half a cent |
| `PayableTheorems.ReversalRestoresRow` | backend/app/services/supplier_payment_reversal_service.py:157-178 | reversed at once, the invoice row is as before, status and `paid_at` included, if and only if the amount did not end in half a cent |
| `PayableTheorems.ReversalNeverBlocked` | backend/app/routers/supplier_payments.py:502-508 | a manager can always reverse a SUCCESS payment that is no cheque, and reversing again changes nothing |
| `PayableTheorems.PaysIff` | backend/app/services/supplier_payment_service.py:128-230 | exactly when a supplier payment is recorded, over the columns; it leaves one payment row and its key for 172800 seconds, and no other invoice changes |
| `PayableTheorems.PayAnswers` | backend/app/services/supplier_payment_service.py:128-230 | otherwise which answer it gets, a replay included, in the order the service looks |
| `PayableTheorems.ReversesIff` | backend/app/services/supplier_payment_reversal_service.py:101-178 | exactly when a payment is taken back, and what it leaves in payment and invoice, status and `paid_at` included |
| `PayableTheorems.AppliesIff` | backend/app/services/supplier_debit_note_service.py:152-237 | exactly when a note is applied, and that the balance falls by the note and nothing else moves |
| `PayableTheorems.NoteLife` | backend/app/services/supplier_debit_note_service.py:135-261 | drafts are issued, drafts and issued notes withdrawn |
| `PayableTheorems.AppliedOnce` | backend/app/services/supplier_debit_note_service.py:152-261 | over any run an applied or withdrawn note never changes again |
| `PayableTheorems.PaidAfterApproval` | backend/app/services/supplier_invoice_service.py:255-412 | in every run from an empty book an invoice with a payment was matched and then approved by requests that went through |
| `Payables.JudgesIff` | backend/app/services/supplier_invoice_service.py:255-412 | exactly when matching and approval go through, and that they change the status only |
| `PayableTheorems.NoteNeverPays` | backend/app/models/supplier_debit_note.py:4-10 | applying a note changes neither `amount_paid` nor the status, so an invoice whose balance it uses up is left exhausted: nothing due and not PAID |
| `PayableTheorems.ExhaustedStep` | backend/app/services/supplier_payment_service.py:151-175 | the one request that changes an exhausted invoice is a reversal of one of its payments that goes through; payments, clearing cheques and notes are refused |
| `PayableTheorems.ExhaustedStays` | backend/app/models/supplier_debit_note.py:4-10 | over any run without a request to reverse one of its payments an exhausted invoice keeps its whole row |
| `PayableTheorems.ExhaustedReopens` | backend/app/services/supplier_payment_reversal_service.py:157-178 | taking back a payment of an exhausted invoice reopens it, and paying the amount again makes it PAID |
| `PayableTheorems.ExhaustedForGood` | backend/app/services/supplier_payment_reversal_service.py:101-178 | an exhausted invoice keeps its row in every run if and only if none of its payments can be taken back, as when it is APPROVED or was paid by cheques only; in every other case some run makes it PAID |
| `PayableTheorems.OrderDecidesPaid` | backend/app/services/supplier_debit_note_service.py:152-237 | one payment and one note that use up a balance leave the same figures in both orders, but a PAID invoice only when the payment comes last |
| `PayableTheorems.HalfCentsOverpay` | backend/app/schemas/supplier_payments.py:25 | two payments of half a cent on an invoice of one cent book two cents |
| `PayableBook.PayableBook.constructor` | backend/app/models/supplier_invoice.py:36-60 | an empty book is valid |
| `PayableBook.PayableBook.Enter` | backend/app/services/supplier_invoice_service.py:46-66 | a new invoice owes its total |
| `PayableBook.PayableBook.Judge` | backend/app/services/supplier_invoice_service.py:255-412 | only the steps of matching, matching a discrepancy again, and approval change the status |
| `PayableBook.PayableBook.Settle` | backend/app/services/supplier_payment_service.py:232-243 | the in-place settlement, field by field, is `Settled` |
| `PayableBook.PayableBook.Record` | backend/app/services/supplier_payment_service.py:90-230 | outcome and new tables are those of `Record` |
| `PayableBook.PayableBook.ActOn` | backend/app/services/supplier_pdc_service.py:137-289 | outcome and new tables of a cheque action; clearing settles the invoice |
| `PayableBook.PayableBook.Reverse` | backend/app/services/supplier_payment_reversal_service.py:101-178 | outcome and new tables of a reversal, field by field |
| `PayableBook.PayableBook.DraftNote` | backend/app/services/supplier_debit_note_service.py:100-133 | adds a draft note |
| `PayableBook.PayableBook.IssueNote` | backend/app/services/supplier_debit_note_service.py:135-149 | only a draft is issued |
| `PayableBook.PayableBook.ApplyNote` | backend/app/services/supplier_debit_note_service.py:152-237 | lowers the balance and marks the note, or refuses |
| `PayableBook.PayableBook.CancelNote` | backend/app/services/supplier_debit_note_service.py:240-261 | an applied note stays applied |
| `Idempotency.OnePaymentPerLife` | backend/app/models/idempotency_key.py:11-33 | with a clock that never runs back, after a request created a payment every request with its key in the next 48 hours returns that payment, whatever other keys and workspaces do; a second payment needs the 48 hours to pass |
| `Idempotency.CreatedOnce` | backend/app/services/payment_service.py:133-161 | no payment is created twice, under any key |
| `Idempotency.ReusedAtExpiry` | backend/app/models/idempotency_key.py:31-33 | the first acceptable request that makes a second payment under a key is the first one 48 hours or more after the payment; the model property calls the row expired at exactly the same instants but the first, where the service already reuses it |
| `Idempotency.PayablesFollow` | backend/app/services/supplier_payment_service.py:128-149 | recording a supplier payment is one step of the key protocol |
| `Idempotency.ReceivablesFollow` | backend/app/services/payment_service.py:133-161 | recording a customer payment is one step of the key protocol |
| `Idempotency.PayablesPayOnce` | backend/app/services/supplier_payment_service.py:128-149 | in any run of the payables with a clock that never runs back: for 48 hours after a payment was recorded under a key every payment request with the key on an existing invoice returns that payment, whatever reversals, notes, cheque actions and other payments come in between; a second payment needs the 48 hours to pass |
| `Idempotency.ReceivablesPayOnce` | backend/app/services/payment_service.py:133-161 | the same in any run of the receivables |
| `Counters.Gapless` | backend/app/models/invoice_counter.py:10-20 | under every interleaving of any transactions, aborts and lost first-insert races included, the committed numbers of a workspace and year are 1, 2, ..., last_number, each once and in commit order |
| `Counters.NextKeeps` | backend/app/services/invoice_number.py:32-90 | every step of the lock, insert, increment, commit and abort protocol keeps its invariant |
| `Counters.CommitKeeps` | backend/app/services/invoice_number.py:59-82 | a commit appends exactly the next numbers of the rows it held; transactions holding other rows see nothing of it |
| `Counters.OthersUntouched` | backend/app/models/invoice_counter.py:13-14 | a step of one transaction changes neither what another one holds nor the committed counter of a row the other one holds |
| `Counters.HeldStaysLatest` | backend/app/models/invoice_counter.py:13-14 | from the moment a transaction holds a counter row the value it read stays the committed one through every interleaving, until its own next step |
| `Counters.NextNumberIsGiven` | backend/app/services/invoice_number.py:50-82 | a transaction on a row that nobody holds gets the next number and commits it |
| `Counters.FirstNumberIsGiven` | backend/app/services/invoice_number.py:61-82 | where there is no row yet it inserts it and gets number 1 |
| `Counters.WaitsAndAborts` | backend/app/services/invoice_number.py:52-89 | only a commit publishes, an abort leaves nothing, and a row that another transaction holds is waited for |
| `Counters.LostInsert` | backend/app/services/invoice_number.py:84-89 | a lost first insert starts the whole transaction over, or with a savepoint keeps what it held and drew |
| `Counters.PrintedOnce` | backend/app/models/invoice_counter.py:40-42 | no two committed documents of a workspace carry the same printed number |
| `DocumentNumbers.RoundTrip` | backend/app/models/invoice_counter.py:40-42 | a printed number parses back to its year and number, whatever the prefix and beyond four digits too |
| `DocumentNumbers.RenderIsInjective` | backend/app/services/invoice_number.py:80-82 | two equal printed numbers have the same year and number |
| `DocumentNumbers.Printed` | backend/app/models/invoice_counter.py:40-42 | prefix, year and number joined by dashes, the number in four digits or as many more as it needs |
| `DocumentNumbers.PrintedSeven` | backend/app/models/invoice_counter.py:40-42 | number 7 of 2026 is INV-2026-0007 |
| `Quotations.RunKeeps` | backend/app/services/quotation_service.py:301-464 | over any run a quotation has a document exactly when it is CONVERTED, never two; final statuses are final and a document is never replaced |
| `Quotations.OneDocumentForGood` | backend/app/services/quotation_service.py:346-464 | after a conversion no later conversion makes another document: the same one returns it while it is not deleted, the other is refused for good |
| `Quotations.LapsedNeverConverts` | backend/app/services/quotation_support.py:73-105 | a rejected or expired quotation never converts |
| `Quotations.GoodThroughItsDate` | backend/app/services/quotation_support.py:73-105 | a SENT quotation is good up to and including the day it names; accepting and rejecting succeed exactly then |
| `Quotations.ConvertsOnlyAccepted` | backend/app/services/quotation_service.py:275-464 | only a draft with lines is sent, and only an accepted quotation makes a document, the one asked for under its new id |
| `Quotations.Quotation.constructor` | backend/app/services/quotation_service.py:179-227 | a new quotation is a draft without documents |
| `Quotations.Quotation.ExpireIfDue` | backend/app/services/quotation_support.py:73-105 | only a SENT quotation past its date expires |
| `Quotations.Quotation.Send` | backend/app/services/quotation_service.py:275-299 | a draft with lines is sent |
| `Quotations.Quotation.Decide` | backend/app/services/quotation_service.py:301-344 | expiry first, then acceptance or rejection of a SENT quotation |
| `Quotations.Quotation.ConvertToInvoice` | backend/app/services/quotation_service.py:346-402 | the branches of the conversion, the deleted invoice included |
| `Quotations.Quotation.ConvertToLpo` | backend/app/services/quotation_service.py:404-464 | the branches of the conversion, the deleted LPO included |
| `GraphSlices.BuildAdj` | scripts/graphify/regenerate.py:528-535 | the loop computes exactly the relation "both known and joined by a link" |
| `GraphSlices.AdjacencySymmetric` | scripts/graphify/regenerate.py:528-535 | adjacency is symmetric and closed over the known nodes |
| `GraphSlices.Widen` | scripts/graphify/regenerate.py:543-547 | the nested loop selects the focal nodes and exactly their allowed neighbours, and no lookup misses |
| `GraphSlices.SliceIds` | scripts/graphify/regenerate.py:538-562 | the three passes give the slice of the specification |
| `GraphSlices.TiersNest` | scripts/graphify/regenerate.py:464-473 | each fallback tier is part of the one before |
| `GraphSlices.SliceBounds` | scripts/graphify/regenerate.py:538-562 | a slice holds its focal nodes, stays within one hop, lies between narrowest and widest tier, and with more than 1800 nodes is exactly the narrowest |
| `GraphSlices.SliceIs` | scripts/graphify/regenerate.py:538-562 | which tier a slice is: the widest of at most 1300 nodes, else that of application and migrations of at most 1800, else the application alone |
| `GraphSlices.InTier` | scripts/graphify/regenerate.py:538-562 | what is in a tier: the nodes of the files, and their neighbours whose own file starts with one of the prefixes |
| `Workspaces.FreeSlug` | backend/app/auth/router.py:97-108 | the loop ends for every finite set of taken slugs, with the first candidate that is free |
| `Workspaces.CandidatesDiffer` | backend/app/auth/router.py:107-108 | no slug is tried twice |
| `Workspaces.CandidatesAre` | backend/app/auth/router.py:97-108 | the slug itself is tried first, then with -1, and so on |
| `Pagination.ListPage` | backend/app/routers/clients.py:150-169 | the filter loop and the slice: the page, the totals, and `has_next` exactly when some later page shows something |
| `Pagination.PagesCoverTheList` | backend/app/routers/clients.py:157-169 | pages 1 to `pages` one after the other are the whole filtered list in order |
| `Pagination.PageShows` | backend/app/routers/clients.py:158-169 | exactly the pages 1 to `pages` are non-empty |
| `Pagination.FilteredKeeps` | backend/app/routers/clients.py:151-154 | the filtered list holds exactly the rows that pass the filter |
| `LineMoney.BackfillIsClose` | backend/alembic/versions/c8e1a4f2b6d0_fta_tax_invoice_fields.py:109-116 | gross is within 0.005 * (2 + r/100) of q * p * (1 + r/100) |
| `LineMoney.DocumentIsClose` | backend/alembic/versions/c8e1a4f2b6d0_fta_tax_invoice_fields.py:109-116 | over n lines the bound is n times that of the highest rate |
| `LineMoney.BackfillBoundIsTight` | backend/alembic/versions/c8e1a4f2b6d0_fta_tax_invoice_fields.py:109-116 | the bound is reached |
| `LineMoney.BackfillIsService` | backend/app/services/line_money.py:22-40 | for a line without discount migration and service give the same amounts if and only if the extended amount is not negative, which is when the service does not refuse it |
| `LineMoney.DiscountIsClose` | backend/app/services/line_money.py:22-40 | the bound for a line with a percentage discount, where three roundings meet |
| `LineMoney.AmountDiscountIsClose` | backend/app/services/line_money.py:22-40 | with a discount in money: refused exactly when it exceeds the extended amount, and the bound where two roundings meet |
| `LineMoney.HalfUpNear` | backend/app/services/line_money.py:17-19 | rounding is off by at most half a cent, on negative amounts too |
| `LineMoney.HalfUpTies` | backend/app/services/line_money.py:17-19 | ties go away from zero |
| `LineMoney.HalfUpWhole` | backend/app/services/line_money.py:17-19 | rounding an amount in whole cents changes nothing |
| `LineMoney.NoteSplitIsClose` | backend/alembic/versions/a1b2c3d4e5f6_align_tax_debit_note_items.py:80-93 | discount plus net of a backfilled tax debit note item is within a cent of quantity times price |
| `LineMoney.NoteSplitOfCents` | backend/alembic/versions/a1b2c3d4e5f6_align_tax_debit_note_items.py:80-93 | for whole cents they add up exactly, unless the discount falls on half a cent, when the item is one cent too dear |

## Left out

- Concurrency of stock and payment requests: each request is one atomic step. Row locks and deadlocks are modelled only for the counters.
- Idempotency under true concurrency: two requests that insert the same key at once on different invoices meet the unique constraint; the model serves requests one after the other.
- Inventory.Inventory.RedraftNote: changes of header fields without new lines are left out; the bin of the note is a parameter.
- Deletion of rows: soft-deleted notes, invoices and clients are not in the tables, except for the documents of a quotation.
- Workspaces: each book is one workspace, except in `Idempotency`, `Counters` and `Workspaces`, where isolation is the point.
- Master data: products and warehouses exist and are active, and except in a new transfer a line already names its bin; the other lookups and their errors are left out.
- Inventory.Inventory.AddOrder: an LPO enters with its lines as stored; its status machine is reduced to whether it may ship (`Inventory.Inventory.SetShippable`), and `quantity_invoiced` is not modelled.
- Delivery notes against an invoice instead of an LPO, credit holds, and the catalogue check of products at confirmation.
- Inventory.Inventory.Dispose: the goods-receipt and order statuses around the posting, the tolerance checks and landed costs are left out.
- Purchase returns: only the issue at dispatch is modelled, for given quantities and bins; approval, cumulative limits, the choice of bin and automatic debit notes are left out. Receipts against them are modelled by their postings only and are no request of a run, since none can be created.
- PurchaseReturns.PostLine: for a session that does not flush by itself, as the application's; the level is one object throughout the line.
- The sort order of note lines before stock is issued: the theorems hold for any order of lines.
- Available stock below zero: nothing forbids it, and a manual adjustment or a reconciliation can cause it; it is no part of the invariant.
- Receivables.BalanceMovesByBooked: the status written while a payment is recorded is computed from stored cents; whether the session still shows the unrounded amount at that moment is not modelled. Issued credit and tax debit notes enter as totals (`SetNotes`); their own workflow is left out.
- PayableBook.PayableBook.Judge: three-way matching is reduced to its verdict; tolerances and lines are left out.
- Counters.NextKeeps: a retry after a lost first insert is a new `Select` step; the limit of three attempts is left out, as is the number preview.
- LineMoney.BackfillIsService: quantities, prices and percentages have two decimals, as their columns do; a service call may carry more until it is stored.
- Quotation editing, workspace-wide expiry and the copying of lines into the new document; event logs, notifications, exports, authentication, rate limits and the user interface.
