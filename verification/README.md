# Warehouse accounting: a verified model

A Dafny model of the parts of a warehouse and purchase backend whose correctness depends on every run,
every table or every rounding, with proofs about them.  `dafny verify dfyconfig.toml` checks everything.

| module | what it models |
|---|---|
| `RateLimit` | the in-process sliding-window limiter, per key |
| `ReadCache` | the generation-keyed read cache under every interleaving of readers, writers, eviction and invalidation |
| `Windows`, `StockLedger` | running sums per item in `(created_at, id)` order; migration 050 |
| `StockBackfill`, `StockBackfillTheorems`, `StockAfterBackfill` | migration 049: its keys, chains, second run and downgrade |
| `StockReceipts`, `LineQuantities` | which row 049 adds for a purchase and an item; what a line brings into stock |
| `StockRefusals` | when the constraint on the stock refuses 049 and 050 |
| `StockRounding`, `StockDelivered` | migration 048 against 049, with rounding |
| `StockMovements`, `StockRequests` | live stock movements; what requests are answered and do |
| `StockMigration`, `StockDatabase` | what 049 and 050 make of a live database; the tables updated in place |
| `PurchaseTotals`, `PurchaseAmounts` | header subtotals (008), narrowing (009) and line totals (010); the laws of amounts |
| `CatalogUnits`, `CatalogUnitLaws` | the unit profile of an item over create, batch, scan and update |
| `SupplierPrices`, `SupplierChoices` | latest and volume-weighted prices per supplier, the best supplier, and the report in terms of its rows |
| `ItemCodes`, `ItemCodeRuns`, `ItemCodeLaws` | sequential item codes, over runs of requests; given and typed codes |
| `DefaultSuppliers` | ordered default suppliers and supplier memory |
| `DailyUsage`, `DailyUsageTheorems`, `DailyUsageCorrections`, `DailyUsageRuns`, `DailyUsageLaws`, `UsageMovements` | daily usage batches, corrections, snapshots and runs of days, and their movements in the ledger |
| `SupplierImport`, `SupplierImportTheorems`, `SupplierCells` | the re-runnable supplier import, and its cells |
| `ContactLinks`, `ContactLinksTheorems`, `ContactLaws` | brokers, suppliers and the links between them |
| `Numerals`, `Decimals`, `Texts`, `TextLaws`, `Patterns`, `Lists`, `Options` | printing and parsing numbers, rounding half away from zero, ASCII text, `LIKE`, lists without repetitions |

Where the source updates something in place the model has a class whose methods do the same steps; each
method is proved to do what a specification function says, and the lemmas are about that function.
The operations on texts and numbers that everything rests on have their laws in `TextLaws`, `Patterns` and
`Decimals`.  Lemmas named `...Iff` give the exact condition under which a promise holds, and the lemmas beside them
give an input where it does not.

Quantities of stock are whole thousandths and money is in the scale of its column; other amounts are
rational numbers.  A row identifier is a 128-bit number whose text has fixed width, so the order of
identifiers is the order of their texts.

## Where the code and its description disagree

The model follows the code.

- The migrations 049 and 050 are described as repairing the stock.  The constraint that stock is never
  negative (044) is in force when they run, so each fails as a whole when some live item would end below zero:
  049 exactly as `StockRefusals.UpgradeAllowedIff` says, 050 as `StockLedger.ReplayAllowedIff` says.
  `StockRefusals.NegativeLogIsRefused` and `StockMigration.LostStockIsRefused` are the smallest inputs.
- Migration 049 counts a movement twice when the service has also written its row of the adjustment log, if
  the upgrade goes through (`StockMigration.ProjectedRunsAreCountedTwice`, `ProjectedUpgradeGoesThroughIff`);
  `StockMigration.RunThenMigrationKeepsStockIff` says when the live stock survives.
- The filter `LIKE 'legacy_adj:%'` of the downgrade is not a literal prefix: its underscore matches any
  character, so it deletes a movement with the key `legacyXadj:1` too (`StockAfterBackfill.ForeignKeyIsDeleted`).
- 049 takes a delivery for recorded when a reason in the log contains its human id; a longer id that contains it
  does so too (`StockReceipts.LongerIdHidesDelivery`).
- 049 gives most kinds of live movement back as another kind (`StockRequests.CopiedKindIff`).
- The read cache is bumped by a stock movement before the caller commits
  (`ReadCache.EarlyBumpCanBeMissed`); some catalog writes do not bump at all (`ReadCache.SilentWriteCanBeMissed`).
  `ReadCache.CommitIsSeenIff` says exactly when such a commit is seen nevertheless.
- A weight per bag is meant for bags and pieces, but resolving the name can give one to any new item
  (`CatalogUnits.TinWithKgPerBag`), and the next accepted update takes it from pieces as well.
- Amounts below 0.0005 pass the check that they are positive and are stored as zero
  (`CatalogUnits.RunKeepsBagsPositiveIff`); a tin stored with zero then refuses unit edits that leave its
  weight out (`CatalogUnits.UpdateRefusedIff`).
- An edit that names a box a box without mentioning the items per box resets them to one
  (`CatalogUnits.UpdateKeepsBoxCountIff`).
- Item codes are said never to be assigned twice; an edited code or a row deleted for good can make the scan
  assign one again (`ItemCodeRuns.RunKeepsNeverTwiceIff`).
- The import script calls itself idempotent; a row without GST number whose name is not single-spaced
  is inserted on every run (`SupplierImportTheorems.UntidyRowIsInsertedAgain`).
- A usage batch that is sent again as a correction replaces the log of the day.  The stock it replaces only
  where the first batch used nothing or the second finds no more of the item than arrived on the day
  (`DailyUsageCorrections.CorrectionReplacesIff`); `DailyUsageCorrections.BothAreTakenIff` says when both
  are taken away in full.
- A second use of an item on one day lowers the opening of that day below the closing of the day before
  (`DailyUsageRuns.WorkDaysConnectIff`).
- An `update_broker` whose list leaves out a supplier takes its link and leaves the broker its primary one
  (`ContactLinksTheorems.RunKeepsPrimariesLinkedIff`).
- A broker given both as the single one and in the list of a supplier does not become its primary broker
  unless it is the first of the list (`ContactLinksTheorems.UpdateSupplierSets`).

## Model

| member | source | states |
|---|---|---|
| `RateLimit.SlidingWindowLimiter.Allow` | backend/app/middleware/rate_limit.py:17-27 | one call: admitted iff fewer than `max_requests` admissions of the key lie at or after `now - window`, judged on the full history; the stored bucket is exactly those admissions, other keys are untouched |
| `RateLimit.SlidingWindowLimiter.Pruned` | backend/app/middleware/rate_limit.py:22-23 | the pruning loop leaves exactly the end of the bucket from the first time at or after the cutoff |
| `RateLimit.PrunedIsRecent` | backend/app/middleware/rate_limit.py:20-24 | the pruned bucket refines the history: it is the list of admitted times at or after the cutoff, whatever earlier calls have dropped |
| `RateLimit.ServesAfterCall` | backend/app/middleware/rate_limit.py:17-27 | one call on one key keeps the bucket of every key in step with the history of that key |
| `RateLimit.NeverExceeds` | backend/app/middleware/rate_limit.py:17-27 | no closed window of the configured length ever holds more than `max_requests` admissions, over every run |
| `RateLimit.Maximal` | backend/app/middleware/rate_limit.py:17-27 | at every prefix of a run the limiter has admitted at least as many calls as any choice that respects every window |
| `RateLimit.NeverLater` | backend/app/middleware/rate_limit.py:17-27 | exchange form: the i-th admission is never later than the i-th of any valid choice |
| `RateLimit.DroppedIsEnd` | backend/app/middleware/rate_limit.py:22-23 | what pruning leaves is an end of the bucket that starts at or after the cutoff, and everything before it lies before the cutoff |
| `RateLimit.NegativeWindowNotMaximal` | backend/app/middleware/rate_limit.py:11-13 | the only configurations without maximality: limit zero with any negative window |
| `ReadCache.GenerationCounters.Bump` | backend/app/read_cache_generation.py:12-15 | a bump raises the generation of its business by one and of no other |
| `ReadCache.RunInv` | backend/app/routers/catalog.py:1680-1692 | over every interleaving of readers, writers, bumps, eviction and invalidation, an entry of generation g reflects every commit whose bump is among the first g; the past is only extended |
| `ReadCache.AnswersAreReads` | backend/app/routers/catalog.py:1680-1809 | every answer, hit or miss, is the page an uncached read of the same query computes, at versions no older than the generation the read started with |
| `ReadCache.FreshAfterBump` | backend/app/read_cache_generation.py:12-24 | a read that starts after a bumping write has finished never sees data older than that write, even when a slow reader stores late |
| `ReadCache.VersionsAreCommits` | backend/app/routers/catalog.py:1680-1809 | over every run the versions are the data at the start followed by the data of the accepted commits, in their order |
| `ReadCache.FreshData` | backend/app/read_cache_generation.py:12-24 | when d is the last commit and its writer has bumped, every read that starts then is answered with the page of d alone, whatever the cache and slow readers hold |
| `ReadCache.BumpCoversEarlierCommits` | backend/app/read_cache_generation.py:12-18 | a bump of any writer also protects every earlier commit, silent ones included |
| `ReadCache.ReadIsFreshIff` | backend/app/routers/catalog.py:1680-1692 | from any reachable state, every answer to a read that starts now comes from version v on, in every continuation, iff the cached page of its query and generation and the readers about to file one have seen nothing older |
| `ReadCache.CommitIsSeenIff` | backend/app/routers/catalog.py:1680-1692 | a commit of any writer is seen by every read of a query that starts after it, before a further bump, iff at the commit no page of the query was cached under the current generation and no reader of it had begun |
| `ReadCache.SilentWriteCanBeMissed` | backend/app/routers/catalog.py:2004 | so from any reachable state a reader can fill the cache and make a write that does not bump be missed; the stale read is given |
| `ReadCache.EarlyBumpCanBeMissed` | backend/app/services/stock_movement_service.py:335-338 | a stock movement bumps before its caller commits, so from any reachable state a finished movement can be missed; the stale read is given |
| `StockLedger.ReplayYieldsCorrectLedger` | backend/alembic/versions/050_stock_ledger_replay_current_stock.py:14-34 | for every item the replayed chain has the same events in `(created_at, id)` order, starts at zero, adds each delta, meets row to row and ends at the sum of all deltas |
| `StockLedger.ReplaySetsStockToSum` | backend/alembic/versions/050_stock_ledger_replay_current_stock.py:36-48 | live items with movements get the sum of all their deltas as stock; deleted items and items without movements keep theirs |
| `StockLedger.ReplayAllowedIff` | backend/sql/044_catalog_current_stock_non_negative.sql:11-13 | 050 goes through under the stock constraint iff no live item has a negative sum of deltas |
| `StockLedger.ReplayIdempotent` | backend/alembic/versions/050_stock_ledger_replay_current_stock.py:14-34 | replaying twice is replaying once |
| `StockLedger.ReplayFixpoints` | backend/alembic/versions/050_stock_ledger_replay_current_stock.py:14-34 | the ledgers that replay leaves alone are exactly those whose every chain is consistent from zero |
| `StockLedger.ReplayShiftsConsistentChain` | backend/alembic/versions/050_stock_ledger_replay_current_stock.py:14-34 | replay moves every balance of a chain by exactly `-q` iff the chain was consistent from q |
| `StockBackfillTheorems.LegacyKeyInjective` | backend/alembic/versions/049_stock_ledger_sql_backfill.py:37 | different log rows get different `legacy_adj:` keys |
| `StockBackfillTheorems.ReceiptKeyInjective` | backend/alembic/versions/049_stock_ledger_sql_backfill.py:160 | different (purchase, item) pairs get different `trade_purchase:` keys |
| `StockBackfillTheorems.KeyFormatsDisjoint` | backend/alembic/versions/049_stock_ledger_sql_backfill.py:37-160 | no key has both formats |
| `TextLaws.UuidTextShape` | backend/alembic/versions/049_stock_ledger_sql_backfill.py:37-160 | the identifiers in keys are printed as 8, 4, 4, 4 and 12 hexadecimal digits in lower case, which give the identifier back |
| `StockBackfillTheorems.LogRowIsRecorded` | backend/alembic/versions/049_stock_ledger_sql_backfill.py:20-47 | phase 1 records every log row of an existing item that the ledger lacks, from its old to its new quantity |
| `StockBackfillTheorems.LegacyRowRecords` | backend/alembic/versions/049_stock_ledger_sql_backfill.py:20-47 | phase 1 adds nothing else |
| `StockBackfillTheorems.BackfillKeepsKeysUnique` | backend/alembic/versions/049_stock_ledger_sql_backfill.py:88-176 | the backfill violates neither the primary key nor the unique idempotency key of the ledger |
| `StockAfterBackfill.PostedIsThere` | backend/alembic/versions/049_stock_ledger_sql_backfill.py:143-176 | every eligible receipt of an existing item is in the ledger afterwards, with its balances |
| `StockReceipts.DeliveryIsRecordedOnceIff` | backend/alembic/versions/049_stock_ledger_sql_backfill.py:88-176 | for any purchase and item 049 adds exactly one row with their key, from what the purchase delivers at its commit time, iff it delivers the existing item, the key is new and no "purchase" row of the item in the log contains its human id, letter case aside; else it adds none |
| `StockReceipts.LongerIdHidesDelivery` | backend/alembic/versions/049_stock_ledger_sql_backfill.py:93-98 | so a log row that names a purchase whose human id contains another one hides the delivery of the other too |
| `Patterns.ILikeContainsIff` | backend/alembic/versions/049_stock_ledger_sql_backfill.py:98 | `ILIKE` with `%x%` matches exactly the texts that contain x, letter case aside, for x without special characters |
| `LineQuantities.ReceivedSplits` | backend/alembic/versions/048_stock_commit_backfill_guards.py:20-38 | what is received of a line in two parts counts as the sum of the parts, and nothing received as nothing |
| `LineQuantities.ReceivedInFull` | backend/alembic/versions/048_stock_commit_backfill_guards.py:20-38 | a line received in full counts with its stock quantity, or its ordered quantity if it has none |
| `LineQuantities.UnscaledCounts` | backend/alembic/versions/048_stock_commit_backfill_guards.py:20-38 | so does a line without a received quantity or without a positive ordered one |
| `LineQuantities.SplitKeepsCommitted` | backend/alembic/versions/048_stock_commit_backfill_guards.py:20-43 | receiving a line in two deliveries leaves the committed quantity of its purchase as it was |
| `StockAfterBackfill.ReceiptsFormChain` | backend/alembic/versions/049_stock_ledger_sql_backfill.py:100-176 | per item the phase 2 rows in `(committed_at, purchase_id)` order form an unbroken chain from the ledger tail to that tail plus the sum of their deltas |
| `StockAfterBackfill.StockAfterBackfillIff` | backend/alembic/versions/049_stock_ledger_sql_backfill.py:178-191 | phase 3 for all timestamps, ties included: if it goes through, the stock becomes the old tail plus the deltas of the first k receipts of the chain, where the row of the k-th receipt is the latest of the item (k is zero when that row is an old one), and reaches the end of the chain iff the receipts after the k-th add up to nothing; if it is refused, the stock stays |
| `StockAfterBackfill.StockAfterBackfill` | backend/alembic/versions/049_stock_ledger_sql_backfill.py:178-191 | when the last receipt of an item is strictly the latest of its receipts and shares its commit time with no older row, and phase 3 goes through: the stock reaches the end of the chain iff that receipt is later than every existing row of the item (or delivers nothing in total), else it is the old tail |
| `StockAfterBackfill.StockAfterBackfillAndReplay` | backend/alembic/versions/050_stock_ledger_replay_current_stock.py:14-48 | 049 and 050 in one transaction, whatever the timestamps: a live item with movements gets the sum of all old and added deltas if both go through, else every stock stays |
| `StockRefusals.BackfillAllowedIff` | backend/alembic/versions/049_stock_ledger_sql_backfill.py:178-191 | phase 3 goes through under the stock constraint iff, for every live item with rows, the old tail plus the receipts up to its latest row is not negative |
| `StockRefusals.UpgradeAllowedIff` | backend/alembic/versions/049_stock_ledger_sql_backfill.py:14-191 | the same for 049 as a whole, from its input tables |
| `StockRefusals.NegativeLogIsRefused` | backend/sql/044_catalog_current_stock_non_negative.sql:11-13 | the smallest input that 049 refuses: a log row that ends below zero |
| `StockRefusals.ReplayAfterBackfillAllowedIff` | backend/alembic/versions/050_stock_ledger_replay_current_stock.py:36-48 | after 049, 050 goes through iff no live item has a negative sum of old and added deltas |
| `StockAfterBackfill.BackfillIdempotent` | backend/alembic/versions/049_stock_ledger_sql_backfill.py:44-176 | a second run of 049 adds no movement, with any newly drawn ids |
| `StockAfterBackfill.SyncIdempotent` | backend/alembic/versions/049_stock_ledger_sql_backfill.py:178-191 | nor does it change any stock |
| `StockAfterBackfill.DowngradeUndoesUpgradeIff` | backend/alembic/versions/049_stock_ledger_sql_backfill.py:196-203 | downgrade after upgrade restores the ledger iff no original row matches the filter |
| `StockAfterBackfill.FilterMatchesIff` | backend/alembic/versions/049_stock_ledger_sql_backfill.py:200 | the filter on keys matches exactly the texts `legacy?adj:...`, with any character for the question mark |
| `StockAfterBackfill.ForeignKeyIsDeleted` | backend/alembic/versions/049_stock_ledger_sql_backfill.py:200 | such a key that no migration writes: a live movement `legacyXadj:1` is deleted |
| `StockRounding.CommittedMatchesPosted` | backend/alembic/versions/048_stock_commit_backfill_guards.py:20-43 | for every received purchase the committed quantity of 048 exceeds what 049 posts by the exact sum of the lines that 049 does not post, up to half a thousandth per posted scaled line plus half a thousandth |
| `StockRounding.FullyPostedDiffersByRounding` | backend/alembic/versions/049_stock_ledger_sql_backfill.py:57-76 | when 049 posts the item of every line, the two differ by the rounding alone |
| `StockDelivered.CommittedMatchesDelivered` | backend/alembic/versions/049_stock_ledger_sql_backfill.py:100-176 | the same for the rows that 049 inserts into the ledger for the purchase, among all purchases |
| `StockRounding.CommittedQtyIsFilled` | backend/alembic/versions/048_stock_commit_backfill_guards.py:39-43 | 048 gives every received purchase with lines and no positive quantity the exact sum to half a thousandth, leaves every other purchase alone, and is idempotent |
| `StockRounding.GroupsPartition` | backend/alembic/versions/049_stock_ledger_sql_backfill.py:57-76 | summing any of the item groups is summing the lines that name those items: grouping loses and repeats no line |
| `StockRounding.ItemlessLineBreaksBound` | backend/alembic/versions/049_stock_ledger_sql_backfill.py:72 | the smallest purchase that 048 counts and 049 does not: one line without an item |
| `StockDatabase.Database.BackfillCommittedQty` | backend/alembic/versions/048_stock_commit_backfill_guards.py:39-43 | the update row by row: each purchase that lacks a quantity holds the exact sum to half a thousandth, every other one and every other column is as it was |
| `StockDatabase.Database.BackfillLedger` | backend/alembic/versions/049_stock_ledger_sql_backfill.py:14-192 | the upgrade as one transaction: three phases, or nothing when the synced stock breaks the stock constraint |
| `StockDatabase.Database.RemoveBackfill` | backend/alembic/versions/049_stock_ledger_sql_backfill.py:196-203 | the rows that do not match the filter remain, every one of them, once and in their order, and no others |
| `StockDatabase.Database.ReplayLedger` | backend/alembic/versions/050_stock_ledger_replay_current_stock.py:11-50 | the replay as one transaction, or nothing when the synced stock breaks the stock constraint |
| `StockDatabase.Database.UpgradeLedger` | backend/alembic/env.py:65-72 | 049 and 050 pending together: both or neither, with the tables of the failed attempt as before |
| `StockDatabase.Database.Move` | backend/app/services/stock_movement_service.py:137-338 | one live stock movement on the tables in place |
| `StockMovements.RequestKeepsTracking` | backend/app/services/stock_movement_service.py:137-304 | every request, accepted or not, keeps each ledger an unbroken chain from the starting stock to the current stock, never negative |
| `StockMovements.RunKeepsTracking` | backend/app/services/stock_movement_service.py:137-304 | the same over every run of requests |
| `StockMovements.StockIsStartPlusDeltas` | backend/app/services/stock_movement_service.py:226-268 | conservation: stock is the starting stock plus all deltas of the ledger, and never negative |
| `StockMovements.RepeatIsDuplicate` | backend/app/services/stock_movement_service.py:165-178 | repeating an applied idempotency key changes nothing and reports the first movement |
| `StockRequests.AnswerIs` | backend/app/services/stock_movement_service.py:165-238 | which answer a request gets, from its key, item, version and quantity alone, in the order of the checks |
| `StockRequests.AppliedLeaves` | backend/app/services/stock_movement_service.py:226-304 | an applied request leaves the item at the given stock (absolute) or at its stock plus the quantity (relative) and at the next version, one movement that says so, one log row iff asked for, and everything else as it was |
| `StockRequests.RunLeavesAsked` | backend/app/services/stock_movement_service.py:226-268 | over every run the stock of an item is what its applied requests ask for one after the other, and its version has gone up by their number |
| `StockRequests.RelativeRequestsAddUp` | backend/app/services/stock_movement_service.py:226-232 | without an absolute request the stock is the stock before the run plus the quantities of the applied requests |
| `StockRequests.StaleAfterRunIff` | backend/app/services/stock_movement_service.py:212-224 | a request that has seen the item before a run is stale after it iff it is not forced and more requests than it tolerates have moved the item |
| `StockRequests.CopiedKindIff` | backend/alembic/versions/049_stock_ledger_sql_backfill.py:30-36 | the kinds of movement that 049 gives back from their log row: physical counts, corrections, opening stock and deliveries; every other kind comes back as another |
| `StockRequests.LiveDeliveryIsNotPostedAgain` | backend/alembic/versions/049_stock_ledger_sql_backfill.py:93-98 | a live delivery whose log row names the purchase is not posted again by 049, whatever its key |
| `StockMovements.LiveReplayAllowedIff` | backend/alembic/versions/050_stock_ledger_replay_current_stock.py:36-48 | 050 goes through on a live ledger iff no live item is below its starting stock |
| `StockMovements.ReplayOfLiveLedger` | backend/alembic/versions/050_stock_ledger_replay_current_stock.py:14-34 | 050 leaves a live ledger alone iff it is refused, because a live item is below its starting stock, or every item with movements started from zero |
| `StockMigration.LiveUpgradeAllowedIff` | backend/alembic/versions/050_stock_ledger_replay_current_stock.py:36-48 | on a live ledger 050 goes through after 049 iff every live item, with what 049 adds, is at least at its starting stock |
| `StockMigration.MigrationKeepsStockIff` | backend/alembic/versions/050_stock_ledger_replay_current_stock.py:14-48 | the upgrade by 049 and 050 keeps the stock that a live ledger explains iff it is refused, or finds no movement of the item, or what 049 adds is exactly the starting stock |
| `StockMigration.RunThenMigrationKeepsStockIff` | backend/alembic/versions/049_stock_ledger_sql_backfill.py:14-192 | the same after any run of live requests |
| `StockMigration.RunKeepsKeys` | backend/app/services/stock_movement_service.py:165-304 | over every run the ledger keeps its unique idempotency key and the log its primary key |
| `StockMigration.ProjectedRunsAreCountedTwice` | backend/alembic/versions/049_stock_ledger_sql_backfill.py:20-47 | after any run whose requests all write their row of the log, an upgrade that goes through leaves a moved item at twice what it gained since its start; the live stock is kept iff the upgrade is refused or that stock is twice the starting stock |
| `StockMigration.ProjectedUpgradeGoesThroughIff` | backend/alembic/versions/049_stock_ledger_sql_backfill.py:14-192 | after such a run, with no purchase to post and nothing negative at the start, the upgrade goes through iff no live item is below its starting stock |
| `StockMigration.LostStockIsRefused` | backend/alembic/versions/050_stock_ledger_replay_current_stock.py:36-48 | the smallest refusal of 050: an item that started at 10 and is down to 2 |
| `PurchaseTotals.PurchaseTables.Upgrade` | backend/alembic/versions/010_trade_purchase_line_item_level_decimal_fields.py:93-131 | 008, 009 and 010 in order: the header of every purchase with lines, none of which had a total before, agrees with the lines of that purchase, landing with line totals and profit with line profits, to 0.005 per line plus 0.00505 |
| `PurchaseAmounts.SplitKeepsHeaders` | backend/alembic/versions/008_trade_purchase_profit_subtotals.py:36-72 | splitting a line in two leaves the header that the migrations give to every purchase as it was |
| `PurchaseAmounts.SplitKeepsSums` | backend/alembic/versions/008_trade_purchase_profit_subtotals.py:40-60 | and its exact landing and selling sums |
| `PurchaseAmounts.QtySplits` | backend/alembic/versions/008_trade_purchase_profit_subtotals.py:44-46 | splitting the quantity of a line splits its landing and selling amounts |
| `PurchaseAmounts.WeightSplits` | backend/alembic/versions/008_trade_purchase_profit_subtotals.py:44-46 | so does splitting the weight per unit of a line priced by the kilogram |
| `PurchaseAmounts.RateSplits` | backend/alembic/versions/008_trade_purchase_profit_subtotals.py:44-46 | and splitting a rate splits the amount it makes |
| `PurchaseAmounts.UnitAmounts` | backend/alembic/versions/008_trade_purchase_profit_subtotals.py:44-46 | one unit of one kilogram costs the rate per kilogram, one unit of another line its rate, and sells at the selling rate |
| `PurchaseAmounts.SplitTotals` | backend/alembic/versions/010_trade_purchase_line_item_level_decimal_fields.py:99-106 | the totals of the two parts of a line add up to the total of the whole to one hundredth |
| `PurchaseTotals.PurchaseTables.SumLines` | backend/alembic/versions/008_trade_purchase_profit_subtotals.py:36-50 | one pass over all lines gives every purchase with lines, and no other, the exact sums over its own lines |
| `PurchaseTotals.PurchaseTables.AddSubtotals` | backend/alembic/versions/008_trade_purchase_profit_subtotals.py:36-72 | each header of a purchase with lines holds the exact landing, selling and profit of its lines to half a ten-thousandth, selling and profit only if something is sold; other headers stay |
| `PurchaseTotals.PurchaseTables.NarrowHeaders` | backend/alembic/versions/009_strict_decimal_precision.py:48-50 | every header amount is a whole hundredth, moved by at most half of one, and missing iff it was missing |
| `PurchaseTotals.PurchaseTables.FillLines` | backend/alembic/versions/010_trade_purchase_line_item_level_decimal_fields.py:93-131 | totals that are there stay; a missing total becomes the landing amount and a missing profit of a line with a selling rate the difference of its amounts, to half a hundredth; nothing else changes |
| `PurchaseTotals.LandingSubtotalMatchesLines` | backend/alembic/versions/010_trade_purchase_line_item_level_decimal_fields.py:99-106 | the narrowed landing subtotal differs from the sum of the line totals by at most 0.005 per line plus 0.00505 |
| `PurchaseTotals.LineProfitMatchesTotals` | backend/alembic/versions/010_trade_purchase_line_item_level_decimal_fields.py:115-129 | a line profit is within 0.01 of rounded selling minus line total |
| `PurchaseTotals.HeaderProfitMatchesSubtotals` | backend/alembic/versions/008_trade_purchase_profit_subtotals.py:62-67 | the header profit is within 0.01 of selling minus landing, and missing iff nothing is sold |
| `PurchaseTotals.HeaderProfitMatchesLines` | backend/alembic/versions/008_trade_purchase_profit_subtotals.py:62-67 | the header profit is the sum of line profits less the landing of lines without a selling rate, up to 0.005 per line plus 0.00505 |
| `CatalogUnits.CatalogItem.Update` | backend/app/routers/catalog.py:2994-3086 | the handler, field by field: an accepted edit is stored as specified, a refused one leaves the row |
| `CatalogUnits.CatalogItem.Validate` | backend/app/routers/catalog.py:1070-1084 | bags need a positive weight, boxes are completed, tins need a positive weight if any |
| `CatalogUnits.CatalogItem.SyncExtras` | backend/app/routers/catalog.py:1025-1050 | amounts that do not belong to the unit are cleared |
| `CatalogUnits.CreateMatchesUnit` | backend/app/routers/catalog.py:2115-2118 | after create, batch or scan, items per box are set only for boxes, weights per tin only for tins, bags have a weight |
| `CatalogUnitLaws.CreateAcceptedIff` | backend/app/routers/catalog.py:2115-2118 | a new item is accepted iff no amount is zero or negative and a bag has a weight, given or, on create, in its name |
| `CatalogUnitLaws.NewItemIs` | backend/app/services/unit_resolution_service.py:253-266 | a new item takes package type and stock unit from its name, and its weight from the request or else, if that has none or zero, from the name |
| `CatalogUnitLaws.UpdateAcceptedIff` | backend/app/routers/catalog.py:1070-1084 | an edit is accepted iff no amount it gives is zero or negative and the item does not end as a bag without a positive weight or as a tin stored with zero |
| `CatalogUnitLaws.UpdatedStockFields` | backend/app/routers/catalog.py:3042-3086 | package type and stock unit after an edit: those of a named unit, else from the name if units, name or category were edited, else as before |
| `CatalogUnitLaws.RenamedBag` | backend/app/services/unit_resolution_service.py:253-266 | renaming a bag keeps its weight unless it was stored as zero |
| `CatalogUnitLaws.StoredIsNear` | backend/alembic/versions/009_strict_decimal_precision.py:62-64 | amounts are stored in whole thousandths, moved by at most half of one |
| `CatalogUnits.UpdateMatchesCreate` | backend/app/routers/catalog.py:2994-3086 | create and edit agree: with the same unit and amounts both are accepted or neither, and they store the same unit and amount whatever the edited row held and whatever the names resolve to |
| `CatalogUnits.CreateKgOnlyForBagOrPieceIff` | backend/app/services/unit_resolution_service.py:253-266 | a weight per bag stays with bags and pieces iff the resolution of the name does not fill one in |
| `CatalogUnits.TinWithKgPerBag` | backend/app/services/unit_resolution_service.py:253-266 | a tin named by the kilogram is created with a weight per bag |
| `CatalogUnits.UpdateKeepsMatch` | backend/app/routers/catalog.py:2994-3086 | every accepted update keeps amounts with their unit |
| `CatalogUnits.UpdateStoresGiven` | backend/app/routers/catalog.py:2994-3086 | an accepted update stores the given unit and the given amount of that unit, and with a given unit the stock fields of that unit, whatever the name resolves to |
| `CatalogUnits.UpdateClearsStrayKg` | backend/app/routers/catalog.py:3042-3086 | after any accepted update a weight per bag means a bag |
| `CatalogUnits.UpdateRefusedIff` | backend/app/routers/catalog.py:1070-1084 | a valid body that touches units is refused iff the item would end as a bag without a positive weight, or as a tin that keeps a weight stored as zero |
| `CatalogUnits.BoxUpdateHasItemsPerBox` | backend/app/routers/catalog.py:1052-1067 | after an update that touches units a box has items per box, positive iff the accepted number does not round to zero |
| `CatalogUnits.UpdateKeepsBoxCountIff` | backend/app/routers/catalog.py:369-379 | a box keeps items per box that an update does not mention iff the update does not name the unit either, or the number was one |
| `CatalogUnits.CreatedBagIsPositiveIff` | backend/app/routers/catalog.py:2115-2118 | a new bag has a positive weight iff the weight asked for, or found in its name, is at least 0.0005 |
| `CatalogUnits.UpdatedBagIsPositiveIff` | backend/app/routers/catalog.py:1070-1084 | an accepted update that ends as a bag leaves a positive weight iff a weight it gives is at least 0.0005 |
| `CatalogUnits.RunKeepsBagsPositiveIff` | backend/app/routers/catalog.py:1070-1084 | over every run, the weight is positive whenever the item is a bag, iff neither the creation nor an accepted update gives a bag a weight below 0.0005 |
| `CatalogUnits.RunKeepsProfile` | backend/app/routers/catalog.py:2994-3086 | over every run of one create, batch or scan and any updates the profile matches its unit |
| `CatalogUnits.RunKeepsPositive` | backend/app/routers/catalog.py:1070-1084 | when no amount in the run is below 0.0005, every amount of every unit stays positive |
| `CatalogUnits.TinyBagStoredAsZero` | backend/app/routers/catalog.py:2115-2118 | the smallest case: a bag accepted with 0.0001 kg is stored with zero |
| `SupplierPrices.TradeSupplierPrices` | backend/app/routers/catalog.py:2567-2646 | the endpoint: one pass with running sums equals the direct specification; last five prices and the average |
| `SupplierPrices.AddRow` | backend/app/routers/catalog.py:2575-2599 | one row of the loop keeps all running sums equal to sums over the rows read |
| `SupplierPrices.LatestIsFirst` | backend/app/routers/catalog.py:2596-2599 | the entry of a supplier is its first priced row |
| `SupplierPrices.LatestIsNewest` | backend/app/routers/catalog.py:2562 | with the rows in the order of the query, that is its newest line |
| `SupplierPrices.ReportIsExact` | backend/app/routers/catalog.py:2575-2640 | the report lists each supplier with a priced line once, with full sums and distinct purchases, and nobody else |
| `SupplierPrices.ReportIsComplete` | backend/app/routers/catalog.py:2622-2640 | every supplier with a priced line is in the report |
| `SupplierPrices.BestIsCheapest` | backend/app/routers/catalog.py:2606-2620 | the best supplier has the least volume-weighted price among those with two deals or more, else the cheapest latest line; ties go to the smaller id; none only for an empty list |
| `SupplierChoices.BestOfSeasoned` | backend/app/routers/catalog.py:2606-2618 | if any supplier has priced lines from two purchases and a quantity above 1e-12, the best one has, and no such supplier has paid less per unit, compared without quotients; ties go to the smaller id |
| `SupplierChoices.BestOfLatest` | backend/app/routers/catalog.py:2612-2620 | if none has, the best is the one with the cheapest first priced row; without a priced row there is none |
| `SupplierChoices.EntriesMean` | backend/app/routers/catalog.py:2622-2640 | every entry shows the first priced row of its supplier, the number of different purchases of its priced lines, and a unit price that times the quantity gives the amount |
| `SupplierChoices.TotalsGrow` | backend/app/routers/catalog.py:2588-2594 | quantity and amount of a supplier grow by its priced lines and by nothing else |
| `SupplierChoices.ReportIsOrdered` | backend/app/routers/catalog.py:2641-2642 | the report is ordered by best, price, name and identifier: the second sort keeps what the first decides |
| `SupplierChoices.LandingsAre` | backend/app/routers/catalog.py:2575-2599 | the prices behind the average and the last five are those of the priced rows, each once and in order |
| `SupplierChoices.FirstFiveAre` | backend/app/routers/catalog.py:2643-2646 | at most five of them are shown, the first ones |
| `SupplierChoices.AverageBetween` | backend/app/routers/catalog.py:2643-2646 | the average lies between any bounds of the prices |
| `SupplierPrices.BestIsListedFirst` | backend/app/routers/catalog.py:2622-2642 | as soon as one row has a price the report has exactly one best supplier, listed first, and the rest ordered by price |
| `SupplierPrices.VwapBetweenUnitPrices` | backend/app/routers/catalog.py:2601-2604 | with positive quantities a volume-weighted price lies between the smallest and largest amount per unit |
| `ItemCodes.ItemTable.NextItemCode` | backend/app/routers/catalog.py:1924-1939 | the scan returns one more than the largest number among codes like `ITM-%` |
| `ItemCodes.ItemTable.Create` | backend/app/routers/catalog.py:2125-2127 | a new item keeps a given code, else gets the next one |
| `ItemCodes.ItemTable.Generate` | backend/app/routers/catalog.py:2420-2442 | only an item without a code gets the next one |
| `ItemCodeLaws.GivenIsTrimmed` | backend/app/routers/catalog.py:2125 | a given code is taken without the white space around it, and white space alone gives none |
| `ItemCodeLaws.NormalizedIs` | backend/app/routers/catalog.py:1816-1817 | a typed code is its characters other than white space, in capitals |
| `ItemCodeLaws.CaseIsIgnored` | backend/app/routers/catalog.py:1816-1817 | letter case makes no difference to a typed code |
| `ItemCodeLaws.InnerSpaceIsIgnored` | backend/app/routers/catalog.py:1816-1817 | nor does white space, in whatever place |
| `ItemCodeLaws.TypedCodeAcceptedIff` | backend/app/routers/catalog.py:1842-1895 | a scanned item is added, and a code changed, iff the typed code is not empty, has capitals, digits, underscores and hyphens only and no other live item has it, letter case aside |
| `ItemCodeLaws.PrintedCodeIsTyped` | backend/app/routers/catalog.py:1812-1817 | a printed code can be typed in as it is |
| `ItemCodes.CodeRoundTrip` | backend/app/routers/catalog.py:1812-1939 | parsing a printed code returns its number, for every number |
| `ItemCodes.CodesDiffer` | backend/app/routers/catalog.py:1939 | different numbers have different codes |
| `ItemCodes.CodeWidth` | backend/app/routers/catalog.py:1939 | numbers below ten thousand print four digits, longer ones all their digits |
| `ItemCodes.NextCodeIsNew` | backend/app/routers/catalog.py:1924-1939 | the next code is not the code of any item of the business, deleted ones included |
| `ItemCodeRuns.RunNeverAssignsTwice` | backend/app/routers/catalog.py:2435-2441 | over every run of create, batch create, scan, generate and soft delete no code is assigned automatically twice |
| `ItemCodeLaws.RequestsDo` | backend/app/routers/catalog.py:2208-3198 | what batch creation, deletion, edits and deletion for good do to the items and their codes |
| `ItemCodeRuns.StepKeepsNeverTwiceIff` | backend/app/routers/catalog.py:3028-3030 | an edit of a code or a deletion for good keeps that guarantee iff some remaining code has a number at least the last one assigned |
| `ItemCodeRuns.RunKeepsNeverTwiceIff` | backend/app/routers/catalog.py:2014-3198 | over every run of any requests the guarantee holds throughout iff no request takes away the last such code |
| `ItemCodeRuns.LostNumberComesBack` | backend/app/routers/catalog.py:1924-1939 | and once it is lost, creating items without a code assigns a number again |
| `ItemCodeRuns.RemovedCodeComesBack` | backend/app/routers/catalog.py:3028-3030 | the smallest case, on any table: a newest code that is edited away, or whose row is deleted for good, is the next one |
| `ItemCodeRuns.NextCodeClashesIff` | backend/app/routers/catalog.py:1842-1855 | some stored code equals the next code letter case aside iff one that the scan does not match does |
| `ItemCodeRuns.LowerCaseCodeIsMissed` | backend/app/routers/catalog.py:1930 | the smallest case: a code stored in lower case is not scanned, so its upper case form is assigned |
| `DefaultSuppliers.DefaultsTable.SetDefaults` | backend/app/routers/catalog.py:949-1022 | storing a list of defaults: repetitions removed, rows replaced, memory seeded |
| `DefaultSuppliers.DefaultsTable.ReplaceRows` | backend/app/routers/catalog.py:949-969 | delete and insert in place, numbered in list order |
| `DefaultSuppliers.DefaultsTable.SeedMemory` | backend/app/routers/catalog.py:995-1022 | memory rows are added for suppliers that have none |
| `DefaultSuppliers.DefaultsOf` | backend/app/routers/catalog.py:901-946 | the rows of the query grouped by item |
| `DefaultSuppliers.DefaultsRoundTrip` | backend/app/routers/catalog.py:901-969 | replacing the defaults of an item and reading them back gives the list in its order, whatever was stored |
| `DefaultSuppliers.ReadAsGivenIff` | backend/app/routers/catalog.py:144-151 | a list is read back as it was given iff it has no repetitions |
| `DefaultSuppliers.OthersReadAsBefore` | backend/app/routers/catalog.py:955-960 | other items read as before |
| `DefaultSuppliers.ReplaceKeepsPairsUnique` | backend/app/models/catalog.py:155 | a list without repetitions never breaks the unique constraint |
| `DefaultSuppliers.StoredListIsDistinct` | backend/app/routers/catalog.py:144-151 | the stored list has every given supplier once |
| `DefaultSuppliers.SeedingLeavesOneRow` | backend/app/routers/catalog.py:995-1022 | seeding alters no existing row and leaves exactly one row per listed supplier and item that had at most one |
| `DefaultSuppliers.SeededRowsAreFresh` | backend/app/routers/catalog.py:995-1022 | a seeded row belongs to a listed supplier and has no purchases and no price yet |
| `Lists.DedupedPositions` | backend/app/routers/catalog.py:144-151 | removing repetitions keeps first occurrences in their order |
| `DailyUsage.PurchasedToday` | backend/app/routers/operations.py:113-135 | the map holds, for every wanted item, the total delivered on the day by purchases that are not cancelled or deleted |
| `DailyUsageLaws.ArrivedChanges` | backend/app/routers/operations.py:113-135 | whatever becomes of one delivery, the arrivals change by its quantity if it counts then, less its quantity if it counted before; it counts iff it is delivered, of that day and item, and neither cancelled nor deleted |
| `DailyUsageLaws.CancellingTakesBack` | backend/app/routers/operations.py:124-128 | cancelling a delivered purchase takes its goods back out of the arrivals |
| `DailyUsageLaws.MissingAreUnnamed` | backend/app/routers/operations.py:392-407 | when the lines name different items in stock, the missing items of the summary are those in stock that no line names |
| `DailyUsage.Warehouse.SubmitUsage` | backend/app/routers/operations.py:298-407 | a batch in place: every line accepted and written, or the first refusal reported and nothing changed |
| `DailyUsage.Warehouse.MaterializeSnapshots` | backend/app/routers/operations.py:517-584 | a snapshot run in place: one row for each item in stock without one |
| `DailyUsageTheorems.LineLeaves` | backend/app/routers/operations.py:328-367 | an accepted line leaves max(stock, arrived) minus used, and its log has opening + purchased = used + closing with all four nonnegative |
| `DailyUsageTheorems.LineAcceptedIff` | backend/app/routers/operations.py:324-337 | a line is accepted iff its item exists and has at least the used quantity |
| `DailyUsageTheorems.BatchKeepsLogs` | backend/app/routers/operations.py:339-367 | a batch keeps every log balanced and one log per item and day |
| `DailyUsageTheorems.BatchSettlesItsItems` | backend/app/routers/operations.py:324-383 | after a batch the day of each of its items closes at the stock; other items and days are untouched |
| `DailyUsageTheorems.BatchTotal` | backend/app/routers/operations.py:324-383 | exact change of total stock: minus the total used, plus what each line finds missing against the arrivals of the day |
| `DailyUsageTheorems.BatchConservesStockIff` | backend/app/routers/operations.py:324-383 | the batch lowers total stock by exactly `total_used_qty` iff every line, repeated items included, finds at least the arrivals in stock |
| `DailyUsageCorrections.BatchAcceptedIff` | backend/app/routers/operations.py:324-337 | a batch is accepted iff every line names a known item that still has the used quantity after the lines before it |
| `DailyUsageCorrections.CorrectionReplacesIff` | backend/app/routers/operations.py:346-367 | a second batch of a day leaves an item as if the first had not been sent iff the first used none of it, or the second alone has a line of it that finds no more in stock than arrived on the day |
| `DailyUsageCorrections.CorrectedLineIff` | backend/app/routers/operations.py:346-351 | for a line and its correction: iff the line used nothing or the stock was at most the arrivals |
| `DailyUsageCorrections.BothAreTakenIff` | backend/app/routers/operations.py:346-367 | two batches take away everything either of them used of an item iff every line of it but the first finds at least the arrivals in stock |
| `DailyUsageCorrections.BothLinesAreTakenIff` | backend/app/routers/operations.py:346-351 | for a line and its correction: iff the line leaves at least the arrivals |
| `DailyUsageTheorems.CorrectionCountsTwice` | backend/app/routers/operations.py:346-351 | one such input: stock 10, arrived 5, used 4 and corrected to 3 leaves 3 |
| `DailyUsageTheorems.SnapshotsOpenTheDay` | backend/app/routers/operations.py:541-582 | snapshots move or change no existing log, keep one per item and day, stay balanced, and give every item in stock a log |
| `DailyUsageTheorems.NothingMaterializedIff` | backend/app/routers/operations.py:541-582 | a snapshot run changes nothing iff every item it lists has a log of the day |
| `DailyUsageTheorems.MaterializeIdempotentIff` | backend/app/routers/operations.py:541-582 | so materialising a day again changes nothing iff each item that has come into stock since has a log of the day |
| `DailyUsageTheorems.FirstSnapshotOpens` | backend/app/routers/operations.py:562-567 | without a log of the day before, a day opens with stock less arrivals and closes with the larger of the two |
| `DailyUsageTheorems.DaysConnect` | backend/app/routers/operations.py:562-567 | over consecutive days each opening is the previous closing |
| `DailyUsageTheorems.DaysAddUp` | backend/app/routers/operations.py:562-567 | the last closing is the first opening plus all purchases in between |
| `DailyUsageRuns.WorkDaysConnectIff` | backend/app/routers/operations.py:324-351 | over any run of days with arrivals booked, a snapshot and then usage lines, a day opens where the day before closed iff none of its lines of the item but the last uses anything, or nothing was left; otherwise it opens lower |
| `DailyUsageRuns.WorkDaysAddUpIff` | backend/app/routers/operations.py:324-351 | the logs of such a run account for the stock iff every day is of that kind; otherwise they promise more than is there |
| `UsageMovements.LinePosts` | backend/app/routers/operations.py:368-381 | the absolute movement of a line is always accepted and sets the stock of its item and no other |
| `UsageMovements.LineIsFiled` | backend/app/routers/operations.py:368-381 | and files the change in the adjustment log as usage |
| `UsageMovements.BatchPosts` | backend/app/routers/operations.py:368-381 | after a batch the ledger shows the same stock as the books |
| `UsageMovements.BatchKeepsTracking` | backend/app/routers/operations.py:368-381 | and explains it movement by movement |
| `SupplierImport.SupplierTable.ExistsDuplicate` | backend/scripts/seed_suppliers_from_csv.py:93-121 | the lookup: GST number first, then name with the same last ten digits, or with none on either side; two rows with the GST number make it fail |
| `SupplierImport.SupplierTable.RunSeedCsv` | backend/scripts/seed_suppliers_from_csv.py:124-163 | the import in place; nothing is kept when a lookup fails |
| `SupplierImportTheorems.FirstDialablePart` | backend/scripts/seed_suppliers_from_csv.py:61-71 | the phone is the first separated part with at least ten digits |
| `SupplierCells.TailIgnoresPrefix` | backend/scripts/seed_suppliers_from_csv.py:54-58 | the last ten digits decide: nothing that stands before a full number makes a difference |
| `SupplierCells.OtherPhonesAreKept` | backend/scripts/seed_suppliers_from_csv.py:70-71 | a cell without a dialable part is kept, squeezed, unless nothing would be left of it |
| `SupplierCells.StoredRow` | backend/scripts/seed_suppliers_from_csv.py:136-160 | the row of a record: its stripped name cut to 255 characters, its phone cut to 32, its tax number in capitals iff that has fifteen characters |
| `SupplierCells.RepeatedIsSkipped` | backend/scripts/seed_suppliers_from_csv.py:141-146 | a row that repeats the name, letter case aside, and the last ten digits of an earlier row of the file is skipped whatever the table holds |
| `SupplierCells.DuplicateIff` | backend/scripts/seed_suppliers_from_csv.py:93-121 | on a table without repeated tax numbers a record is a duplicate iff some row of the business has its tax number, or its name, white space and letter case aside, and its last ten digits |
| `SupplierCells.OthersHaveNoSay` | backend/scripts/seed_suppliers_from_csv.py:93-121 | rows of other businesses do not matter |
| `SupplierCells.NewRowIsInserted` | backend/scripts/seed_suppliers_from_csv.py:131-163 | a row without a name is bad; a named one that is new to file and table is added and counted as inserted |
| `SupplierImportTheorems.StatsAddUp` | backend/scripts/seed_suppliers_from_csv.py:129-163 | inserted + skipped + bad is the row count, and the table grows at its end by the inserted rows |
| `SupplierImportTheorems.ImportKeepsGstUnique` | backend/scripts/seed_suppliers_from_csv.py:93-102 | on a table without repeated GST numbers no lookup fails and none is ever repeated |
| `SupplierImportTheorems.JudgeMonotone` | backend/scripts/seed_suppliers_from_csv.py:93-121 | a duplicate stays one when the table grows |
| `SupplierImportTheorems.ReimportInsertsNothingIff` | backend/scripts/seed_suppliers_from_csv.py:124-163 | importing again inserts nothing iff each added row is found by its lookup in the table the first import left |
| `SupplierImportTheorems.ReimportInsertsNothing` | backend/scripts/seed_suppliers_from_csv.py:124-163 | which holds when each named row finds the row it becomes |
| `SupplierImportTheorems.ReimportOfOneRowIff` | backend/scripts/seed_suppliers_from_csv.py:124-163 | for a single added row that is also necessary |
| `SupplierImportTheorems.TidyFileIsImportedOnce` | backend/scripts/seed_suppliers_from_csv.py:4-5 | and which holds for every file of rows with a GST number, or a single-spaced name within 255 and a phone within 32 characters |
| `SupplierImportTheorems.UntidyRowIsInsertedAgain` | backend/scripts/seed_suppliers_from_csv.py:93-163 | a row without GST number whose name, at most 255 characters, is not single-spaced is inserted again by a second import whenever the first inserted it, on every table |
| `SupplierImportTheorems.DoubleSpaceIsInsertedAgain` | backend/scripts/seed_suppliers_from_csv.py:50-51 | the smallest such name is not found by the lookup once it is stored |
| `ContactLinks.ContactBook.CreateSupplier` | backend/app/routers/contacts.py:514-580 | the handler in place; refused requests change nothing |
| `ContactLinks.ContactBook.UpdateSupplier` | backend/app/routers/contacts.py:583-671 | the handler in place: links deleted and added again, primary broker set |
| `ContactLinks.ContactBook.DeleteSupplier` | backend/app/routers/contacts.py:674-712 | the handler in place |
| `ContactLinks.ContactBook.CreateBroker` | backend/app/routers/contacts.py:843-893 | the handler in place: links added and primary brokers moved |
| `ContactLinks.ContactBook.UpdateBroker` | backend/app/routers/contacts.py:896-970 | the handler in place |
| `ContactLinks.ContactBook.DeleteBroker` | backend/app/routers/contacts.py:973-1016 | the handler in place |
| `ContactLinksTheorems.RunKeepsSound` | backend/app/routers/contacts.py:514-1016 | over every run, across businesses, links have no repetitions and join existing parties of one business, and primary brokers exist in the business of the supplier |
| `ContactLinksTheorems.StepKeepsSound` | backend/app/routers/contacts.py:514-1016 | the same for one request |
| `ContactLinksTheorems.StepKeepsPrimariesLinked` | backend/app/routers/contacts.py:533-712 | every handler but `update_broker` keeps primary brokers among the links |
| `ContactLinksTheorems.UpdateBrokerKeepsPrimariesLinkedIff` | backend/app/routers/contacts.py:943-967 | `update_broker` keeps it iff the new list names every supplier whose primary broker it is |
| `ContactLinksTheorems.RunKeepsPrimariesLinkedIff` | backend/app/routers/contacts.py:514-1016 | over every run, across businesses, primary brokers stay among the links throughout iff every accepted `update_broker` with a list names each supplier whose primary broker it is |
| `ContactLinksTheorems.UpdateSupplierSets` | backend/app/routers/contacts.py:626-658 | the links become exactly the named brokers, all others stay; the primary broker is the given one unless the list names it too, then the first of the list |
| `ContactLinksTheorems.CreateSupplierSets` | backend/app/routers/contacts.py:533-578 | the same for a new supplier |
| `ContactLinksTheorems.CreateSupplierAcceptedIff` | backend/app/routers/contacts.py:521-576 | a new supplier is accepted iff its name is free and every named broker is one of the business |
| `ContactLaws.CreateSupplierStores` | backend/app/routers/contacts.py:514-580 | a supplier is created, under its stripped name, iff no other of the business has the name, letter case aside, and all named brokers are of the business; nothing else changes |
| `ContactLaws.UpdateSupplierStores` | backend/app/routers/contacts.py:583-671 | the same for an update, in which what is not given stays |
| `ContactLaws.CreateBrokerStores` | backend/app/routers/contacts.py:843-893 | a broker is created iff its name is free and all listed suppliers are of the business |
| `ContactLaws.UpdateBrokerStores` | backend/app/routers/contacts.py:896-970 | the same for an update |
| `ContactLaws.DeletedIff` | backend/app/routers/contacts.py:674-1016 | a party of the business is deleted iff it has no purchases and is no primary broker of a supplier of the business; a refused deletion changes nothing |
| `ContactLinksTheorems.BrokerListSets` | backend/app/routers/contacts.py:943-967 | a list of suppliers sets exactly those links and makes the broker their primary one |
| `ContactLinksTheorems.NewBrokerListSets` | backend/app/routers/contacts.py:873-890 | the same for a new broker |
| `ContactLinksTheorems.DeleteLeavesNothing` | backend/app/routers/contacts.py:981-1015 | a broker is deleted iff nothing depends on it; a deleted party leaves no link and everything else stays |
| `ContactLinksTheorems.StepKeepsNames` | backend/app/routers/contacts.py:297-308 | no request makes two suppliers or two brokers of a business share a name, letter case aside |

## Left out

- RateLimit: calls are atomic and the clock of a key never runs backwards, although the source reads the clock before it takes the lock; eviction of idle keys does not exist in the source either.
- ReadCache: a page is a function of the query and of the versions read; cache keys of different queries are taken to differ, although the source shortens them by a hash.
- StockReceipts: human ids with `%`, `_` or a backslash, which the pattern of 049 would read as wildcards.
- Stock movements: the guard on stock changes, the retry wrapper, activity logs and the commit of the caller; requests come one after another, as row locks make them, and the timestamps of the movements of an item are taken to increase with them (ties go by id), although the source takes them from the clock of the application server.
- Stock ledger: units, actors, reasons and metadata of movements, except what keys, filters and matching depend on; a null stock counts as zero.
- Arithmetic of the database: quotients are exact before they are rounded, and no column overflows its precision.
- Floating point: prices, weights and volume-weighted averages are real numbers.
- Text: ASCII only, for letter case, white space, digits and patterns.
- CatalogUnits: how a name is resolved and how a weight is found in it are inputs, and every outcome is allowed; category rules and brand detection are not part of this model.
- SupplierPrices: the report statuses that select the purchases and the amount of a line are inputs of the query.
- ItemCodes: codes longer than the column.
- ItemCodeRuns: a request that is refused for a reason other than its code (a name or barcode that is taken, purchase lines of an item to be deleted) is left out of the run.
- DefaultSuppliers: default brokers, which are handled line for line like suppliers, and the check that ids belong to the business.
- DailyUsage: conversion of purchase lines to the stock unit; used quantities are taken to have three decimals, as their column has; notes and users.
- SupplierImport: reading the CSV file and the address column.
- ContactLinks: freight type, preferences, contact data and rates, and foreign keys from cancelled purchases; a request counts its purchases as an input.
- Routing, permissions, exports, notifications, search ranking and the user interface, which have no invariant over runs or tables.
- DailyUsageRuns: between two days nothing but the arrivals of the day changes the stock of the item, and the lines of several batches of a day are taken together.
- StockMigration: 049 and 050 are pending together and no other migration is; 050 run alone on tables that 049 has left is `StockLedger.ReplayAllowedIff` and `StockLedger.ReplaySetsStockToSum`.
- Migrations that only change the schema, and the SQLite branches of the modelled ones: they would add only easy members.
