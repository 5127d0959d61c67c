# Verified model of the investment portfolio manager

A Dafny model of the backend's accounting core, with proofs. Tables are sequences of rows in insertion
order; a service commits by assigning the tables and rolls back by leaving them. Each operation is given
once as a function of the tables and once as the loop or the steps the service performs, proved equal;
the theorems are about the functions, over all inputs and all runs.

- **Materialized history against the on-demand one.** `FundHistory` and `FundHistoryService` compute a
  portfolio's daily entries, `Causality` shows what an entry depends on, `MaterializedCache` replaces
  cached rows from a date on and `CacheAgreement` compares the two. `CacheRequests` says when a
  regeneration succeeds and what it leaves, `CacheChanges` and `CacheCoverage` which rows the operations
  change and that their requests cover them. `CacheRuns` proves that the cache equals the on-demand
  history over runs of all operations, with the exact condition under which one of them keeps it so,
  `CachePrices` does so for new prices, and `CacheInterleavings` for regenerations that run in the
  background, with a concrete schedule in `CacheSchedule`. `CacheFailures` has concrete runs in which a
  condition fails. `DailyEntry` says what an entry is in terms of the tables alone.
- **Ledger.** `Ledger` has the three position folds and their agreement. `DayOrder`, `DayOrderNeeded` and
  `LoadOrder` say exactly when the order in which a day is read does not matter. `Transactions` has the
  realized gains, `TransactionEffects` when its operations succeed and the rows they leave, `Conservation`
  where the money goes.
- **Inbox.** `Inbox` has the imported trades, `AllocationSplit` the rounding of a split, `Consistency`
  the joint invariant of all tables, `TransactionInvariants` and `InboxInvariants` its preservation,
  `InboxEffects` when each operation succeeds and the rows it leaves, `Operations` the runs, the round
  trip and the modification law.
- **Totals.** `PortfolioTotals` bounds the difference between summed rounded rows and rounded totals;
  `DailyTotals` gives the totals in terms of the tables.
- **Concurrency.** `RegenProtocol` with `RegenInvariant`, and `LogWriter` with `LogDelivery`, are state
  machines with one step per critical section or channel operation, under every interleaving.
- **Queries and imports.** `LogOrder` with `Pagination`, `Backfill`, and the ISIN check digit in `Isin`.

`Collections`, `Sorting` and `Rounding` hold what these share; `Schema` has the rows.

## Conventions

- float64 is `real`: only the explicit rounding to `RoundingPrecision` is modelled. Its comment
  (`internal/service/general_helpers.go:5-20`) speaks of two decimals; the constant is 1e6
  (`internal/service/constants.go:4`) and the model follows it.
- Dates are day numbers and `time.Now` is a parameter. Identifiers are naturals drawn from a counter, for
  UUIDs that never repeat. ORDER BY date is a stable sort: rows of equal dates keep their insertion order.
- Foreign keys, cascades and UNIQUE constraints are those of
  `internal/database/migrations/162_base.sql`, enforced as `internal/database/database.go:40-51` sets up.
- The materialized table is a map keyed by its UNIQUE columns; inserting an existing key is an error.
- The on-demand history is a flat list of dated rows; days without rows do not appear.
- An entry's metrics come from one method in the code; the model splits its transaction loop off.
- In `RegenProtocol` and `LogWriter` the state also carries the history of requests, runs and calls that
  the theorems speak about. A goroutine's loop is a sequence of steps; each step function is what a method
  of the class is proved to perform.
- `CacheChanges.Requests` gives the regenerations an operation starts after its commit
  (`internal/service/transaction_service.go:142-149`, `:219-238` and `:301-308`,
  `internal/service/ibkr_service.go:831`, `:925-932`, `:970-987`). A refused regeneration leaves the table as
  it was; the services only log it.

## Where code and documentation differ

- The comment at `internal/service/materialized_service.go:710-716` promises up to three retries. A failed
  run is repeated only when an earlier date came in meanwhile (`RegenInvariant.LoneFailureIsNotRetried`,
  `RegenInvariant.EndedCoveredIff`).
- `maxBatchSize` is described as the maximum per database transaction
  (`internal/logging/handler.go:23`); batches drained for Flush and Close have no such limit.
- A page may have up to 250 rows (`internal/api/request/log_filters.go:97`), not 100 as documented.

## Where a property fails

- A fund that loses its last row keeps its cached ones, and so does one whose regeneration is refused
  (`CacheFailures.PurchaseAndDeletionGoWrong`, `CacheFailures.PurchaseMovedPastTodayGoesWrong`).
- Dividends from before a portfolio's first transaction show on demand only while it has none
  (`CacheFailures.FirstPurchaseHidesDividend`).
- One portfolio that starts after today blocks the regeneration of all others holding the same fund
  (`CachePrices.PricesAgreeIff`).
- The dividend total of a portfolio depends on how its funds are grouped
  (`PortfolioTotals.DividendTotalDependsOnGrouping`); it is right exactly when no dividend that is due and
  pays is behind a later one (`PortfolioTotals.DividendTotalIff`).
- A sale is booked at the average over everything entered, whatever its date. It breaks the conservation of
  cost unless it is balanced (`Conservation.CreatedConservesIff`); with no later sale, unless the basis it
  is booked with is what it takes at its date (`Conservation.UnsoldSinceIff`, and `Conservation.BackdatedSale`
  for an instance).
- Loads are ordered by date only. Unless a day is free of order the cost depends on how it happens to be read
  (`LoadOrder.DayOrderIff` and `LoadOrder.LoadOrderIff`, and `LoadOrder.MixedDayOrderMatters` for an instance).
- A regeneration that has nothing to recompute, or is refused, may leave a wrong row that nothing awaits
  (`CacheInterleavings.FinishKeepsIff`).

## Model

| member | source | states |
|---|---|---|
| CacheRuns.CacheEqualsOracle | internal/service/materialized_service.go:818-900 | After any run of the nine service operations, each followed by the regenerations it requests whether these succeed or are refused, the materialized table equals the on-demand history at every portfolio fund and day, when every operation is contained and harmless in the sense of the next row |
| CacheRuns.RefreshedAgreesIff | internal/service/transaction_service.go:219-238 | From a right table, one operation with its regenerations leaves a right table if and only if, for every fund in a regenerated portfolio, no unsupported transaction is due, the earlier days do not depend on the change, and the later days are recomputed or did not change. The operation may be any of the nine; it must not update a transaction that a dividend reinvests, nor unallocate a trade whose transactions were moved |
| CacheRuns.ChangedAgreesIff | internal/service/transaction_service.go:219-238 | The same equivalence for one portfolio fund; funds of portfolios that are not regenerated stay right without a condition |
| CacheRuns.CoveredChangeIff | internal/service/materialized_service.go:869-896 | The same equivalence for any change of any set of transactions that its regenerations cover |
| CacheRuns.LaterDaysIff | internal/service/materialized_service.go:869-887 | For create, update and delete the condition on the later days is that the fund keeps a row from the change on or had none, also when the regeneration is refused |
| CacheRuns.NothingCachedYet | internal/database/migrations/162_base.sql:218-235 | The empty table is right before the first transaction and dividend, so the runs include those from the start |
| CacheRequests.RegenerationSucceedsIff | internal/service/materialized_service.go:820-896 | A regeneration of a fund, a portfolio fund or distinct portfolios succeeds if and only if its scope resolves and each of its portfolios exists, does not start after today, and has no unsupported transaction due when there is a day to calculate |
| CacheRequests.HistorySucceedsIff | internal/service/materialized_service.go:529-566 | The on-demand history of a portfolio can be calculated exactly under those conditions on the tables |
| CacheRequests.HistoryFailsWith | internal/service/materialized_service.go:529-566 | Otherwise the error is that of an unknown portfolio, of one that starts after today, or of an unsupported transaction, in this order |
| CacheRequests.ServedAllRow | internal/service/materialized_service.go:818-900 | What the regenerations of one change leave at any key, in whatever order and whichever is refused: the on-demand row from their first day on if one of them recomputes the fund, the old row otherwise |
| CacheRequests.ServedAgreesIff | internal/service/materialized_service.go:818-900 | For any change of the tables and any regenerations from one day: a right fund is right afterwards if and only if its earlier days are unchanged, and it is recomputed or its later days are unchanged |
| CacheRequests.OnePortfolioIff | internal/service/materialized_service.go:837-896 | For one readable portfolio, a recomputation or no change amounts to the fund keeping a row or having had none: a portfolio that starts after today has no row to show |
| CacheChanges.ChangeIsLocal | internal/service/ibkr_service.go:865-896 | Each of the nine operations changes, apart from added portfolio funds, only the transactions it names and their realized gains |
| CacheChanges.NewlyReinvestedNever | internal/database/migrations/162_base.sql:47-63 | No operation but an update can change a transaction that a dividend reinvests |
| CacheChanges.StepReferences | internal/database/migrations/162_base.sql:25-63 | Every operation keeps the foreign keys of portfolio funds and dividends |
| CacheCoverage.RequestsCover | internal/service/ibkr_service.go:809-990 | The regenerations every operation requests reach the portfolios of all transactions it changes, before and after, from a day on or before their dates |
| CacheCoverage.RequestedFromEarliest | internal/service/transaction_service.go:219-238 | For create, update and delete that day is the earliest date of the row before and after, no earlier |
| CacheCoverage.RequestedTouched | internal/service/transaction_service.go:219-238 | They regenerate nothing but the portfolio funds the row is or was on |
| CacheCoverage.RequestedFromTrade | internal/service/ibkr_service.go:925-932 | Inbox operations regenerate from the date of the trade |
| CacheCoverage.RequestedNamed | internal/service/ibkr_service.go:970-987 | and exactly the portfolios named by the allocations they remove or make |
| CacheCoverage.AllocatedFaithful | internal/service/ibkr_service.go:1030-1107 | An allocation dates its transactions with the trade and puts each on a fund of the portfolio its allocation names, which is what unallocating relies on |
| CacheCoverage.WidenedAgrees | internal/service/ibkr_service.go:1034-1046 | Adding portfolio funds keeps a right table right: the new ones show nothing, and the others what they showed |
| CacheFailures.LastDeletionLeavesStaleRows | internal/service/materialized_service.go:869-887 | Deleting the only transaction of a portfolio without dividends leaves its rows stale, whenever it had any: regeneration deletes rows only for funds it recomputes rows for |
| CacheFailures.PurchaseIsSmooth | internal/service/transaction_service.go:99-152 | A concrete purchase in an empty portfolio meets every hypothesis of the run theorem |
| CacheFailures.PurchaseAndDeletionGoWrong | internal/service/transaction_service.go:254-309 | That purchase and its deletion, from an empty table, end with a wrong one |
| CacheFailures.PurchaseMovedPastTodayGoesWrong | internal/service/transaction_service.go:219-238 | Moving that purchase past today has its regeneration refused and leaves the old row: a concrete run |
| CacheFailures.FirstPurchaseHidesDividend | internal/service/portfolio_data_loader.go:168-176 | A first purchase dated after a dividend hides it on demand while its earlier rows stay in the table: a concrete change that fails only the condition on earlier days |
| CachePrices.PricesAgreeIff | internal/service/fund_service.go:764-776 | New prices of a fund with the regeneration of its portfolios leave a right table if and only if every portfolio holding the fund starts by today, or the prices alter no row: one portfolio whose transactions all lie in the future keeps the others stale |
| CachePrices.BackfillAgreesIff | internal/service/fund_service.go:761-774 | The same for a historical backfill, regenerated from the oldest price it added |
| CachePrices.PriceCausality | internal/service/fund_metrics.go:125-138 | New prices alter no earlier day and no other fund |
| CachePrices.PricesAlterOnlyValues | internal/service/materialized_helpers.go:401-407 | New prices never make a row appear or disappear |
| CacheInterleavings.EveryDifferenceAwaits | internal/service/materialized_service.go:820-896 | In every interleaving of committed operations and new prices with the beginnings and the writes of background regenerations, commits between a calculation and its write included: each row that differs from the on-demand history is in the hands of a regeneration or awaits one that reaches its portfolio from a day on or before its own, provided changes leave no trace on earlier days and each write meets the condition of `FinishKeepsIff` |
| CacheInterleavings.CommitKeeps | internal/service/transaction_service.go:219-238 | An operation committed while regenerations wait, or after one has calculated and before it writes, alters only rows that its own regenerations will reach, or none |
| CacheInterleavings.PricesKeep | internal/service/fund_service.go:764-776 | So do new prices, without a condition |
| CacheInterleavings.BeginKeeps | internal/service/materialized_service.go:820-855 | A regeneration that begins takes over what awaited it, without a condition |
| CacheInterleavings.FinishKeepsIff | internal/service/materialized_service.go:869-896 | Writing rows calculated from tables that may have changed since keeps every difference attended to if and only if, when it was calculated, each cached row from its first day on of a reached fund that has no row to recompute awaits another regeneration; and when it was refused, each row it reaches is the one on demand, or not cached for a portfolio that starts after today, or awaits another one |
| CacheInterleavings.PlainFinish | internal/service/materialized_service.go:869-887 | That holds whenever each fund it reached has a row to recompute, or none cached from its first day on |
| CacheInterleavings.NothingWaitingNothingWrong | internal/service/materialized_service.go:820-896 | Once nothing waits or is under way, the table equals the on-demand history at every key |
| CacheSchedule.LateCommitEndsRight | internal/service/materialized_service.go:820-896 | A concrete run meets those conditions: two purchases are committed before the first regeneration begins and a third between its calculation and its write, and the table ends right |
| Causality.CausalityTheorem | internal/service/materialized_helpers.go:432-498 | Changing transactions dated r or later, which no dividend reinvests, leaves the entry of an earlier day as it was if and only if the change neither empties nor starts the portfolio, or the fund has no dividends to show by that day |
| Causality.SameEntry | internal/service/materialized_helpers.go:432-498 | With the oldest transaction unchanged, an entry depends on nothing dated after its day |
| Causality.UntouchedPortfolio | internal/service/materialized_helpers.go:432-498 | A change on funds of other portfolios alters no day of this one |
| Causality.ClampingPreservesHistory | internal/service/materialized_service.go:546-551 | Starting the iteration at the oldest transaction gives the same history, and the same failure, as any earlier start |
| Causality.BlankBeforeOldest | internal/service/materialized_helpers.go:401-407 | A day before the oldest transaction has no entry |
| Causality.BlankWithoutTransactions | internal/service/portfolio_data_loader.go:168-176 | A portfolio without transactions still shows the dividends that round to something, and nothing else |
| Causality.HistoryRowsAreOracleRows | internal/service/materialized_helpers.go:342-369 | The on-demand history of a range holds exactly the non-blank entries of its days and funds |
| Causality.LoadedTransactions | internal/repository/transaction_repository.go:55-110 | Breaking at the first transaction past a day, on the date-ordered load of the window, reads exactly the rows of the window up to that day |
| Causality.LoadedDividends | internal/service/dividend_service.go:113-126 | The same for the early-breaking dividend folds |
| Causality.LoadedPrices | internal/service/fund_metrics.go:125-138 | The same for the prices, so the price of a day is the last one on or before it |
| CacheAgreement.RegeneratedRow | internal/service/materialized_service.go:818-900 | What a regeneration leaves at any key: the on-demand row from its start on for recomputed funds of its portfolios, the old row everywhere else |
| CacheAgreement.RegenerateAgreesIff | internal/service/materialized_service.go:869-887 | With earlier days right, a regenerated fund agrees on every day if and only if it has a recomputed row or had no cached row from the start on |
| CacheAgreement.RegenerateSucceedsIff | internal/service/materialized_service.go:844-896 | A regeneration whose calculations succeed violates the UNIQUE constraint exactly when it lists a portfolio with rows twice |
| CacheAgreement.DistinctPortfoliosNeverClash | internal/service/materialized_service.go:820-896 | A regeneration of distinct portfolios never repeats a (portfolio_fund, date) key, whatever the table held |
| CacheAgreement.SerializedKeepEarlierRows | internal/service/materialized_service.go:820-821 | Regenerations taken in turn, with any changes of the other tables between them, leave every row dated before all their starts untouched |
| CacheAgreement.InsertSucceeds | internal/database/migrations/162_base.sql:218-235 | A batch is accepted if and only if it repeats no key and meets none in the table |
| CacheAgreement.HistoriesMembers | internal/service/materialized_service.go:848-855 | The recomputed entries are exactly the on-demand rows of the funds of the listed portfolios |
| MaterializedCache.MaterializedService.RegenerateMaterializedTable | internal/service/materialized_service.go:818-900 | Replaces the table by the specified one, or reports the error and leaves it as it was |
| MaterializedCache.MaterializedService.ResolveScope | internal/service/materialized_service.go:823-842 | Resolves a request to its portfolios, or fails, as the next two rows say |
| MaterializedCache.ResolvedIs | internal/service/materialized_service.go:823-842 | A scope resolves to exactly the portfolios it names, those holding the fund, or the one of the portfolio fund, each once unless the caller lists one twice |
| MaterializedCache.ResolvesIff | internal/service/materialized_service.go:823-842 | It fails exactly when no portfolio is in the scope |
| MaterializedCache.MaterializedService.CalculateAll | internal/service/materialized_service.go:848-855 | The histories of the listed portfolios one after the other, up to the first failure |
| MaterializedCache.MaterializedService.InsertMaterializedEntries | internal/repository/materialized_repository.go:440-483 | Inserts row by row, failing at the first key that exists |
| FundHistoryService.CalculateFundHistoryOnFly | internal/service/materialized_service.go:529-566 | The on-demand history of a portfolio, with its error cases |
| FundHistoryService.CalculateFundHistoryByDate | internal/service/materialized_helpers.go:342-369 | The days of the range in order, up to the first that cannot be read |
| FundHistoryService.DaysBetweenIs | internal/service/materialized_helpers.go:342-369 | A range fails exactly when some fund has an unsupported transaction due on its last day; otherwise it has the rows of every day |
| FundHistoryService.CalculateFundsForDate | internal/service/materialized_helpers.go:382-413 | The non-blank entries of a day in fund order, up to the first fund that cannot be read |
| FundHistoryService.CalculateFundEntry | internal/service/materialized_helpers.go:432-498 | The entry of one fund and day, each figure rounded |
| FundHistoryService.ProcessDividendSharesForDate | internal/service/dividend_service.go:106-130 | Per portfolio fund, the shares of the transactions its dividends up to the date reinvest, looked up by id whatever their date |
| FundHistoryService.ProcessDividendAmountForDate | internal/service/dividend_service.go:134-150 | The amounts of the dividends up to the first one past the date |
| FundHistoryService.ProcessRealizedGainLossForDate | internal/service/realizedGainLoss_service.go:42-59 | The gains, proceeds and bases of all records dated on or before the date |
| FundHistoryService.MapRealizedGainsByPf | internal/service/portfolio_data_loader.go:98-110 | Each realized gain goes to every portfolio fund that holds its fund, in record order |
| FundHistoryService.FundsForDateIs | internal/service/materialized_helpers.go:382-413 | A day fails exactly when one of its funds has an unsupported transaction due; otherwise it has the rows of its funds |
| DailyEntry.PricedDay | internal/service/materialized_helpers.go:432-498 | In terms of the tables: a day with a price of the fund on or before it, since the portfolio has transactions, has a row exactly when one of its figures is not nil, and then shares are what was bought less sold plus what due dividends were reinvested for, the price is the last one by that day, the value is shares times price when that is positive, and dividends, fees, gains, proceeds and their cost are sums over the rows due, each rounded on its own |
| DailyEntry.UnpricedDay | internal/service/materialized_helpers.go:432-498 | Without such a price the same holds at a price and a value of nil |
| DailyEntry.WindowIsOpen | internal/service/portfolio_data_loader.go:175-184 | The loader reads from the first transaction of the portfolio on, or everything when it has none |
| DailyEntry.HeldIs | internal/service/dividend_service.go:106-130 | The shares of a day are sums over the rows due, with reinvestments found by id among the own transactions up to today |
| Ledger.ProcessTransactions | internal/service/fund_metrics.go:67-96 | The fold over the transactions before the first one past the date; fails exactly when one of those has an unsupported type |
| Ledger.CalculateFundMetrics | internal/service/fund_metrics.go:57-120 | That fold, valued at the price the next rows identify, or the error |
| Ledger.GetPriceForDate | internal/service/fund_metrics.go:125-138 | The price the loop over the prices ends with |
| Ledger.LastPriceIsNewest | internal/service/fund_metrics.go:122-148 | Of prices in date order that is the newest on or before the date, and for the latest price the newest of all |
| Ledger.ValuedAtNewest | internal/service/fund_metrics.go:97-117 | Shares are valued at that price when it is positive, and are worth nothing otherwise; the unrealized gain is that value less the cost |
| Ledger.CalculateCurrentPosition | internal/service/transaction_service.go:329-360 | The position of all transactions but the excluded one; fails exactly when one of those has an unsupported type |
| Ledger.PositionFoldsAgree | internal/repository/transaction_repository.go:475-484 | Metrics, sell validation and SQL sum give the same shares at any date for rows in any order, and the first two the same cost when there are no dividend transactions |
| Ledger.DividendsPartTheCosts | internal/service/fund_metrics.go:76-77 | Before the first sale the cost of the position exceeds that of the metrics by the money of the reinvested dividends, for rows in any order |
| Ledger.ReinvestmentSplitsTheCosts | internal/service/fund_metrics.go:76-77 | With a reinvestment the two costs differ: a concrete ledger |
| DayOrder.SwapIff | internal/service/fund_metrics.go:70-96 | Swapping a sale with another transaction beside it leaves the same metrics if and only if: with shares left by the sale alone, nothing is sold or the other costs what its shares cost on average; when both leave none, the other costs nothing; in between, the cost before is to the cost of the other as the shares sold are to the shares left |
| LoadOrder.DayOrderIff | internal/repository/transaction_repository.go:73 | All orders of one day leave the same metrics if and only if the day is free of order, a condition on its totals, the shares and the cost it starts from and each of its transactions; sell-out days included |
| LoadOrder.LoadOrderIff | internal/repository/transaction_repository.go:73 | All date-ordered loads of the same rows give the same metrics on every day if and only if each day is free of order |
| LoadOrder.RunOrderIrrelevant | internal/service/fund_metrics.go:70-96 | A run of sells and dividends, or a run without sells, may be permuted without changing any metric |
| LoadOrder.LoadOrderIrrelevant | internal/repository/transaction_repository.go:73 | It is enough that no day mixes sells with purchases that have shares or cost something, or with fees; dividends may be among them |
| LoadOrder.MixedDayOrderMatters | internal/repository/transaction_repository.go:73 | A concrete day that is not free of order: a purchase above the average cost and a sell, with two different costs |
| DayOrder.SellsAdd | internal/service/fund_metrics.go:78-84 | Selling twice leaves the cost that selling the total at once leaves |
| Ledger.CostNonNegative | internal/service/fund_metrics.go:70-96 | With non-negative prices and fees the cost never turns negative |
| Rounding.RoundNearest | internal/service/general_helpers.go:21-23 | The rounded value is the nearest multiple of 1e-6, at most half a unit away |
| Rounding.RoundAway | internal/service/general_helpers.go:21-23 | Half way between two multiples it is the one further from zero |
| Transactions.TransactionService.CreateTransaction | internal/service/transaction_service.go:99-152 | Inserts the transaction and, for a sell, its realized gain, or reports the error and changes nothing |
| Transactions.TransactionService.UpdateTransaction | internal/service/transaction_service.go:172-217 | Patches the transaction and replaces its realized gain, or reports the error and changes nothing |
| Transactions.TransactionService.DeleteTransaction | internal/service/transaction_service.go:254-295 | Deletes the transaction with what the schema cascades, reverting an inbox entry whose last allocation goes; refused for a reinvested transaction |
| Transactions.TransactionService.CreateRealizedGainLoss | internal/service/transaction_service.go:393-434 | Books the sale against the position without it, at the weighted average, or fails for too few shares |
| TransactionInvariants.CreatedConsistent | internal/service/transaction_service.go:99-152 | Creating a transaction keeps every clause of the consistency of the tables |
| TransactionInvariants.UpdatedConsistent | internal/service/transaction_service.go:172-217 | So does updating one, whatever its old and new type |
| TransactionInvariants.DeletedConsistent | internal/service/transaction_service.go:254-295 | So does deleting one, also when it is the last allocation of an inbox entry |
| TransactionInvariants.RebookedOne | internal/service/transaction_service.go:198-210 | After an update the transaction has exactly its new gain when it is a sell, and none otherwise |
| TransactionEffects.CreatedIff | internal/service/transaction_service.go:99-152 | A transaction is entered if and only if its portfolio fund exists and, for a sell, the fund has no row of an unsupported type and its rows of whatever date add up to at least the shares sold, so a complete sell-out is accepted; the error is named in every other case |
| TransactionEffects.CreatedRow | internal/service/transaction_service.go:118-136 | Exactly the requested row is appended, with a new id; no other table changes but the gains, by one for a sell |
| TransactionEffects.BookedIff | internal/service/transaction_service.go:393-407 | A sale is booked if and only if the other rows of its fund can be counted and hold at least the shares sold, with the error otherwise |
| TransactionEffects.UpdatedIff | internal/service/transaction_service.go:172-210 | An update is accepted if and only if the fund it names exists and, when the row is a sell afterwards, the other rows of the fund it is then on hold at least its shares; with the error otherwise |
| TransactionEffects.UpdatedNothing | internal/service/transaction_service.go:178-181 | An update of a transaction that does not exist is refused |
| TransactionEffects.UpdatedRows | internal/service/transaction_service.go:364-390 | Field by field the row has the requested value where there is one and its old value otherwise; every other row is as it was and in its place |
| TransactionEffects.UpdatedGains | internal/service/transaction_service.go:190-217 | No other table changes but the gains, and of these only the ones of that row |
| TransactionEffects.DeletedIff | internal/database/migrations/162_base.sql:47-63 | Deleting is refused for a transaction that does not exist and for one that a dividend reinvests, and for no other |
| TransactionEffects.DeletedRows | internal/service/transaction_service.go:254-295 | The transaction goes with its gains and its link, and nothing else of these tables |
| TransactionEffects.DeletedInbox | internal/service/transaction_service.go:268-284 | An entry whose only remaining allocation names the transaction becomes pending without a timestamp; all others stay as they were |
| Conservation.CostConservation | internal/service/transaction_service.go:329-434 | Over any run of accepted and refused creations, of whatever dates: recorded cost bases plus remaining cost equal purchases, reinvested dividends and fees after every one of them if and only if each accepted one is balanced in the sense of the next row |
| Conservation.CreatedConservesIff | internal/service/transaction_service.go:393-434 | Entering a transaction of any date conserves the cost of its fund if and only if the basis it is booked with, the average over everything entered, is what a sale takes at its date, up to what later sales take more or less for it |
| Conservation.UnsoldSinceIff | internal/service/transaction_service.go:393-434 | With no sale of the fund dated later, a purchase, dividend or fee always conserves it, and a sale does if and only if shares were left that day and it sold nothing or the average cost has not changed since, or no shares were left and its basis is the whole cost of that day |
| Conservation.ConservedIff | internal/repository/transaction_repository.go:73 | In any tables a fund is conserved if and only if its recorded bases are what its sales take in date order |
| Conservation.SalesInOrderBalanced | internal/service/transaction_service.go:329-434 | Purchases may be entered in any order among themselves, as long as sales come in date order and are settled |
| Conservation.DateOrderConserves | internal/service/transaction_service.go:329-434 | Runs in date order with positive sales are conserved throughout |
| Conservation.CreatedConserves | internal/service/transaction_service.go:393-434 | Entering the latest transaction of a fund conserves its cost if and only if it is not a sale of nothing from an empty position that still carries cost |
| Conservation.SaleSplitsCost | internal/service/transaction_service.go:409-413 | Booked basis plus cost left equal the cost before, if and only if something was sold, shares were left, or there was no cost |
| Conservation.RealizedPlusUnrealized | internal/service/transaction_service.go:329-434 | After balanced runs without dividend transactions, realized plus unrealized gain equal market value plus sale proceeds minus money invested, at any price |
| Conservation.BackdatedSale | internal/service/transaction_service.go:393-434 | An unsettled sale: three accepted creations, the last a sale dated before a purchase already entered at another price, after which ten of the invested cost are counted twice |
| Conservation.NothingEnteredYet | internal/service/transaction_service.go:329-360 | A fund without transactions is conserved, so runs from empty tables are covered |
| Operations.RunConsistent | internal/service/ibkr_service.go:733-1114 | Every run of create, update, delete, import, allocate, unallocate, modify, ignore and delete-from-inbox keeps the tables consistent |
| Operations.GainLifecycle | internal/service/transaction_service.go:198-210 | After any run a transaction id is used once; a sell has exactly one gain and it is that sale's, unless an import allocated it, when it may have none; nothing else has a gain |
| Operations.EverySaleHasOneGain | internal/service/transaction_service.go:132-136 | Over any run of create, update and delete where nothing was imported, every sell has exactly one realized gain and no other transaction has one |
| Operations.NoOrphanGain | internal/service/transaction_service.go:393-434 | After any run every gain belongs to an existing sell with the same shares, date, proceeds, portfolio and fund |
| Operations.InboxInvariant | internal/service/ibkr_service.go:733-781 | After any run an inbox entry is processed, with a timestamp, if and only if it has an allocation |
| Operations.AllocationsPoint | internal/repository/ibkr_repository.go:756-772 | After any run every allocation points at an existing transaction, which no other allocation shares, and at an existing processed entry |
| Operations.AllocateUnallocateRoundTrip | internal/service/ibkr_service.go:865-896 | Unallocating after an allocation restores every table, only portfolio funds having grown; it is refused if and only if a dividend was matched to one of the allocated transactions in between |
| Operations.ModifyIsFreshAllocation | internal/service/ibkr_service.go:940-966 | Modifying an allocation is allocating the entry afresh on tables that kept nothing of the first allocation but its portfolio funds |
| Operations.ImportIsIdempotent | internal/service/ibkr_service.go:380-392 | Importing a report a second time changes nothing |
| Operations.ImportSucceedsIff | internal/database/migrations/162_base.sql:169-190 | An import goes through if and only if no two of its new lines carry the same broker id |
| Operations.InitialTablesConsistent | internal/database/migrations/162_base.sql:24-46 | Tables that hold only portfolios and funds are consistent |
| InboxInvariants.AllocatedConsistent | internal/service/ibkr_service.go:996-1114 | Allocating keeps the tables consistent |
| InboxInvariants.UnallocatedConsistent | internal/service/ibkr_service.go:865-896 | Unallocating keeps them consistent |
| InboxInvariants.UnallocatedIs | internal/service/ibkr_service.go:865-896 | Unallocating removes exactly the transactions of the entry with their gains and links and reopens the entry, unless a dividend reinvests one of them |
| InboxInvariants.DroppedIs | internal/service/ibkr_service.go:733-750 | Deleting a pending entry cascades to no allocation |
| InboxInvariants.IgnoredConsistent | internal/service/ibkr_service.go:754-781 | Ignoring an entry keeps the tables consistent |
| InboxInvariants.InsertedLinesConsistent | internal/repository/ibkr_repository.go:486-533 | Importing lines keeps the tables consistent |
| InboxInvariants.LinkedIdsDistinct | internal/repository/ibkr_repository.go:777-802 | The allocations of an entry name distinct transactions |
| InboxEffects.AllocatedRows | internal/service/ibkr_service.go:1030-1107 | For each portfolio of the requested split, or else of the configured one, in its order: exactly one new transaction with the kind, date and price of the trade and the rounded part of its shares, on the portfolio fund of that portfolio and the fund the trade identifies, and one fee of no shares exactly when the rounded part of the fees is positive; each with a link that repeats portfolio, percentage and shares |
| InboxEffects.AllocatedIff | internal/service/ibkr_service.go:996-1046 | An entry is allocated if and only if it is pending, a split is requested or configured, the trade identifies a fund, and each portfolio of the split exists or has that fund; with the error otherwise |
| InboxEffects.AllocatedElsewhere | internal/service/ibkr_service.go:1034-1111 | The entry is processed as of now, portfolio funds are only added and on that fund, and no other table or entry changes |
| InboxEffects.UnallocatedIff | internal/service/ibkr_service.go:865-896 | An entry is unallocated if and only if it is processed and no dividend reinvests one of its transactions; with the error otherwise |
| InboxEffects.UnallocatedRows | internal/service/ibkr_service.go:865-896 | Exactly the transactions, gains and links of the entry go, and it is pending without a timestamp |
| InboxEffects.IgnoredIs | internal/service/ibkr_service.go:754-781 | A pending entry becomes ignored and nothing else changes; any other entry is refused |
| InboxEffects.DeletedEntryIs | internal/service/ibkr_service.go:733-750 | A pending entry is removed and nothing else changes; any other entry is refused |
| InboxEffects.NoEntry | internal/service/ibkr_service.go:733-750 | None of these operations accepts an entry that is not there |
| InboxEffects.ImportedRows | internal/service/ibkr_service.go:380-392 | An import appends one pending entry for each line the inbox does not have, in the order of the report, with the fields of the line, its quantity, amount and fees without their sign |
| InboxEffects.ImportedIff | internal/database/migrations/162_base.sql:169-190 | An import is refused, as a violation of UNIQUE, exactly when two of those lines carry the same broker id |
| AllocationSplit.AllocationErrorBound | internal/service/ibkr_service.go:1047-1050 | Over n validated percentages the booked shares, fees and amounts differ from the trade's by at most n half units of the sixth decimal plus a ten-thousandth of the trade |
| AllocationSplit.AllocateAllExtends | internal/service/ibkr_service.go:1030-1107 | An allocation only appends: new portfolio funds, and fresh transactions each with its own link, whose totals are those of the parts |
| AllocationSplit.ValidateAllocateTransaction | internal/validation/ibkr.go:109-138 | Accepts exactly a non-empty list of well-formed portfolio identifiers with positive percentages adding up to 100 within 0.01 |
| AllocationSplit.AcceptedIsValid | internal/validation/ibkr.go:109-138 | What it accepts are exactly the splits, of identified portfolios in positive parts, to which the error bound applies |
| Inbox.IbkrService.AllocateIbkrTransactionTx | internal/service/ibkr_service.go:996-1114 | The tables after allocating a pending entry by the requested or the default split, or the error of the step that failed |
| Inbox.IbkrService.UnallocateIbkrTransactionTx | internal/service/ibkr_service.go:865-896 | The tables after unallocating a processed entry, or the error |
| Inbox.IbkrService.AllocateIbkrTransaction | internal/service/ibkr_service.go:809-834 | Commits the allocation or changes nothing |
| Inbox.IbkrService.UnallocateIbkrTransaction | internal/service/ibkr_service.go:901-935 | Commits the unallocation or changes nothing |
| Inbox.IbkrService.ModifyAllocations | internal/service/ibkr_service.go:940-990 | Commits unallocation and allocation together or changes nothing |
| Inbox.IbkrService.IgnoreIbkrTransaction | internal/service/ibkr_service.go:754-781 | Marks a pending entry as ignored; any other is refused |
| Inbox.IbkrService.DeleteIbkrTransaction | internal/service/ibkr_service.go:733-750 | Deletes a pending entry; any other is refused |
| Inbox.IbkrService.ImportFlexReport | internal/service/ibkr_service.go:376-386 | Inserts the lines that are missing, all or none, and counts imported and skipped |
| Inbox.FindFundIdentifies | internal/service/ibkr_service.go:785-803 | The lookup returns a fund of the table with the ISIN or, when none has it, one whose ticker up to its dot is the symbol; it fails for want of a match only if neither key matches, and for want of a key only if the ISIN is empty, or unmatched with an empty symbol |
| Inbox.IbkrService.CollectPortfolioIds | internal/service/ibkr_service.go:1196-1211 | The portfolios that an entry's allocations name, each once |
| Inbox.IbkrService.MergePortfolioIds | internal/service/ibkr_service.go:970-979 | The portfolios of the new and the removed allocations, each once |
| Inbox.Portion | internal/service/ibkr_service.go:1047-1050 | A portfolio's part is not negative and within half a unit of the exact part |
| PortfolioTotals.CachedTotalsAgree | internal/repository/materialized_repository.go:161-173 | For consistent tables and a right cache, cached value, cost and realized gain of a portfolio are within n + 1 half units of the on-demand totals, when these are not negative, no left-out row would show a value or cost, and reinvestments stay in their dividend's fund |
| PortfolioTotals.GainsNear | internal/repository/materialized_repository.go:161-173 | For the realized gain the bound needs none of those hypotheses |
| PortfolioTotals.GainsByFund | internal/service/portfolio_data_loader.go:98-110 | Summing gains by fund is summing them all when each is on exactly one fund |
| PortfolioTotals.LoadedGainsOnOneFund | internal/database/migrations/162_base.sql:24-32 | In consistent tables each loaded gain is on exactly one fund of the portfolio |
| PortfolioTotals.MetricsWithinAreOwn | internal/service/materialized_helpers.go:275-295 | Looking up reinvestments among all transactions of the portfolio gives a fund its own metrics |
| PortfolioTotals.SumOfRounded | internal/service/materialized_helpers.go:310-324 | Rounding n terms and rounding their sum differ by at most n + 1 half units |
| PortfolioTotals.ProcessTransactionsForDate | internal/service/materialized_service.go:769-805 | The summed shares, costs, values, dividends and fees of the funds, none below zero, or the failure of an unsupported transaction |
| PortfolioTotals.CalculateSinglePortfolioSummary | internal/service/materialized_helpers.go:265-327 | The rounded totals of a portfolio, given the list its dividends were grouped into |
| DailyTotals.SummaryIs | internal/service/materialized_helpers.go:265-325 | In terms of the tables: total value and cost are what the shares of all funds of the portfolio are worth at their last prices and what they have cost, not below zero; unrealized is value less cost; realized gain, proceeds and original cost are sums over the gains of the portfolio due; gain and loss is the sum of both; dividends are those of the list before the first one past the day |
| DailyTotals.MetricsTotalsAre | internal/service/materialized_service.go:769-805 | The five totals over the funds with transactions are those over all funds of the portfolio |
| PortfolioTotals.DividendTotalIff | internal/service/materialized_helpers.go:299-303 | For dividends that are not negative that total counts all that are due if and only if none of them that pays anything is behind a later one in the list |
| PortfolioTotals.DividendTotalDependsOnGrouping | internal/service/materialized_helpers.go:96-113 | The same dividends grouped in another order give another total: a concrete pair |
| RegenInvariant.OneWorkerPerEntry | internal/service/materialized_service.go:681-708 | In every interleaving a portfolio is in flight exactly when it has a live worker, never two, and its entry is the earliest date requested since that worker was registered |
| RegenInvariant.EndedCoveredIff | internal/service/materialized_service.go:717-761 | A worker that has ended has regenerated everything requested while its entry existed if and only if its last run succeeded |
| RegenInvariant.WorkerTerminates | internal/service/materialized_service.go:712-761 | Iterations start strictly earlier each time, number at most one more than the superseding requests, and never fail more than three times in a row |
| RegenInvariant.LoneFailureIsNotRetried | internal/service/materialized_service.go:749-755 | A first failed run with no earlier request ends the worker: a concrete run |
| RegenInvariant.RepeatsIff | internal/service/materialized_service.go:717-761 | In every reachable state: a worker that has finished a run goes round again if and only if fewer than three runs in a row have failed and an earlier date was requested meanwhile |
| RegenInvariant.RequestsRegister | internal/service/materialized_service.go:681-708 | A request leaves each portfolio it names in flight from the earlier of its date and the one before, and no other one changed |
| RegenInvariant.StepKeeps | internal/service/materialized_service.go:681-761 | Every step of a request or a worker keeps the invariant the three theorems rest on |
| RegenProtocol.RegenCoordinator.TriggerBackgroundRegeneration | internal/service/materialized_service.go:681-708 | Registers, supersedes or drops the request for each portfolio |
| RegenProtocol.RegenCoordinator.ReadStartDate | internal/service/materialized_service.go:720-726 | Reads the date to run from, or ends without an entry |
| RegenProtocol.RegenCoordinator.RecordOutcome | internal/service/materialized_service.go:733-739 | Counts consecutive failures |
| RegenProtocol.RegenCoordinator.ContinueOrEnd | internal/service/materialized_service.go:741-759 | Gives up, ends, or goes round again with an earlier date |
| LogWriter.AcceptedIsConserved | internal/logging/handler.go:202-259 | In every reachable state the accepted entries, in order, are those handed over, then the batch, then the queue; the batch is below 50 at the select and the queue within 1024; only drained batches may exceed 50 |
| LogWriter.FlushHandsOver | internal/logging/handler.go:317-325 | A Flush that returns through its acknowledgement has handed over everything accepted before the call |
| LogWriter.CloseHandsOver | internal/logging/handler.go:329-334 | A Close called while the writer ran has, once it stopped, handed over everything accepted before the call |
| LogWriter.StoppedHandsOverNothing | internal/logging/handler.go:97-102 | Once the writer has gone entries are still accepted but none is handed over |
| LogWriter.StepKeeps | internal/logging/handler.go:202-259 | Every step of a caller or of the writer keeps the invariant |
| LogDelivery.TickDelivers | internal/logging/handler.go:219-223 | Every tick at the select hands over exactly what is batched and empties the batch |
| LogDelivery.TickGetsEverythingOut | internal/logging/handler.go:211-223 | From every reachable state with the writer at its select: once it has read the queue, the next tick has handed over everything accepted so far, in order |
| LogDelivery.FlushGetsEverythingOut | internal/logging/handler.go:225-240 | From every such state a waiting Flush that is taken is served in full and acknowledged, with the writer back at its select |
| LogDelivery.CloseGetsEverythingOut | internal/logging/handler.go:242-256 | So is a Close, after which the writer has stopped |
| LogDelivery.HandleIs | internal/logging/handler.go:86-105 | An entry is accepted exactly when the handler is enabled and fewer than 1024 entries are queued, at the end of the queue |
| LogDelivery.ReceiveIs | internal/logging/handler.go:211-217 | The writer takes the oldest queued entry and hands the batch over when it reaches 50, and only then |
| LogDelivery.CallsAre | internal/logging/handler.go:317-334 | A Flush waits with what was accepted before it, and a Close is late exactly when the writer has stopped |
| LogWriter.Writer.Handle | internal/logging/handler.go:86-105 | Enqueues when enabled and the queue has room, and drops otherwise |
| LogWriter.Writer.ReceiveNext | internal/logging/handler.go:211-217 | Takes the next entry and hands over a full batch |
| LogWriter.Writer.TickNow | internal/logging/handler.go:219-223 | Hands over what the batch holds |
| LogWriter.Writer.BeginFlush | internal/logging/handler.go:317-318 | A Flush waits from here on, marked with what was accepted before it |
| LogWriter.Writer.MeetFlush | internal/logging/handler.go:319-324 | The writer receives the waiting Flush, or the call returns because the writer has stopped |
| LogWriter.Writer.BeginClose | internal/logging/handler.go:329-333 | Close signals the shutdown, any number of times |
| LogWriter.Writer.MeetClose | internal/logging/handler.go:242 | The writer leaves its select for the shutdown drain |
| LogWriter.Writer.DrainNext | internal/logging/handler.go:226-256 | One round of a drain loop, with producers free to enqueue before the next |
| LogWriter.Writer.DrainAll | internal/logging/handler.go:226-241 | The drain loop as a loop, when nothing comes in between |
| LogWriter.DrainedAll | internal/logging/handler.go:226-241 | It hands over the batch and everything queued, in order, and ends the drain |
| Pagination.PagesRefineFullQuery | internal/repository/developer_repository.go:111-165 | Following cursors from the first page returns, in finitely many pages, exactly the filtered rows in order, if and only if nothing is skipped or nothing is selected |
| Pagination.FullQueryIsTheOrderedTable | internal/repository/developer_repository.go:141-157 | Those rows are a permutation of the selected ones, each there once; for asc each has an earlier timestamp than the next ones, or the same and an id that is smaller at the first differing character or a proper prefix, and the reverse for every other direction |
| Pagination.CursorRoundTripIff | internal/repository/developer_repository.go:229-237 | A cursor can be read back if and only if the id has no underscore; otherwise it is ignored |
| Pagination.PastIsSuffix | internal/repository/developer_repository.go:118-135 | The cursor's condition cuts the ordered rows just after the one it was made of, in both directions |
| LogOrder.OrderIsTotal | internal/repository/developer_repository.go:141-145 | Both orders are total |
| LogOrder.SortedIsInOrder | internal/repository/developer_repository.go:141-145 | Rows are sorted exactly when they are in that order of their columns |
| LogOrder.OneOrder | internal/repository/developer_repository.go:141-145 | There is only one such order of the same rows |
| Pagination.GetLogs | internal/repository/developer_repository.go:59-246 | One page: its rows, in order by their columns, whether there are more, and the next cursor |
| Pagination.PageIs | internal/repository/developer_repository.go:110-246 | However the wanted rows are put in that order, a page holds those after the skipped ones up to its size; there are more exactly when some are left, and then the next cursor is made of the time and id of the last row shown |
| Pagination.SelectedIs | internal/repository/developer_repository.go:110-133 | The wanted rows are the selected ones older than that of the cursor for desc, newer otherwise, by the same columns |
| Backfill.BackfillIsIdempotent | internal/service/fund_service.go:691-776 | With chart and day fixed a second backfill inserts nothing |
| Backfill.BackfillKeepsPricesUnique | internal/database/migrations/162_base.sql:65-73 | Prices stay unique per fund and day and the old ones stay as they were |
| Backfill.BackfilledRows | internal/service/fund_service.go:691-776 | In terms of the tables and the chart: every added price is of the fund, for a day from its first transaction in any portfolio to yesterday that had no price, at the last positive close of that day; no such day is left out and nothing else changes |
| Backfill.RefusedIff | internal/service/fund_service.go:691-720 | A backfill is refused exactly for a fund without a symbol, one that no portfolio holds, one never traded, and one first traded after today; each with its error |
| Backfill.FundService.UpdateHistoricalFundPrice | internal/service/fund_service.go:691-776 | Adds for every missing day from the oldest transaction to yesterday the last positive close, if there is one, once; never a constraint violation; a failed fetch or any other error changes nothing; says from which day to regenerate |
| Backfill.FundService.FindMissingPrices | internal/service/fund_service.go:741-744 | The rows to add |
| Backfill.FundService.FindMissingDates | internal/service/fund_service.go:722-727 | The days without a price from the oldest transaction to yesterday |
| Backfill.FundService.BuildMissingDatesMap | internal/service/fund_service.go:611-626 | Exactly the days of the range without a price |
| Backfill.FundService.ClosesByDate | internal/service/fund_service.go:630-650 | For each missing day its last positive close |
| Backfill.FundService.InsertFundPrices | internal/repository/fund_repository.go:632-655 | Inserts all rows if and only if they repeat no fund and day, neither among themselves nor in the table; otherwise reports the violation |
| Isin.ValidateIsin | internal/validation/validation.go:72-106 | Accepts exactly the well-formed strings whose expanded digits and check digit balance |
| Isin.BalancedIs | internal/validation/validation.go:90-105 | Digits balance exactly when, going left from the check digit, every second one is replaced by the digit sum of its double and the total ends in a nought |
| Isin.DigitsAre | internal/validation/validation.go:79-88 | A numeral stands for itself and the letters A to Z for 10 to 35, in two digits |
| Isin.WellFormedIs | internal/validation/validation.go:72-77 | Two letters, nine letters or numerals, and a numeral |
| Isin.SubstitutionDetected | internal/validation/validation.go:90-105 | Changing one digit of a balanced list of any length unbalances it |
| Isin.TranspositionDetectedIff | internal/validation/validation.go:90-105 | Swapping neighbours goes unnoticed if and only if they are equal, or a nine and a zero |
| Isin.MistypedNumeralDetected | internal/validation/validation.go:72-106 | Replacing one numeral of a valid ISIN by another makes it invalid |

## Left out

- HTTP handlers, configuration, migrations, scheduling, encryption, and the Yahoo and broker clients: foreign calls and plumbing.
- Floating-point rounding of intermediate results: arithmetic is over reals.
- The failure of a database call in the middle of an operation: only the errors the code or the schema raises itself are modelled.
- Reads of one calculation that see different commits: a calculation reads one state of the tables, that of the moment it begins.
- Creating, updating and deleting dividends, portfolios, funds and portfolio funds, and matching dividends: they change the tables outside the modelled operations; the round trip takes dividends matched in between as a parameter.
- A rounding bound for the dividend total of a portfolio: it depends on the order of a list that need not be ordered as a whole.
- Freshness checks by timestamp and the fallback decision: no equivalence holds, since updates and deletions do not raise the newest timestamp.
- The passing of midnight: today is fixed during a run.
- Unallocating or modifying a trade whose transactions were since moved to another portfolio or before the trade's date: the regeneration starts at the trade's date and reaches the portfolios of its allocations only, so rows elsewhere stay as they were (`CacheRequests.ServedAgreesIff` says which are wrong then).
- Inbox.IbkrService.ImportFlexReport: does not model the exchange rates and the date of the last import, which no other table depends on.
- LogWriter.Writer.DrainAll: states the loop without interference only; with it, the rounds are those of DrainNext and the theorems hold for every interleaving.
- Changes of a transaction that a dividend reinvests: shares are looked up by id whatever the date, so such a change reaches back before its date.
- Negative share counts: every writer of the transaction table rejects or never produces them, so they are a type invariant of the row.
- Default allocations with negative percentages in a hand-edited configuration.
- Row identifiers of the materialized table, creation times, names and free-text columns: no property depends on them.
- Log filters by level, category, source and message: one selection predicate stands for them; formatting and parsing of times enter as a pair of functions with their round-trip law.
- The select loop of the log writer as one method: it does not end by itself, so each of its cases is a step.
- Multi-portfolio history endpoints and the grouping of loads by portfolio: the model loads one portfolio at a time.
- The order in which Go iterates maps: sums do not depend on it, and rows built from a map come in an arbitrary order.
