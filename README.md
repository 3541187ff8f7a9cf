# Scalping bot core in Dafny

This project models the decision and bookkeeping logic of a polling crypto-scalping bot. The
venue (best bid/ask, holdings, account, executed orders, order placement) and the MySQL tables
behind the bot are abstract:

- venue responses are option and datatype values;
- calls that may raise are parameters of the model;
- each table is a `seq` of rows, held in a `map` field of the manager class that owns it.

The modules follow the program's files:

- `ScalpingStrategy` (scalping_strategy.dfy). The rolling means of the newest 1, 3, 5 and 15
  bids, the gap bucket of `avg_1min − avg_3min`, the holding gate, and the three-order bracket.
  The bracket is an entry buy at the first ask, a take-profit sell and a stop-loss sell
  carrying its stop price. `BuyStrategy`/`ExecuteStrategy` append to a `Venue.OrderDesk` log.
- `CompiledData` (compiled_data.dfy). Cash buying power, the "true buying power" loop
  (2% of cash plus Σ quantity × ask over the counted holdings), and compile_data's `price_data`
  record.
- `Core` (bot.dfy). `Bot.run`:
  - per-coin skip rules and exception isolation;
  - the best-price dictionary;
  - the executed-order loop (post-buy action, upsert, cursor := `updated_at`, in fetched order).
- `OrderHistory`, `Database`, `Timestamps`, `ValueHistory` (order_history.dfy,
  database_manager.dfy, timestamps.dfy, value_history.dfy). The managers' table operations:
  - quote-to-row parsing with defaults;
  - the keyed order upsert that keeps `timestamp`/`side` and overwrites the rest;
  - the latest `updated_at`;
  - the per-coin cursor map;
  - the newest-first fetches;
  - the spread/momentum frame of `ValueHistoryManager.fetch_data`.
- `OrderHistoryJob` (update_order_history.dfy). The job's start cursor, request path,
  empty-reply fallback and per-symbol loop.
- Support modules:
  - `TableNames`: `<coin>` with "-USD" removed and lower-cased, plus `_value_history` or
    `_order_history`;
  - `TimeOrder`: timestamps as ISO text under a proved total order, and the maximum a
    `ORDER BY … DESC LIMIT 1` query returns;
  - `KeyedTable`: the generic `ON DUPLICATE KEY UPDATE` row operation;
  - `Venue`: response shapes and the order log;
  - `Wrappers`: `Option`, `Result`, `Outcome`.

Money and quantities are `real`. The current time is a parameter `now`.

Two places where the code's own behaviour was followed:

- `ValueHistoryManager.fetch_data` drops the first nine rows of its frame. Its
  `rolling(window=10).std()` column is undefined there and `dropna()` removes them. Momentum
  alone would drop only five. `dropna()` also removes each later row whose bid and previous
  bid are both 0.0 (the stored default for a missing bid): `pct_change` is 0/0 there.
- `DatabaseManager.insert_or_update_order` reads ten keys with `[]`. A missing key, including
  "type", is a KeyError. `OrderHistoryManager.insert_or_update_order` instead defaults every
  missing key.

## Model

| member | source | states |
|---|---|---|
| TimeOrder.NotAfterReflexive | bot/database/database_manager.py:46 | every timestamp is ordered against itself |
| TimeOrder.NotAfterTotal | bot/database/database_manager.py:46 | any two timestamps are comparable, so ORDER BY timestamp is defined |
| TimeOrder.NotAfterAntisymmetric | bot/database/database_manager.py:46 | two timestamps each not after the other are equal |
| TimeOrder.NotAfterTransitive | bot/database/database_manager.py:46 | the timestamp order is transitive |
| TimeOrder.LatestIsMaximum | bot/database/order_history_manager.py:64-70 | the DESC LIMIT 1 value is None exactly when every value is NULL; otherwise it is one of the values and no value is later |
| TableNames.StripUsdOfPair | bot/database/database_manager.py:7 | removing "-USD" from `BASE-USD` gives `BASE` when the base has no dash |
| TableNames.PairTables | bot/database/database_manager.py:7 | `BASE-USD` maps to lower(BASE) + "_value_history" and lower(BASE) + "_order_history" |
| TableNames.CoinBaseIsLowerCase | bot/core/bot.py:64 | the table prefix holds no upper-case letter |
| TableNames.StripUsdOfNoDash | bot/database/database_manager.py:45 | a name without a dash is left as is by the "-USD" removal |
| TableNames.ValueHistoryTable | bot/database/value_history_manager.py:10 | the value table's name has no upper-case letter |
| TableNames.OrderHistoryTable | bot/core/bot.py:64 | the order table's name has no upper-case letter and differs from the coin's value table |
| TableNames.BitcoinTables | bot/update_order_history.py:55 | "BTC-USD" uses btc_value_history and btc_order_history |
| TableNames.DistinctCoinsShareTables | bot/core/bot.py:64 | "BTC-USD" and "btc" are different coins that share one order table |
| KeyedTable.UpsertStoresRow | bot/database/order_history_manager.py:29-41 | after the upsert the id holds the new row, merged with the stored row's kept columns when the id was present |
| KeyedTable.UpsertKeepsOthers | bot/database/order_history_manager.py:29-41 | rows with other ids are unchanged by an upsert |
| KeyedTable.UpsertOfNewId | bot/database/order_history_manager.py:29-33 | a new id is appended as the whole row |
| KeyedTable.UpsertIdempotent | bot/database/order_history_manager.py:29-41 | upserting the same row twice equals upserting it once |
| KeyedTable.UpsertIds | bot/database/order_history_manager.py:29-41 | ids stay distinct under upsert (the primary key) |
| KeyedTable.FindAbsent | bot/database/order_history_manager.py:29-33 | lookup fails exactly when no row carries the id |
| Venue.FirstFor | bot/strategies/scalping_helpers/compiled_data.py:58 | the result is None exactly when no entry has the symbol; otherwise it is the first entry with that symbol |
| Venue.OrderDesk.PlaceOrder | bot/exchange/exchange_api.py:8-27 | the order is appended to the venue's order log |
| ScalpingStrategy.ParametersFor | bot/strategies/scalping_strategy.py:76-80 | every bucket's profit factor exceeds 1 and its stop factor lies strictly between 0 and 1 |
| ScalpingStrategy.BuyOrders | bot/strategies/scalping_strategy.py:82-94 | orders are placed iff the quantity is positive and a first ask exists; then there are three, the first a buy at that ask, all for the coin and the quantity |
| ScalpingStrategy.BuyStrategy | bot/strategies/scalping_strategy.py:71-97 | the order log grows by exactly the bracket orders for the quantity and first ask, or by nothing |
| ScalpingStrategy.ExecuteStrategy | bot/strategies/scalping_strategy.py:37-69 | the order log grows by exactly the orders the averages, bucket and gate call for |
| ScalpingStrategy.MovingAverages | bot/strategies/scalping_strategy.py:12-23 | no averages exist exactly when there are fewer than 15 history points |
| ScalpingStrategy.ShortestAverageIsNewestBid | bot/strategies/scalping_strategy.py:15-23 | avg_1min is the newest bid |
| ScalpingStrategy.SumBounds | bot/strategies/scalping_strategy.py:15-18 | a sum of values within [lo, hi] lies within [n·lo, n·hi] |
| ScalpingStrategy.AverageWithinWindow | bot/strategies/scalping_strategy.py:15-18 | each rolling mean lies between the smallest and largest of its window's bids |
| ScalpingStrategy.ShortGapFormula | bot/strategies/scalping_strategy.py:15-48 | gap_1_3 is (2·b[n−1] − b[n−2] − b[n−3]) / 3 over the newest bids |
| ScalpingStrategy.GapCategory | bot/strategies/scalping_strategy.py:25-35 | medium iff 0.0001 ≤ gap < 0.0003, large iff 0.0003 ≤ gap < 0.0005, extreme iff gap ≥ 0.0005, none iff gap < 0.0001 |
| ScalpingStrategy.GapCategoryMonotone | bot/strategies/scalping_strategy.py:25-35 | a larger gap never gets a smaller bucket |
| ScalpingStrategy.NoOrdersWithoutHistory | bot/strategies/scalping_strategy.py:42-45 | fewer than 15 points place no order |
| ScalpingStrategy.NoOrdersWithoutSignal | bot/strategies/scalping_strategy.py:53-66 | a gap below 0.0001 places no order |
| ScalpingStrategy.NoOrdersUnlessNotHolding | bot/strategies/scalping_strategy.py:61-64 | unless the holding check says "not held", no order is placed |
| ScalpingStrategy.NoOrdersForNonPositiveQuantity | bot/strategies/scalping_strategy.py:82-84 | a quantity ≤ 0 places no order at all |
| ScalpingStrategy.OnlyShortGapDecides | bot/strategies/scalping_strategy.py:48-53 | averages with equal gap_1_3 place the same orders; gap_3_5 and gap_5_15 never matter |
| ScalpingStrategy.OrdersPlacedExactly | bot/strategies/scalping_strategy.py:37-97 | orders are placed iff there are 15 points, a bucket, no holding, a positive quantity and a first ask; then they are buy at ask, sell at ask·profit, and sell at ask·stop with stop_price equal to that price, all of one quantity |
| ScalpingStrategy.BracketPricesOrdered | bot/strategies/scalping_strategy.py:85-94 | for a positive ask the stop price is below the ask, the ask below the profit target, with equal quantities and sides buy, sell, sell |
| ScalpingStrategy.FlatMarketNoOrders | bot/strategies/scalping_strategy.py:48-53 | three equal newest bids give no order |
| ScalpingStrategy.RisingBidSignals | bot/strategies/scalping_strategy.py:25-35 | a newest bid 0.00015 above the two before it always falls in a bucket |
| CompiledData.TrueBuyingPower | bot/strategies/scalping_helpers/compiled_data.py:37-66 | the loop's result is the allocation over all holdings in list order, or the first holding's KeyError |
| CompiledData.CompileData | bot/strategies/scalping_helpers/compiled_data.py:69-92 | the compiled record is the allocation and the price entry, failing with the allocation's error first |
| CompiledData.BuyingPower | bot/strategies/scalping_helpers/compiled_data.py:29-34 | cash is 0.0 without an account figure and the figure otherwise |
| CompiledData.HoldingContribution | bot/strategies/scalping_helpers/compiled_data.py:49-61 | one iteration of the holdings loop computes the holding's contribution or its KeyError |
| CompiledData.MissingHoldingKeyFails | bot/strategies/scalping_helpers/compiled_data.py:50-51 | after successful holdings, one without "asset_code" fails with that KeyError, and one with it but without "total_quantity" fails with that one |
| CompiledData.ContributionNonNegative | bot/strategies/scalping_helpers/compiled_data.py:53-61 | with a non-negative ask for its pair, a holding that does not fail contributes at least 0 |
| CompiledData.PriceDataOf | bot/strategies/scalping_helpers/compiled_data.py:78-90 | the only errors are the matched entry's missing bid or ask, and a price record or error comes from a valid response with an entry for the coin |
| CompiledData.ZeroContributionIgnored | bot/strategies/scalping_helpers/compiled_data.py:49-61 | a holding that adds nothing can be removed from anywhere in the list without changing the value or error |
| CompiledData.NonPositiveHoldingIgnored | bot/strategies/scalping_helpers/compiled_data.py:53 | holdings with quantity ≤ 0 contribute nothing |
| CompiledData.UnquotedHoldingIgnored | bot/strategies/scalping_helpers/compiled_data.py:54-61 | a holding with no quote entries, or none for its ASSET-USD pair, is skipped without failing the sum |
| CompiledData.HoldingsValueNonNegative | bot/strategies/scalping_helpers/compiled_data.py:49-61 | with non-negative asks the holdings' value is non-negative |
| CompiledData.AllocationAtLeastCashShare | bot/strategies/scalping_helpers/compiled_data.py:63-64 | with non-negative asks the allocation is at least 2% of cash, hence ≥ 0 for non-negative cash |
| CompiledData.SingleHoldingValue | bot/strategies/scalping_helpers/compiled_data.py:49-64 | one priced holding gives exactly 0.02 × (quantity × ask + cash) |
| CompiledData.DictAndListAgree | bot/strategies/scalping_helpers/compiled_data.py:44-47 | a dict's "results" and the bare list give the same result; a dict without "results" counts cash only |
| CompiledData.MissingAccountMeansNoCash | bot/strategies/scalping_helpers/compiled_data.py:29-34 | buying power is 0.0 when the account call returns nothing, so the allocation is 2% of the holdings |
| CompiledData.PriceDataOutcomes | bot/strategies/scalping_helpers/compiled_data.py:78-90 | price_data is None iff the response is invalid, is left unset iff no entry matches, and otherwise holds the first matching entry's bid and ask (a missing bid raises) |
| CompiledData.NoHoldingsFails | bot/strategies/scalping_helpers/compiled_data.py:44-49 | a None holdings response cannot be iterated and fails the compilation |
| ValueHistory.AppendedRows | bot/database/value_history_manager.py:8-26 | nothing is written without results; otherwise the coin's table gains the one parsed row at its end and no other table changes |
| ValueHistory.OnlyFirstEntryCounts | bot/database/value_history_manager.py:14 | only the first result entry matters |
| ValueHistory.MissingFieldsDefault | bot/database/database_manager.py:15-27 | missing price/ask/bid become 0.0 and a missing timestamp the current time |
| ValueHistory.PresentFieldsKept | bot/database/value_history_manager.py:15-19 | present fields are stored as given, as (timestamp, price, ask, bid) |
| ValueHistory.AsWrittenFailsWithoutTimestamp | bot/database/value_history_manager.py:15 | as written, an entry without a timestamp raises instead of taking the current time |
| ValueHistory.AsWrittenAgreesOtherwise | bot/database/value_history_manager.py:14-19 | where the as-written insert does not raise, it writes the corrected row |
| ValueHistory.ValueRowOf | bot/database/value_history_manager.py:11-19 | no row exists exactly when there are no results; the row's timestamp is the entry's or the current time |
| ValueHistory.InsertByTimeSorts | bot/database/database_manager.py:46 | inserting a row into a newest-first sequence keeps it newest first |
| ValueHistory.SortNewestFirstSorts | bot/database/database_manager.py:46 | the ORDER BY timestamp DESC result is a newest-first permutation of the table |
| ValueHistory.TakeNewestSelects | bot/database/value_history_manager.py:31 | LIMIT n selects min(n, rows) rows of the table, newest first, and no row left out is later than a selected one |
| ValueHistory.OldestFirstReverses | bot/database/value_history_manager.py:40 | sorting the newest-first selection by timestamp puts it oldest first |
| ValueHistory.FetchData | bot/database/value_history_manager.py:28-36 | fetch_data fails, with its no-data error, exactly when the table is empty |
| ValueHistory.KeptRows | bot/database/value_history_manager.py:46-48 | every index it yields is a row `dropna` keeps: from the tenth on, and not a 0.0 bid after a 0.0 bid |
| ValueHistory.KeptRowsExact | bot/database/value_history_manager.py:48 | the kept indexes increase, and every row `dropna` keeps is among them |
| ValueHistory.KeptRowsFull | bot/database/value_history_manager.py:46-48 | without two consecutive zero bids every row from the tenth on is kept |
| ValueHistory.FeaturesAscending | bot/database/value_history_manager.py:40-48 | a frame built from rows in ascending time order is in ascending time order |
| ValueHistory.FeaturesFull | bot/database/value_history_manager.py:45-48 | without two consecutive zero bids the frame has the rows from the tenth on and momentum = bid − bid five frame rows earlier |
| ValueHistory.FeaturesFrame | bot/database/value_history_manager.py:43-48 | the frame holds exactly the rows `dropna` keeps (from the tenth on, minus those whose pct_change is 0/0), in order, each with its timestamp, bid, ask, spread = ask − bid and momentum = bid − bid five rows earlier |
| ValueHistory.ZeroBidPairDropsRow | bot/database/value_history_manager.py:44-48 | eleven rows whose last two bids are 0.0 give a one-row frame, the tenth row |
| ValueHistory.FetchDataFrame | bot/database/value_history_manager.py:28-48 | fetch_data fails exactly on an empty table; otherwise the frame is ascending, every row has spread = ask − bid, and it has at most the newest 500 rows minus the first nine, exactly those when no bid is 0.0, with momentum over five frame rows |
| ValueHistory.ShortTableGivesEmptyFrame | bot/database/value_history_manager.py:46-48 | a table of one to nine rows yields an empty frame |
| ValueHistory.ValueHistoryManager.InsertData | bot/database/value_history_manager.py:8-26 | the tables become the old tables with the quote's row appended |
| OrderHistory.MissingFieldsDefault | bot/database/order_history_manager.py:15-26 | missing id/side/state become "N/A", created_at/updated_at None, price/quantity 0.0, configurations "{}" |
| OrderHistory.RowOf | bot/database/order_history_manager.py:15-26 | a present id is kept, created_at is the kept timestamp, updated_at the updated one, and price is average_price or 0.0 |
| OrderHistory.PresentFieldsKept | bot/database/order_history_manager.py:15-21 | price comes from average_price, quantity from filled_asset_quantity, the rest as given |
| OrderHistory.UpsertNewOrder | bot/database/order_history_manager.py:29-33 | a new id is appended with all ten values |
| OrderHistory.UpsertExistingOrder | bot/database/order_history_manager.py:34-41 | an existing id keeps timestamp and side, takes the new updated_at, state, price, quantity and three configurations, and the row count is unchanged |
| OrderHistory.UpsertedLeavesOthers | bot/database/order_history_manager.py:29-41 | other tables and other ids are unchanged, and upserting the same order twice equals once |
| OrderHistory.LastUpdatedAtIsMaximum | bot/database/order_history_manager.py:64-70 | the latest updated_at is None iff none is stored, else a stored value that no other is after |
| OrderHistory.OrderHistoryManager.InsertOrUpdateOrder | bot/database/order_history_manager.py:9-60 | the tables become the old ones with the order's row upserted into the named table, and ids stay distinct in every table (the primary key) |
| OrderHistory.OrderHistoryManager.GetLastUpdatedAt | bot/database/order_history_manager.py:64-70 | returns the maximum stored updated_at, or None when there is none |
| Timestamps.NeverUpdatedHasNoCursor | bot/database/timestamps_manager.py:8-14 | a coin never updated has no cursor |
| Timestamps.UpdateSetsCursor | bot/database/timestamps_manager.py:16-24 | after an update the coin's cursor is the new timestamp and no other coin's cursor changes |
| Timestamps.RepeatedUpdates | bot/database/timestamps_manager.py:17-21 | updating twice with one timestamp equals once; a later update overrides an earlier one |
| Timestamps.TimestampsManager.GetLastTimestamp | bot/database/timestamps_manager.py:8-14 | returns the coin's stored timestamp, or None when there is none |
| Timestamps.TimestampsManager.UpdateLastTimestamp | bot/database/timestamps_manager.py:16-24 | the map gets the coin set to the timestamp, and nothing else changes |
| Database.StoredOrderOfReportsFirstMissingKey | bot/database/database_manager.py:72-83 | the row is built iff none of the ten keys (including "type") is missing; otherwise the first missing key is the error; built rows carry the ten values |
| Database.StoredOrderOf | bot/database/database_manager.py:72-83 | every error is a KeyError; a built row carries the id, timestamp, updated_at and type it was given |
| Database.UpsertOfStoredOrder | bot/database/database_manager.py:58-69 | a repeated id keeps id, timestamp and side and takes the other seven columns |
| Database.LastStoredUpdatedAtIsMaximum | bot/database/database_manager.py:88-97 | the latest updated_at is None iff the table is empty, else the maximum stored value |
| Database.ShortTableFetchedWhole | bot/database/database_manager.py:46 | a table of at most 48 rows is fetched whole |
| Database.DatabaseManager.InsertData | bot/database/database_manager.py:5-41 | the value tables gain the parsed row; the order tables are unchanged |
| Database.DatabaseManager.FetchData | bot/database/database_manager.py:43-50 | returns min(48, rows) rows of the coin's table, newest first, with no omitted row later than a returned one |
| Database.DatabaseManager.InsertOrUpdateOrder | bot/database/database_manager.py:52-86 | succeeds iff no key is missing, then the row is upserted; on a KeyError (first missing key) nothing changes; ids stay distinct in every order table |
| Database.DatabaseManager.GetLastUpdatedAt | bot/database/database_manager.py:88-97 | returns None for an empty table, else the maximum updated_at |
| OrderHistoryJob.RequestPathCursor | bot/update_order_history.py:55-65 | an empty table starts at 2022-01-01T00:00:00Z; otherwise the cursor is the table's maximum updated_at with "Z" appended |
| OrderHistoryJob.PathCursorRoundTrip | bot/update_order_history.py:65 | the path carries the symbol and, after created_at_start=, exactly the cursor |
| OrderHistoryJob.StartCursor | bot/update_order_history.py:59-62 | an absent updated_at gives 2022-01-01T00:00:00Z; a present one is kept with "Z" appended |
| OrderHistoryJob.NewOrders | bot/update_order_history.py:66-69 | a missing reply or one without "results" gives no orders |
| OrderHistoryJob.NewOrdersReadOwnTable | bot/update_order_history.py:55-66 | the request path and the fetched orders depend on the symbol's own table only |
| OrderHistoryJob.StoreOrdersOnlyNamedTable | bot/update_order_history.py:40-41 | storing a symbol's orders touches only its table |
| OrderHistoryJob.StoreOrdersStopsAtIncomplete | bot/update_order_history.py:33-44 | orders after the first with a missing key are never stored |
| OrderHistoryJob.StoreOrdersKeepsPresent | bot/update_order_history.py:40-41 | an id already stored stays stored |
| OrderHistoryJob.CompleteOrdersAllStored | bot/update_order_history.py:40-41 | when every order is complete, every fetched order's id ends up in the table |
| OrderHistoryJob.UnansweredSymbolSkipped | bot/update_order_history.py:33-44 | a symbol whose requests go unanswered changes nothing, and the other symbols' results are unaffected |
| OrderHistoryJob.AsWrittenStoresNothing | bot/update_order_history.py:37-44 | as written, a symbol's step fails exactly when it has new orders, and when it succeeds it stores nothing |
| OrderHistoryJob.OneNewOrderDiscrepancy | bot/update_order_history.py:37-41 | one complete new order is stored by the corrected step and fails the as-written step |
| OrderHistoryJob.FetchNewOrders | bot/update_order_history.py:50-69 | returns the reply's results for the path from the table's cursor, or nothing when the reply is falsy or lacks "results" |
| OrderHistoryJob.StoreNewOrders | bot/update_order_history.py:40-41 | the order tables become the stored-until-first-KeyError tables; the value tables are unchanged; ids stay distinct |
| OrderHistoryJob.RunJob | bot/update_order_history.py:33-44 | the order tables become the result of the per-symbol steps in order; ids stay distinct |
| Core.Reconcile | bot/core/bot.py:55-70 | reconciliation leaves the value tables and other coins' orders and cursors alone and only appends calls |
| Core.CoinStep | bot/core/bot.py:22-70 | a coin that is not admitted changes nothing; otherwise the dictionary gains its quote; other coins' orders and cursors stay, and calls are only appended |
| Core.SkippedCoinLeavesNoTrace | bot/core/bot.py:26-36 | a coin without results, or whose insert raises, changes nothing: no insert, no strategy, no reconciliation |
| Core.BestPriceEntries | bot/core/bot.py:20-36 | the best-price dictionary holds exactly the coins whose fetch and insert succeeded, each with its own quote |
| Core.FetchFailureSkipsStrategy | bot/core/bot.py:38-53 | a raising fetch_data records the quote only: no strategy call, no reconciliation |
| Core.AlwaysFailingFetchNeverTrades | bot/core/bot.py:38-53 | when fetch_data raises for every coin, a run makes no strategy call and changes no order or cursor |
| Core.StrategyFailureSkipsReconciliation | bot/core/bot.py:38-53 | a raising strategy (after a fetch that did not raise) leaves orders and cursors unchanged, having been called with the coin's quote entered in the dictionary |
| Core.ReconcileLogsPostBuyCalls | bot/core/bot.py:60-68 | the post-buy calls follow the fetched order, at most one per order, and the value tables are untouched |
| Core.CompleteBatchCursor | bot/core/bot.py:60-68 | after a complete batch the cursor is the last order's updated_at, unchanged for an empty batch, with one post-buy call per order |
| Core.FailingOrderEndsBatch | bot/core/bot.py:55-70 | an order whose post-buy action or upsert raises ends the batch with the cursor at the last fully processed order |
| Core.CursorIsLastNotLatest | bot/core/bot.py:60-68 | with a newer order fetched before an older one, the cursor ends at the older timestamp |
| Core.Bot.ReconcileOrders | bot/core/bot.py:55-70 | the managers' state becomes the reconciliation of the fetched orders; order ids stay distinct |
| Core.Bot.Run | bot/core/bot.py:18-70 | the managers' state and the dictionary (returned only to state it; the source returns nothing) are the per-coin steps applied in symbol order; order ids stay distinct |

## Left out

- Sockets, MySQL connections, cursors, commits and SQL text. Tables are sequences of rows keyed by name; database failures other than KeyErrors are the `insertFails`/`upsertFails` parameters of `Core.Env`.
- The venue client, `uuid` client order ids and logging. The venue is a set of function parameters; placing an order appends to `Venue.OrderDesk.placed`.
- `place_order`'s `order_config` argument at bot/strategies/scalping_strategy.py:94, which `ExchangeAPI.place_order` does not accept. The stop price is carried in the order log instead.
- `already_holds_coin`, `calculate_buy_quantity_for_two_percent_allocation` and `handle_post_buy_actions`. They are not defined in the repository; they are parameters (`holds`, `quantity`, `postBuyFails`).
- ScalpingStrategy.ExecuteStrategy: takes the coin, the bid history and the quote as parameters. The source reads them from the value-history frame's last row and a fresh `get_best_price` call.
- The strategy call inside `Bot.run`, which passes six arguments to a one-argument method. It is an abstract call that may raise (`strategyFails`), recorded in the call log.
- `value_history.fetch_data(coin)` at bot/core/bot.py:40 passes an argument that `fetch_data(self)` at bot/database/value_history_manager.py:28 does not take, so as written it raises a TypeError for every coin. The model keeps it as a call that may raise (`fetchFails`); `Core.AlwaysFailingFetchNeverTrades` states what a run then does: it never calls the strategy and never reconciles.
- `Bot.run` reaches the managers through `db_manager.value_history`, `.order_history` and `.timestamps`, which `DatabaseManager` does not define. The model gives `Core.Bot` the three managers directly.
- `ValueHistoryManager.fetch_data` uses `self.symbol`, `self.db_manager` and `pd`, none of which exist, and a `BTC_USD_value_history` table name. It is modelled as a function over the coin's value rows.
- The `price_change` (`pct_change`) and `volatility` (`rolling(10).std()`) values. They involve float division and square roots. Which rows they make `dropna` remove is modelled: the first nine (volatility) and those whose bid and previous bid are both 0.0 (pct_change is 0/0). A non-zero bid after a zero one makes pct_change infinite, which `dropna` keeps.
- `DatabaseManager.fetch_data` selects a `value` column that the value-history table does not have. It is modelled as returning whole rows.
- bot/strategies/scalping_helpers/compiled_data.py calls its private helpers without `self.`: `__get_buying_power()` at line 41, `__get_value_history` at 72, `__get_holdings` at 73 and `__true_buying_power` at 75. With name mangling inside the class these are NameErrors, and `logging` is never imported. The model reads them as `self.` calls, with logging available.
- `__get_buying_power` calls `float` on the account response. The model takes the response's buying power figure directly (`Option<real>`).
- compile_data's `value_history` entry: the `get_value_history` it calls is not defined on any manager.
- `float()` conversion of text fields, and JSON nulls. An optional key read with `.get` is either absent (None) or holds a value of its type. The holding keys "asset_code" and "total_quantity" (compiled_data.py:50-51) and the order keys of `DatabaseManager.insert_or_update_order` are options whose absence is a KeyError.
- The "symbol" key of a quote entry, read with `[]` at bot/strategies/scalping_helpers/compiled_data.py:58 and :80, is assumed present: the KeyError a quote entry without it would raise is not modelled.
- Float rounding. Values are `real`.
- Time. Timestamps are ISO text ordered character by character, which agrees with time order for equal-width ISO forms. `isoformat()` of a stored `updated_at` is that text.
- `lower()` is modelled for ASCII letters only.
- The current time (`datetime.utcnow()`) is the parameter `now`.
- main.py (configuration, connection, the sleep loop) and strategy.py (an abstract base class).

## Findings

| source | as written | input that shows it | evidently intended | confidence | as-written member | corrected member |
|---|---|---|---|---|---|---|
| bot/database/value_history_manager.py:15 | the current-time fallback calls `datetime.datetime.utcnow()`, but the module never imports `datetime`, so a NameError is raised | a quote whose first entry has no "timestamp" (or an empty one) | store the current time, as bot/database/database_manager.py:18-22 does | not executed | ValueHistory.AsWrittenFailsWithoutTimestamp | ValueHistory.MissingFieldsDefault |
| bot/update_order_history.py:41 | calls `db_mgr.insert_or_update_order_history`, which `DatabaseManager` does not define, so the first order of every symbol raises and nothing is stored | a symbol whose order request returns one complete order | upsert each order into the symbol's `_order_history` table with `insert_or_update_order` | not executed | OrderHistoryJob.OneNewOrderDiscrepancy | OrderHistoryJob.CompleteOrdersAllStored |
