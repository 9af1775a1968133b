# A verified model of the nemo backtesting kernel

nemo is a deterministic, single-threaded C++ backtesting kernel. This project
models its core in Dafny and proves properties of the model. Each component
gets one module:

- `OrderBook`: the limit order book. It holds price levels with an aggregate
  volume and a FIFO queue each, and handles resting, cancelling, market and
  limit matching, and the depth and statistics views.
- `RiskManager` (with the map-sum helpers in `MapSums`): the six ordered
  pre-trade checks, the post-trade bookkeeping, the daily reset and the
  portfolio statistics.
- `SimClock`: virtual time and a time-ordered queue of scheduled callbacks.
- `EventBus`: subscription handles, synchronous dispatch and the FIFO pending
  queue.
- `TickDataStore` (with the sorting permutation in `IndexSort`): the columnar
  per-instrument tick store.
- `CostModel`: commission structures with their lookup precedence, linear
  slippage and transaction cost.
- `MovingAverage`: the running-sum moving average and the crossover signal
  generator.
- `Backtester`: the long-only trade state machine and its statistics.
- `Strategy`: the SMA crossover strategy, its price modes and the base
  strategy's order bookkeeping.
- `BacktestResults`: win rate, average trade and profit factor.
- `Types`: the shared records (`Order`, `Fill`, `Position`, `MarketDataTick`,
  `Side`).

## How the model is built

Every operation is a pure function, or a method where the source loops,
over immutable datatypes.

**Numbers.**
- The order book, the risk manager, the clock and the tick store use integers.
  Prices are integer ticks, volumes are naturals, and times are integer
  nanoseconds.
- The cost, moving-average, backtester, strategy and result formulas use
  `real`.
- Where the source's integer width decides the behaviour, it is written out:
  - the `int` windows of the moving average (`MovingAverage.Int32`);
  - the unsigned comparison of an index with a signed window
    (`MovingAverage.Threshold`);
  - the unsigned 64-bit position quantity of a strategy (`Strategy.ExecuteOrder`).

**Parameters for what cannot be modelled directly.**
- Wall-clock reads are a `now` parameter.
- Callbacks and handlers are ids.
- A callback or handler that throws a `std::exception` is given by a
  `throws` set or a `failing` set. Other exceptions are not modelled.
- Events that handlers publish while the queue drains are given by a
  `reacts` function.

**The order book is parameterised by a `Mode`.**
- `AsWritten` follows the code. The bid side is walked from its
  `rbegin()`, which on a map ordered by `std::greater` is the lowest bid.
  Matching and cancelling change only the level's aggregate volume, never its
  FIFO queue.
- `Intended` walks bids highest first, pops matched volume from the front of
  the queue and cancels the named order's own volume.
- Every property is stated for the mode in which it holds. The discrepancies
  are listed under Findings.

**Where the documentation and the code disagree, the model follows the code:**
- Linear slippage with no volume information is `base_rate * price`, a
  positive number. The comment at include/execution/cost_model.h:51 says
  slippage is always a cost (`CostModel.ZeroVolumeSlippageIsCredit`).
- `Position::quantity` is unsigned in the strategy code, so a short sale
  wraps around (`Strategy.ShortSaleWrapsAround`). The risk manager's
  positions are modelled as signed, as its comments intend.

**Behaviour of the code as written that a reader may not expect:**
- Crossover signals can give two buys with no sell between them, since a
  signal is raised on every cross and nothing tracks whether a position is
  open (`MovingAverage.BuyCanRepeatWithoutSell`).
- In `profit_factor` a SELL exactly at its entry price takes the loss
  branch and adds 0 to the gross loss, so the gross loss is 0 exactly when
  every SELL gains or breaks even, and the factor is then 0
  (`BacktestResults.NoLossIffEverySellGains`).

## Model

| member | source | states |
|---|---|---|
| OrderBook.LevelAdd | include/execution/order_book.h:20-23 | a level keeps its price when an order joins it; its growth and queue tail are stated by `LevelAddKeepsConsistent` |
| OrderBook.LevelAddKeepsConsistent | include/execution/order_book.h:20-23 | adding grows the aggregate by the volume and appends (id, volume) at the queue tail, leaving earlier entries in place; an aggregate equal to its queue's sum stays equal |
| OrderBook.LevelRemove | include/execution/order_book.h:25-34 | the removed amount never exceeds the request or the aggregate, and the aggregate drops by exactly that amount; as written it is min(requested, total) and the queue is untouched; intended, queue and aggregate stay in step |
| OrderBook.RemoveFromQueue | include/execution/order_book.h:25-34 | cancelling by id takes min(requested, that order's queued volume) and the queue loses exactly that much |
| OrderBook.PopFifo | include/execution/order_book.h:15 | consuming from a FIFO queue uses up the earliest arrivals first and leaves later entries untouched |
| OrderBook.InsertLevel | include/execution/order_book.h:51-57 | resting adds the volume to the side's total and the price to its set of levels |
| OrderBook.InsertKeepsAscending | include/execution/order_book.h:51-57 | resting keeps a side ordered by price |
| OrderBook.InsertVolume | include/execution/order_book.h:51-57 | resting adds the volume at its price and changes no other price |
| OrderBook.RemoveAt | include/execution/order_book.h:60-78 | a price with no level leaves the side unchanged; otherwise no new price appears, at most the request is removed, and the removed amount plus what remains is the old total |
| OrderBook.RemoveVolume | include/execution/order_book.h:60-78 | cancelling changes volume only at its price, by min(requested, resting) as written |
| OrderBook.RemoveKeepsLevels | include/execution/order_book.h:65-67 | a level emptied by cancelling is erased; intended, queues stay in step |
| OrderBook.AddOrder | include/execution/order_book.h:51-57 | an order rests on its own side only: the other side is unchanged, its side's total grows by its quantity and its price becomes a level |
| OrderBook.AddOrderVolume | include/execution/order_book.h:51-57 | resting adds exactly the order's quantity at (side, price), changes no other (side, price) and keeps the book well formed |
| OrderBook.AddOrderKeepsLevels | include/execution/order_book.h:51-57 | resting a positive quantity creates no zero level and keeps queues in step |
| OrderBook.RemoveOrder | include/execution/order_book.h:60-78 | cancelling touches only the named side, never adds a price, and is a no-op for a price with no level |
| OrderBook.RemoveOrderVolume | include/execution/order_book.h:60-78 | cancelling lowers volume only at (side, price), as written by exactly min(requested, resting), and keeps the book well formed |
| OrderBook.RemoveOrderKeepsLevels | include/execution/order_book.h:60-78 | after cancelling no zero level remains; intended, every level still agrees with its queue |
| OrderBook.SweepConserves | include/execution/order_book.h:88-101 | in matching, what is filled plus what is left equals what was asked for, and what is filled is exactly what leaves the contra side |
| OrderBook.SweepFills | include/execution/order_book.h:88-101 | fills follow the walk one level at a time, each at that level's price with the order's id, strategy and side |
| OrderBook.SweepRest | include/execution/order_book.h:88-101 | what survives a sweep is a tail of the walk, price for price |
| OrderBook.SweepStops | include/execution/order_book.h:137 | a sweep that leaves volume unfilled has either used up the walk or stopped at a level beyond the limit |
| OrderBook.SweepKeepsPositive | include/execution/order_book.h:97-101 | on a side without zero levels, matching fills positive amounts and erases every level it empties |
| OrderBook.SweepKeepsConsistent | include/execution/order_book.h:88-101 | in the intended mode matching keeps every level equal to its queue's volume |
| OrderBook.BidWalkLevels | include/execution/order_book.h:105 | the bid walk visits the bid side's levels in some order, with the same volume |
| OrderBook.ExecuteMarketOrder | include/execution/order_book.h:81-127 | a market order never rests: its own side is unchanged; fills follow the contra walk, at most one per level, each at that level's price |
| OrderBook.MarketOrderConservesVolume | include/execution/order_book.h:81-127 | the fills total min(order quantity, contra volume), and the contra side loses exactly that much |
| OrderBook.MarketOrderKeepsShape | include/execution/order_book.h:81-127 | a market order keeps the book well formed and an uncrossed book uncrossed |
| OrderBook.MarketOrderKeepsLevels | include/execution/order_book.h:97-101 | a market order fills only positive amounts and leaves no zero level; intended, queues stay in step |
| OrderBook.ExecuteLimitOrder | include/execution/order_book.h:130-189 | a limit order fills at most its quantity, at most once per contra level, and only at prices within its limit |
| OrderBook.LimitOrderConservesVolume | include/execution/order_book.h:130-189 | what a limit order fills leaves the contra side, and what it does not fill rests on its own side |
| OrderBook.LimitBuyRestsRemainder | include/execution/order_book.h:134-158 | a partly filled limit buy rests its remainder at its limit, after which no ask at or below the limit remains |
| OrderBook.LimitOrderKeepsShape | include/execution/order_book.h:130-189 | a limit order keeps the book well formed |
| OrderBook.LimitOrderKeepsLevels | include/execution/order_book.h:130-189 | a limit order leaves no zero level and, intended, keeps queues in step |
| OrderBook.LimitBuyKeepsBookUncrossed | include/execution/order_book.h:134-158 | in either mode a limit buy leaves an uncrossed book uncrossed |
| OrderBook.IntendedLimitSellKeepsBookUncrossed | include/execution/order_book.h:159-186 | walking bids highest first, a limit sell leaves an uncrossed book uncrossed |
| OrderBook.BestBid | include/execution/order_book.h:192-195 | the best bid is absent exactly when there are no bids, and is a listed bid price: the lowest as written, the highest intended |
| OrderBook.BestAsk | include/execution/order_book.h:198-201 | the best ask is absent exactly when there are no asks, and is the lowest ask |
| OrderBook.Spread | include/execution/order_book.h:204-209 | the spread exists exactly when both sides are non-empty, is best ask minus best bid, and is positive in an uncrossed book |
| OrderBook.MidPrice | include/execution/order_book.h:212-217 | the mid price exists exactly when both sides are non-empty and is equidistant from best bid and best ask |
| OrderBook.GetBids | include/execution/order_book.h:225-235 | `min(levels, bid count)` listed levels, each a bid price with exactly the volume `get_volume_at_price` reports for it; as written they ascend and every unlisted bid lies above all listed ones, intended they descend and every unlisted bid lies below them |
| OrderBook.DepthOfAscending | include/execution/order_book.h:237-247 | listing an ascending side keeps each level's volume and leaves out only prices above every listed one |
| OrderBook.DepthOfDescending | include/execution/order_book.h:225-235 | listing a side from its top keeps each level's volume and leaves out only prices below every listed one |
| OrderBook.BestBidHeadsGetBids | include/execution/order_book.h:192-195 | the first level `get_bids` lists is the best bid |
| OrderBook.MarketSellFollowsGetBids | include/execution/order_book.h:103-124 | a market sell consumes bids in exactly the order `get_bids` lists them |
| OrderBook.IntendedMarketSellWalksDown | include/execution/order_book.h:103-124 | walking bids highest first, a market sell fills first at the best bid and then at strictly falling prices |
| OrderBook.GetAsks | include/execution/order_book.h:237-247 | `min(levels, ask count)` listed ask prices, strictly ascending and starting at the best ask, each with exactly the volume `get_volume_at_price` reports, and every unlisted ask lies above all listed ones |
| OrderBook.GetVolumeAtPrice | include/execution/order_book.h:250-258 | 0 at a price with no level |
| OrderBook.ListedVolumePositive | include/execution/order_book.h:250-258 | without zero levels, every listed price shows positive volume |
| OrderBook.Clear | include/execution/order_book.h:261-264 | after clearing there is no best bid or ask and no volume at any price |
| OrderBook.GetStats | include/execution/order_book.h:276-292 | the level counts and volumes are those of a full `get_bids`/`get_asks` listing; best bid, best ask and spread are those of `best_bid`, `best_ask` and `spread`; a count is 0 exactly when the best price is absent; without zero levels, a side's volume is 0 exactly when it has no level |
| OrderBook.DepthVolumeOfWalk | include/execution/order_book.h:279-287 | a full listing shows exactly the volume of the side it lists |
| OrderBook.AsWrittenMarketSellHitsLowestBid | include/execution/order_book.h:105 | with bids at 99 and 101, a market sell fills first at 99 as written and at 101 intended |
| OrderBook.AsWrittenLimitSellCrossesBook | include/execution/order_book.h:161-185 | as written, a limit sell at 100 against bids at 99 and 101 fills nothing and leaves the book crossed |
| OrderBook.AsWrittenMatchLeavesQueueStale | include/execution/order_book.h:95 | as written, a partial match leaves a level whose aggregate disagrees with its FIFO queue; intended, they agree |
| OrderBook.AsWrittenRemoveIgnoresOrderId | include/execution/order_book.h:25-34 | as written, cancelling order 7 takes volume that belongs to order 1 |
| RiskManager.PruneOld | include/strategy/risk_manager.h:109-112 | timestamps are dropped from the front exactly while they are older than the cutoff; what stays is a suffix starting with one that is not |
| RiskManager.RateCheck | include/strategy/risk_manager.h:105-131 | with rate limiting on, old timestamps are pruned and the stage rejects exactly when the pruned count reaches the per-minute limit (reporting count and limit) or the daily count reaches the daily limit (reporting those); with it off nothing changes and nothing is rejected |
| RiskManager.PositionCheck | include/strategy/risk_manager.h:135-153 | with position limits on, the stage rejects exactly when the absolute position after the order exceeds the limit, reporting that position and the limit; no existing position changes |
| RiskManager.ExposureCheck | include/strategy/risk_manager.h:156-168 | with exposure limits on, the stage rejects exactly when quantity × price exceeds the notional limit, reporting both; nothing but exposures changes |
| RiskManager.LossCheck | include/strategy/risk_manager.h:171-203 | with loss limits on, the stage rejects exactly when the daily PnL is below its limit, the total PnL is below its limit, or a cooldown is still running; the report is the daily values, else the total values, else a cooldown |
| RiskManager.CheckOrder | include/strategy/risk_manager.h:88-206 | the verdict is the first failing check in source order (order size, per-minute rate, daily rate, position, exposure, daily loss, total loss, cooldown) with that check's reported values, or approval when none fails; the limits never change |
| RiskManager.FirstFailureAt | include/strategy/risk_manager.h:88-206 | when check i fails and no earlier one does, the overall verdict is check i's violation |
| RiskManager.CheckOrderApprovesIffPasses | include/strategy/risk_manager.h:88-206 | an order is approved exactly when every enabled check passes |
| RiskManager.OrderSizeCheckedFirst | include/strategy/risk_manager.h:91-102 | with position limits on, an oversized order is rejected for its size before anything else and leaves the state unchanged |
| RiskManager.VerdictDependsOnView | include/strategy/risk_manager.h:88-206 | the verdict depends only on the order's limits, its strategy's rate and PnL data, and its own position |
| RiskManager.StrategyLimitsOverrideGlobal | include/strategy/risk_manager.h:325-328 | a strategy with its own limits is judged by them alone; the global limits do not matter |
| RiskManager.CheckOrderOnlyPrunesAndInserts | include/strategy/risk_manager.h:88-206 | checking changes no existing position, exposure or PnL value; it only prunes its strategy's rate queue and inserts default entries for the order's keys |
| RiskManager.OnOrderSubmitted | include/strategy/risk_manager.h:209-217 | a submission is counted (timestamp queued, daily count up by one) exactly when the global rate switch is on |
| RiskManager.SubmissionIgnoresStrategySwitch | include/strategy/risk_manager.h:212 | with the global switch off, a submission is not counted even when the strategy's own limits enable rate limiting |
| RiskManager.OnFill | include/strategy/risk_manager.h:220-251 | a fill moves its position by ±quantity, adds quantity × price to exposure and the trade PnL to daily and total PnL, and changes no limits or rate data |
| RiskManager.OnFillCooldown | include/strategy/risk_manager.h:243-250 | a cooldown starts exactly when loss limits apply and the trade lost more than 1000 |
| RiskManager.OnFillTouchesOnlyItsKeys | include/strategy/risk_manager.h:220-251 | a fill leaves every other key's position, exposure and PnL alone |
| RiskManager.OppositeFillsCancel | include/strategy/risk_manager.h:227-231 | a fill followed by the opposite fill of the same size restores the position |
| RiskManager.LossTriggersCooldown | include/strategy/risk_manager.h:193-202 | after a fill that lost more than 1000 with loss limits on, the strategy's orders are refused until the cooldown ends |
| RiskManager.OnFillChargesCommission | include/strategy/risk_manager.h:330-334 | a fill's trade PnL is minus its commission |
| RiskManager.ResetDailyCounters | include/strategy/risk_manager.h:254-268 | the reset empties every rate queue and zeroes daily counts and daily PnL; total PnL, cooldowns, positions, exposures and limits are unchanged |
| RiskManager.ResetIsIdempotent | include/strategy/risk_manager.h:254-268 | resetting twice is the same as resetting once |
| RiskManager.ResetClearsRateLimit | include/strategy/risk_manager.h:254-268 | after a reset the rate check passes whenever both rate limits are positive |
| RiskManager.GetPortfolioStats | include/strategy/risk_manager.h:284-312 | the statistics are the sum of total PnL over strategies, the non-negative sum of absolute exposures, the count of non-zero positions, and a maximum drawdown left at its default 0 |
| RiskManager.OnFillMovesPortfolioPnl | include/strategy/risk_manager.h:220-251 | a fill moves the portfolio PnL by exactly minus its commission |
| RiskManager.ResetKeepsPortfolio | include/strategy/risk_manager.h:254-268 | a daily reset leaves every portfolio statistic unchanged |
| SimClock.Insert | include/core/sim_clock.h:49-53 | scheduling adds exactly one entry to the pending multiset |
| SimClock.InsertKeepsSorted | include/core/sim_clock.h:49-53 | the pending queue stays ordered by execution time |
| SimClock.HasPendingEvents | include/core/sim_clock.h:69-73 | the clock has pending events exactly when some entry is pending |
| SimClock.Schedule | include/core/sim_clock.h:49-53 | scheduling adds exactly one pending entry, does not move the time and keeps the queue ordered |
| SimClock.ScheduleDelay | include/core/sim_clock.h:55-58 | a delayed schedule is a schedule at the current time plus the delay |
| SimClock.ProcessDue | include/core/sim_clock.h:85-101 | the fired entries are a prefix of the queue, all due, and what remains starts with one that is not due; a callback that throws a `std::exception` is still removed and the drain goes on |
| SimClock.AdvanceTo | include/core/sim_clock.h:34-42 | advancing fails exactly for an earlier time, and a failure carries no new clock, so time and queue stay as they were; otherwise the clock shows the new time |
| SimClock.AdvanceBy | include/core/sim_clock.h:44-47 | advancing by a non-negative duration moves the clock by exactly that much; a negative one fails |
| SimClock.Reset | include/core/sim_clock.h:60-67 | a reset moves to the given time, even backwards, and leaves nothing pending |
| SimClock.NextEventTime | include/core/sim_clock.h:70-82 | the next time is absent exactly when nothing is pending, and otherwise is the minimum pending time |
| SimClock.AdvanceFiresExactlyTheDue | include/core/sim_clock.h:34-42 | after a successful advance, exactly the entries due by then have run, in time order, and everything later is still pending |
| SimClock.FiredAreSorted | include/core/sim_clock.h:85-101 | callbacks run in non-decreasing execution time |
| SimClock.ThrowingDoesNotStopTheDrain | include/core/sim_clock.h:92-99 | the same callbacks run and the same entries remain, whichever callbacks throw a `std::exception` |
| SimClock.ScheduledCallbackFires | include/core/sim_clock.h:49-53 | a callback scheduled for a time runs on the first advance that reaches it |
| SimClock.SecondAdvanceIsQuiet | include/core/sim_clock.h:34-42 | advancing again to the same time runs nothing |
| EventBus.Empty | include/core/event_bus.h:24 | a new bus has no subscribers and no queued events, and its first handle is 1 |
| EventBus.Subscribe | include/core/event_bus.h:32-48 | a fresh handle, one greater than the last, is appended to the type's list only; other types, the subscribe-all list and the queue are unchanged |
| EventBus.SubscribeAll | include/core/event_bus.h:51-59 | a fresh, increasing handle is appended to the subscribe-all list only |
| EventBus.SubscribeKeepsValid | include/core/event_bus.h:32-48 | handles stay unique and increasing in every list |
| EventBus.Unsubscribe | include/core/event_bus.h:62-84 | an unknown handle changes nothing; otherwise the handle leaves both lists and the queue is unchanged |
| EventBus.UnsubscribeRemovesOnlyIt | include/core/event_bus.h:70-83 | unsubscribing removes exactly that handle and keeps the other subscribers in their order |
| EventBus.Dispatch | include/core/event_bus.h:171-197 | an event calls its type's subscribers in subscription order, then every subscribe-all handler; a call completes exactly when its handler does not throw a `std::exception` |
| EventBus.OtherTypesNotInvoked | include/core/event_bus.h:175-186 | a handler subscribed to another event type is never called |
| EventBus.UnsubscribedNotInvoked | include/core/event_bus.h:62-84 | after unsubscribing, a handle is never called again |
| EventBus.ThrowingDoesNotStopDispatch | include/core/event_bus.h:178-196 | the same handlers are called whichever of them throw a `std::exception` |
| EventBus.Publish | include/core/event_bus.h:87-93 | publishing appends the event to the queue, grows the queue size by one and changes nothing else |
| EventBus.DispatchStep | include/core/event_bus.h:171-197 | dispatching one event makes exactly the dispatch calls, and what the handlers publish joins the queue |
| EventBus.PublishSync | include/core/event_bus.h:96-98 | a synchronous publish calls the event type's subscribers and then the subscribe-all handlers, queues what they publish, and changes nothing else |
| EventBus.PublishSyncIsPublishThenDrain | include/core/event_bus.h:87-141 | on an empty queue, publishing synchronously has the same effect as publishing and then draining the queue |
| EventBus.QueueSize | include/core/event_bus.h:144-147 | the queue size is 0 exactly when nothing is queued |
| EventBus.ProcessPending | include/core/event_bus.h:129-141 | the pending queue is dispatched in FIFO order, and only events published during the drain stay queued |
| EventBus.DrainMatchesReference | include/core/event_bus.h:136-140 | the draining loop makes the same calls as dispatching the events one after another |
| EventBus.PublishedLastDispatchedLast | include/core/event_bus.h:87-141 | an event published last is dispatched last |
| EventBus.ProcessPendingKeepsValid | include/core/event_bus.h:129-141 | draining keeps the subscriptions well formed |
| TickDataStore.AddTick | include/data/tick_data_store.h:80-93 | adding a tick appends one row to every column, so the columns keep equal length, and earlier rows are unchanged |
| TickDataStore.StoreAddTick | include/data/tick_data_store.h:97-100 | the instrument grows by one row, read back last with the instrument filled in; its earlier rows, other instruments and equal column lengths are kept |
| TickDataStore.InstrumentSize | include/data/tick_data_store.h:153-156 | an unknown instrument has size 0 |
| TickDataStore.AddTicks | include/data/tick_data_store.h:102-109 | the instrument grows by the number of ticks, even with no ticks it becomes known, and other instruments are unchanged |
| TickDataStore.AppendTicksRows | include/data/tick_data_store.h:102-109 | appended ticks land after the old rows in their input order |
| TickDataStore.AddTicksReadBack | include/data/tick_data_store.h:102-150 | ticks added in one call are read back at the positions after the old ones |
| TickDataStore.AddTicksKeepsOld | include/data/tick_data_store.h:102-150 | adding ticks leaves the instrument's earlier rows where they were |
| TickDataStore.GetTickAt | include/data/tick_data_store.h:141-150 | a row is absent exactly for an unknown instrument or an index past the end; otherwise it is that row with the instrument filled in |
| TickDataStore.InRangeMembers | include/data/tick_data_store.h:128-135 | a row is returned exactly when it is stored and its time lies in the range |
| TickDataStore.GetTicksRange | include/data/tick_data_store.h:118-138 | an unknown instrument gives no rows; otherwise the rows within the range, in stored order |
| TickDataStore.ClearAll | include/data/tick_data_store.h:171-174 | after clearing every instrument has size 0 |
| TickDataStore.ClearInstrument | include/data/tick_data_store.h:176-181 | clearing empties only that instrument and knows the same instruments as before |
| TickDataStore.ReorderAll | include/data/tick_data_store.h:273-298 | every column is read through the same index vector, so row k becomes old row idx[k] |
| TickDataStore.SortData | include/data/tick_data_store.h:184-198 | after sorting, timestamps are non-decreasing and each row is a whole old row, moved through the sorting permutation |
| TickDataStore.SortByTimestamp | include/data/tick_data_store.h:184-198 | every instrument is sorted and no instrument is added or dropped |
| TickDataStore.SortPermutesRows | include/data/tick_data_store.h:184-198 | sorting permutes the rows: the same ticks, each as many times as before |
| TickDataStore.SortIsIdempotentOnTimes | include/data/tick_data_store.h:184-198 | sorting sorted data changes no timestamp |
| TickDataStore.TimeBounds | include/data/tick_data_store.h:240-252 | the bounds enclose every stored timestamp, each is attained or is a sentinel, and earliest ≤ latest when some tick exists |
| TickDataStore.GetStatistics | include/data/tick_data_store.h:230-255 | the counts are the number of instruments and the sum of sizes; with ticks present, every timestamp lies between earliest and latest |
| IndexSort.SortIndices | include/data/tick_data_store.h:187-194 | the sorting vector is a permutation of 0 .. n-1 that orders the timestamps |
| IndexSort.SortIndicesPermute | include/data/tick_data_store.h:279-283 | reading a column through the sorting vector keeps its elements |
| CostModel.Commission | include/execution/cost_model.h:19-23 | the commission lies within [minimum, maximum] whenever minimum ≤ maximum |
| CostModel.CommissionIsClampedFee | include/execution/cost_model.h:19-23 | the commission is quantity × price × rate + fixed fee inside the bounds, and the nearer bound outside them |
| CostModel.TakerIgnoresMakerRate | include/execution/cost_model.h:20 | a taker's commission does not depend on the maker rate |
| CostModel.MakerIgnoresTakerRate | include/execution/cost_model.h:20 | a maker's commission does not depend on the taker rate |
| CostModel.DefaultTakerFee | include/execution/cost_model.h:12-17 | the default structure charges a taker 0.1% of the notional, for notionals up to 10^9 |
| CostModel.Slippage | include/execution/cost_model.h:41-53 | with a positive average volume, slippage is never positive |
| CostModel.SlippageGrowsWithQuantity | include/execution/cost_model.h:48-52 | with non-negative rates and price, a larger order never slips less |
| CostModel.ZeroVolumeSlippageIsCredit | include/execution/cost_model.h:44-46 | with no volume information, a positive base rate and price give a positive slippage |
| CostModel.MakeCost | include/execution/cost_model.h:118-120 | the total cost is commission plus slippage |
| CostModel.Init | include/execution/cost_model.h:87 | a new model has no commission tables or volumes and uses the default linear slippage |
| CostModel.StructureFor | include/execution/cost_model.h:148-165 | the instrument's structure when it has one, otherwise the exchange's, otherwise the default |
| CostModel.CalculateCommission | include/execution/cost_model.h:148-165 | the commission is priced by the instrument's structure when it has one, else by the exchange's, else by the default structure (then between 0 and 1,000,000), and lies within the chosen structure's bounds |
| CostModel.InstrumentStructureWins | include/execution/cost_model.h:151-154 | an instrument's own structure wins over any exchange structure |
| CostModel.ExchangeStructureFallback | include/execution/cost_model.h:157-160 | without an instrument structure, the exchange's structure prices the trade |
| CostModel.FreshModelUsesDefault | include/execution/cost_model.h:162-164 | a new model prices every trade with the default structure |
| CostModel.CalculateCost | include/execution/cost_model.h:123-139 | an aggressive order pays the taker rate and a passive one the maker rate; slippage is 0 without a slippage model, otherwise it uses the instrument's average volume |
| CostModel.UnknownVolumeSlippageIsCost | include/execution/cost_model.h:133-135 | an instrument with no recorded volume is priced as trading 1,000,000 a day, so it is never credited |
| CostModel.CostIgnoresSide | include/execution/cost_model.h:123-139 | the side of an order never changes its cost |
| CostModel.CalculateFillCost | include/execution/cost_model.h:142-145 | a fill is always priced as a taker at its own quantity and price |
| MovingAverage.Threshold | src/algo/simple_moving_average.cpp:12 | the window is full from a positive index, which is the window itself when the window is positive |
| MovingAverage.CalculateMovingAverage | src/algo/simple_moving_average.cpp:7-22 | one average per bar: the first close at 0, the mean of the closes so far while the window fills, and the sum of the last window closes divided by the window after |
| MovingAverage.TrailingMean | src/algo/simple_moving_average.cpp:10-19 | for a positive window, each average is the mean of the last min(i + 1, window) closes |
| MovingAverage.AverageWithinCloses | src/algo/simple_moving_average.cpp:10-19 | for a positive window, every average lies between the lowest and the highest close |
| MovingAverage.CrossSignals | src/algo/simple_moving_average.cpp:27-35 | one signal per bar, 0 at the first, each in {-1, 0, 1}; 1 exactly at a cross above, -1 exactly at a cross below |
| MovingAverage.GenerateSignals | src/algo/simple_moving_average.cpp:24-36 | the signals are the crossings of the short average over the long one, computed from the closes |
| MovingAverage.NoRepeatOnNextBar | src/algo/simple_moving_average.cpp:28-33 | two buy signals, or two sell signals, never fall on consecutive bars |
| MovingAverage.BuyCanRepeatWithoutSell | src/algo/simple_moving_average.cpp:28-33 | two buy signals can occur with no sell signal between them |
| Backtester.Init | src/metrics/backtester.cpp:6-7 | a new backtester has no trades and a PnL of 0 |
| Backtester.GetPnl | src/metrics/backtester.cpp:46-48 | the final cash is the initial cash plus the PnL |
| Backtester.GetNumTrades | src/metrics/backtester.cpp:50-52 | the trade count is 0 exactly when there are no trades, and then the average trade PnL and the win rate are 0 |
| Backtester.RunSimulation | src/metrics/backtester.cpp:9-44 | a run appends the trades of the long-only state machine over the closes and adds their PnL to the final cash; the PnL stays the sum of trade PnLs |
| Backtester.SimTradesFit | src/metrics/backtester.cpp:13-43 | every trade's PnL is the close at its sell minus the close at its buy, and trades are ordered and disjoint: buy < sell < next buy |
| Backtester.SimClosesAtFirstSell | src/metrics/backtester.cpp:25-42 | a trade closes at the first -1 after it opened |
| Backtester.SimOpensAtFirstBuy | src/metrics/backtester.cpp:14-24 | a trade opens at the first 1 while flat |
| Backtester.UnclosedPositionYieldsNoTrade | src/metrics/backtester.cpp:13-43 | a position still open when the data ends yields no trade |
| Backtester.GetAverageTradePnl | src/metrics/backtester.cpp:54-59 | 0 without trades; otherwise the average times the number of trades is the total trade PnL |
| Backtester.GetWinRate | src/metrics/backtester.cpp:61-66 | the win rate lies in [0, 1] and is 0 without trades |
| Backtester.WinRateOne | src/metrics/backtester.cpp:61-66 | the win rate is 1 exactly when every trade made money |
| Backtester.GetMaxDrawdown | src/metrics/backtester.cpp:68-80 | for a positive initial cash the maximum drawdown is never negative |
| Backtester.NoLosingTradeNoDrawdown | src/metrics/backtester.cpp:68-80 | without a losing trade the maximum drawdown is 0 |
| Strategy.PriceModeFromString | src/strategy/strategy_base_impl.cpp:8-16 | the six known names map to their modes, anything else to CLOSE |
| Strategy.PriceModeRoundTrip | src/strategy/strategy_base_impl.cpp:8-16 | every mode is read back from its own name |
| Strategy.PriceFromColumns | src/strategy/strategy_base_impl.cpp:18-27 | the tick field each mode reads, with the fallback to the last price; OHLC4 counts the bid twice |
| Strategy.ExecuteOrder | src/strategy/strategy_base_impl.cpp:59-73 | an order is recorded under the next id, the trade count grows by one, the average price becomes the order price, and the quantity moves by ±qty modulo 2^64 |
| Strategy.ShortSaleWrapsAround | src/strategy/strategy_base_impl.cpp:69 | selling from a flat position wraps the unsigned quantity to 2^64 − 1 |
| Strategy.Push | src/strategy/strategy_base_impl.cpp:33-34 | the new history is the old one with the price appended, minus only its oldest price when that would exceed `long_period`; it ends with the new price and has length min(old length + 1, `long_period`) |
| Strategy.Decide | src/strategy/strategy_base_impl.cpp:35-44 | with a full history, a buy is decided exactly when no signal is held and the short mean exceeds the long mean, and a sell exactly when a signal is held and the short mean is below the long mean; otherwise, and while the history is short, no order |
| Strategy.OnMarketData | src/strategy/strategy_base_impl.cpp:29-45 | the instrument's stored history is its previous history (empty for a new instrument) pushed with the tick's price, keeping the last `long_period` prices; without a signal an order is placed exactly when the short mean of the new history exceeds the long mean, with a signal exactly when it is below; other instruments are untouched; an order is placed exactly when the signal flag flips |
| Strategy.RisingCloseBuys | src/strategy/strategy_base_impl.cpp:29-44 | with periods 1 and 2, a close of 2.0 after a close of 1.0 and no signal buys one unit at 2.0 |
| Strategy.OnMarketDataKeepsInv | src/strategy/strategy_base_impl.cpp:38-44 | orders for an instrument alternate buy, sell, buy, …, and its unsigned position stays 0 or 1 |
| Strategy.OrdersAlternateFromStart | src/strategy/strategy_base_impl.cpp:29-45 | whatever ticks arrive, a fresh strategy's orders for an instrument start with a buy and alternate, with position 1 right after a buy and 0 otherwise |
| BacktestResults.WinRate | include/core/engine.h:75-77 | 0 without trades, otherwise winning / total, hence in [0, 1] when winning ≤ total |
| BacktestResults.AverageTrade | include/core/engine.h:79-81 | 0 without trades, otherwise the average times the trade count is the total PnL |
| BacktestResults.ProfitFactor | include/core/engine.h:83-101 | the factor is never negative; it is 0 when nothing was lost and otherwise gross profit over gross loss |
| BacktestResults.NoLossIffEverySellGains | include/core/engine.h:89-99 | nothing is lost exactly when no SELL fill is below its entry price |
| BacktestResults.SellWithoutEntry | include/core/engine.h:87-92 | a SELL with no earlier BUY is measured against an entry price of 0 |
| BacktestResults.EntryIsMostRecentBuy | include/core/engine.h:89-98 | a SELL is measured against the most recent BUY before it |

## Left out

- Threads, mutexes and condition variables: the event bus worker thread and its `start`, `stop` and `process_events`; the mutexes of the risk manager, clock and bus; the clock's unlocking around callbacks. The model is single-threaded.
- `MasterClock`: it depends on shared-pointer lifetimes.
- Callbacks and handlers that re-enter the clock or the bus (`schedule`, `advance_to`, `subscribe` or `publish_sync` from inside a handler). Handlers are opaque ids. Only their asynchronous `publish` during `process_pending` is modelled.
- Wall-clock reads: they are a `now` parameter. `std::chrono` durations are integer nanoseconds.
- Logging everywhere, CSV loading and file I/O, the engine run loop, `main.cpp`, the Python bindings, and the EMA/RSI/ATR/ADX strategy in `simple_sma_broad.cpp`. These are I/O, foreign code or floating-point indicators outside the core.
- `SqrtSlippageModel` and the predefined cost models after it: they rest on floating-point `sqrt`.
- `TickDataStore::memory_usage`: it measures vector capacity. `get_ticks`, `get_instruments` and `get_all_ticks` are plain accessors; `Rows` states what `get_all_ticks` returns for one instrument.
- Matching algorithms other than price-time, STOP orders, and the risk limits that no operation reads (portfolio exposure, drawdown, drawdown cooldown). They are declared but never used.
- Floating-point rounding and NaN: `real` arithmetic is exact. The book, the risk manager and fills use integer ticks where the source uses `double` prices.
- Volume wrap-around in the book and the risk manager is not modelled: volumes are unbounded naturals, and risk positions are signed integers as the comments intend.
- The strategy's static order-id counter is shared by all strategies in the source. It is a per-strategy field here.
- The `MeanReversionStrategy` and `MomentumStrategy` stubs and the other `StrategyBase` members are left out: their bodies are empty or only read fields.
- `EventT::type_id()` is not defined by the event types. An event kind is an explicit argument instead.
- RiskManager.PositionCheck: the source stores the position unsigned and casts it to `int64_t` before taking the absolute value. The model uses a signed position throughout, so it does not reproduce a wrap of the unsigned position.
- OrderBook.GetBids: `std::map` keeps one level per price. The model keeps a side as a strictly ordered sequence, so equal-price levels cannot arise.
- SimClock.ProcessDue: the clock catches only `std::exception`. A callback that throws anything else escapes `advance_to` after the time has moved, and the due callbacks after it stay pending. The model's `throws` set means "throws a `std::exception`"; other exceptions are not modelled.
- EventBus.Dispatch: the bus catches only `std::exception`. A handler that throws anything else aborts the dispatch, and inside `process_pending` it also loses the rest of the swapped-out local queue. The model's `failing` set means "throws a `std::exception`"; other exceptions are not modelled.
- Strategy.Decide: it is stated for a history of at most `long_period` prices, which is what `on_market_data` keeps; a longer history cannot arise.
- SimClock.Insert: `std::priority_queue` leaves the order of equal-time callbacks unspecified. The model runs them in scheduling order.
- IndexSort.SortIndices: `std::sort` is not stable. The model's permutation keeps equal timestamps in their stored order, which is one of the orders `std::sort` may produce.
- MovingAverage.CalculateMovingAverage: a window of 0 divides by zero in the source. It is excluded by the precondition.
- Backtester.RunSimulation: the source reads `signals[i]` without a bounds check. The model requires at least as many signals as bars.
- Backtester.GetMaxDrawdown: a non-positive initial cash makes the source divide by a zero or negative peak. The non-negativity is stated for a positive initial cash only.
- Strategy.OnMarketData: a short period of 0, or one above the long period, reads outside the history in the source. The model requires 1 ≤ short ≤ long.
- CostModel.SetCommissionStructure, CostModel.SetInstrumentCommission, CostModel.SetAvgDailyVolume and CostModel.SetSlippageModel are plain map updates. They carry no contract of their own; the lookup lemmas state their effect.

## Findings

| source | as written | input that shows it | evidently intended | confidence | as-written member | corrected member |
|---|---|---|---|---|---|---|
| include/execution/order_book.h:105 | the bid walk starts at `rbegin()` of a map ordered by `std::greater`, i.e. at the lowest bid | bids at 99 and 101; a market sell of 1 | a sell is filled against the highest bid first (101) | high; not executed | OrderBook.AsWrittenMarketSellHitsLowestBid | OrderBook.IntendedMarketSellWalksDown |
| include/execution/order_book.h:161-185 | a limit sell stops at the first bid below its limit, and that is the lowest bid | bids at 99 and 101; a limit sell of 1 at 100 fills nothing and rests an ask at 100 below the bid at 101 | a limit sell fills every bid at or above its limit and leaves the book uncrossed | high; not executed | OrderBook.AsWrittenLimitSellCrossesBook | OrderBook.IntendedLimitSellKeepsBookUncrossed |
| include/execution/order_book.h:95 | matching decrements the aggregate volume but never pops the FIFO queue | one ask of 10 at 101 from order 1; a market buy of 5 leaves aggregate 5 and the queue entry (1, 10) | the queue and the aggregate stay equal | high; not executed | OrderBook.AsWrittenMatchLeavesQueueStale | OrderBook.SweepKeepsConsistent |
| include/execution/order_book.h:25-34 | `remove_order` ignores the order id and takes volume from the aggregate | one ask of 10 at 101 from order 1; cancelling 4 of order 7 leaves 6 | cancelling an order takes only that order's own volume | high; not executed | OrderBook.AsWrittenRemoveIgnoresOrderId | OrderBook.LevelRemove |
