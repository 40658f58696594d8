# A verified model of the trading bot

This project models the decision-making core of the trading bot in Dafny and proves what its design promises about
whole runs: the bar-walk backtester and its metrics, the live order lifecycle against an exchange that may answer
anything, the tick-to-bar aggregator, the indicators and their cache, the extraction of JSON from a language model's
answer, the paper-trading loop with its risk sizing, and walk-forward and sweep expansion.

Prices and money are `real`, timestamps are `int`, tables are maps. Code that loops or updates objects is written as
methods and classes, each proved equal to a specification function; the properties are lemmas about those functions.

| files | component |
|---|---|
| `Costs`, `Engine`, `EngineTheorems`, `TradeContents` | cost model, bar walk, the theorems about its runs, and what each of their trades says |
| `Metrics`, `Exposure`, `MonthlyReturns` | one-pass metrics against their definitions |
| `OrderStates`, `OrdersService`, `Kite` | order store, operator's mark, live broker |
| `OrderLifecycle`, `OrderFailures`, `OrderTriggers`, `OrderEntries`, `OrderSession`, `OrderPolls`, `Flattening`, `StorelessSessions` | the protocol, its invariants and counts over every history, flattening, the objects that run it, and what a poll does with the exchange's rows |
| `LiveFeed` | ticks to bars |
| `JsonScan`, `JsonText`, `JsonExtract` | scanner, RFC 8259 object texts, layered extraction |
| `Indicators`, `IndicatorRows`, `IndicatorCache`, `CachedStrategies`, `SupertrendBands` | indicators, causality, their rows, the cache and runs with it, the band ratchet |
| `Risk`, `Sizing`, `Paper`, `PaperLoop`, `PaperLoopTheorems`, `DailyLossCap` | checks and sizing, paper broker, trading loop, its ledger, and the loss cap over several days |
| `WalkForward`, `Sweep`, `SweepRun` | windows, grid expansion, run accounting |
| `Wrappers`, `Signals` | shared vocabulary |

Statements that turned out not to hold of the code, each with the exact condition, and with a failing input where the
code does meet it on others:

- The exposure metric is the share of bars "spent holding a position", with overlapping bars not counted twice
  (backtest/metrics.py:388-392). A reversal makes two trades share a bar, which is counted twice, and the bars of a
  position still open at the end are not counted. The metric is exact if and only if the two are equal in number
  (`ExposureExactlyWhen`; inputs `HandoverCountedTwice` and `OpenPositionNotCounted`).
- Monthly returns are said to compound to the total return (backtest/metrics.py:483-486). They do if and only if no
  month-end before the last is zero, or the account ends at zero anyway (`MonthsCompoundToTotal`; input `WipedOutRun`).
- FAILED is described as rejected or never filled (execution/order_state.py:10). A record whose entry has been filled, in
  part or in whole, reaches it if and only if a poll sees the entry rejected or cancelled for what was left of it, or
  sees it complete and is not granted the exit trigger, or an operator marks it failed, whether or not the fill was
  noticed; and its id can then be sent again (`FilledEntryFailsExactlyWhen`; inputs `PartFillCanBeResent`,
  `FilledEntryCanFailAndBeResent` and `MarkedEntryCanBeResent`).
- A normal return of `flatten_all` is meant to say that everything is zero (execution/kite.py:339-341). The read it ends
  on says so if and only if that read was answered and prices every row with a quantity
  (`FlattenedIsFlatExactlyWhen`; inputs `FlattenedWithPositionHeld` and `FlattenedWithoutLooking`).
- The scanner is said to return the first balanced object (analyst/_parsing.py:23). It finds none if and only if no
  brace opens outside a string or the first that does is never closed, even if a balanced object follows
  (`NothingFoundExactlyWhen`; input `UnclosedBraceHidesObject`). It finds a given object text where it stands if and only
  if the prose before it opens no brace and leaves no string open (`PrintedFoundExactlyWhen`; input
  `StrayQuoteHidesObject`). The extractor returns a leading object alone if and only if what follows does not itself end
  in a closing brace (`LeadingObjectExtractedExactlyWhen`).
- One strategy object is reused on different frames by walk-forward (backtest/walk_forward.py:128-132), where its cache
  can hand out another frame's values (input `AnotherFramesValueServed`). Reuse is right if and only if the cache cannot
  serve or the rows of both frames agree (`ReuseIsAgreement`): for the EMA, all closes (`EmaReuseRightExactlyWhen`); for
  the ATR, all true ranges (`AtrReuseRightExactlyWhen`).
- The window splitter does not check its step; it stops if and only if the step is at least one or no window fits
  (`SplitWindows`, `NeverStopsOtherwise`).
- The figure that the daily cap reads is realized plus unrealized profit "for the current trading day"
  (risk/manager.py:32), but never starts afresh. After any bar it is what that day's own bars have moved the account if
  and only if it stood at zero when the day began (`MtmRightExactlyWhen`; inputs `YesterdaysLossBlocksToday`, realized,
  and `YesterdaysMarkBlocksToday`, held over night). Its realized half is the day's own if and only if the other days
  cancel out to zero (`RealizedRightExactlyWhen`), and a flat book that has breached the cap never trades again
  (`BreachedForGood`).
- The exit price of a triggered exit is documented as the order book's average, then the leg's own price, then the stop
  (execution/kite.py:757-766). The code tries the average that the trigger itself reports before the leg's price, and
  takes the last row of the book that carries the order's id (`ExitsExactlyWhen`).
- The expiry-day rule rejects nothing in the loop, which never marks its own risk state as an expiry day: on no bar of
  any run, whatever the clock says (`ExpiryRuleNeverApplies`).

## Model

| member | source | states |
|---|---|---|
| Costs.NetOfBothLegs | backtest/costs.py:62-70 | commission on both legs equals charging each leg's fill on its own: sale proceeds less purchase cost, times quantity |
| Costs.PnlFallsWithCost | backtest/costs.py:41-70 | for positive quotes and a non-negative quantity, a componentwise dearer cost model never raises a round trip's net profit, long or short |
| Engine.CheckExit | backtest/engine.py:294-327 | a position survives a bar exactly if neither level is touched; otherwise its trade is booked on that bar at the stop if the stop is touched at all, else at the target, with slippage |
| Engine.Run | backtest/engine.py:163-223 | the loop over its locals computes exactly the books, equity curve and summary of the specification's bar-by-bar state |
| EngineTheorems.PendingIsLastSignal | backtest/engine.py:167-210 | on every run, what is pending is the accepted signal of the bar just before and nothing older; an open position was filled on an earlier bar |
| EngineTheorems.ExitFrom | backtest/engine.py:294-327 | independent definition: the trade of a position is the one of the first bar that ends it, and none if no bar does |
| EngineTheorems.TradeByTrade | backtest/engine.py:163-213 | the stateful walk closes exactly the trades worked out one signal at a time, in signal order |
| EngineTheorems.BarAppends | backtest/engine.py:176-213 | a bar only appends to the books: trades exiting on that bar, realized profit up by their sum, one equity point |
| EngineTheorems.LedgerBalances | backtest/engine.py:211-213 | the equity point of every bar is the summed profit of the trades closed by that bar |
| EngineTheorems.LastPointIsTotal | backtest/engine.py:211-215 | one point per bar, and the last equals the summary's total profit |
| EngineTheorems.NoLookahead | core/context.py:21-24 | for a strategy that reads closed bars only, a run on the first n bars gives the first n equity points and exactly the full run's trades that exit before bar n |
| EngineTheorems.TradesInOrder | backtest/engine.py:261-291 | at every bar of every run: 1 <= entry <= exit, next entry >= previous exit, equal exactly when the previous was reversed out |
| EngineTheorems.DearerCostsNeverHelp | backtest/engine.py:330-357 | two runs differing only in cost models c1 <= c2: same trades on the same bars for the same reasons, every profit and every equity point no better under c2 |
| TradeContents.EveryTradeAccounted | backtest/engine.py:261-357 | after every bar of every run, on each closed trade's own fields: it was opened by the first signal of an earlier bar, on the bar after, with the signal's own quantity or else the default, at the open plus slippage; fees are the rate on both fills; profit is the price move its way times quantity, less the fees |
| TradeContents.SummaryAddsUp | backtest/engine.py:360-369 | the summary counts the trades, those that made money and those that lost some, and adds up their profits |
| Metrics.MaxDrawdown | backtest/metrics.py:236-255 | the one-pass result is the largest fall between any two ordered bars, and the percentage is the one at the first deepest bar |
| Metrics.DeepestIsLargestFall | backtest/metrics.py:236-255 | the deepest drop below the running peak equals the maximum of v[i] - v[j] over i <= j |
| Metrics.DrawdownSeries | backtest/metrics.py:424-439 | one entry per value, each minus the percentage below the running peak, never positive |
| Metrics.DrawdownOfCurve | backtest/metrics.py:168-176 | on the curve itself: the drawdown is the largest loss of profit between two ordered bars whatever the capital, the percentage is of the portfolio's value, capital included, at a peak it was lost from |
| Metrics.ReportedPctIsWorstExactlyWhen | backtest/metrics.py:236-255 | what the two metrics return: the reported percentage is one underwater entry, and the worst one if and only if the deepest bar in money is also the deepest in proportion |
| Metrics.ReportedPctCanUnderstate | backtest/metrics.py:236-255 | it can be strictly smaller: a concrete curve with 10% reported and 50% on the curve |
| Metrics.LongestDrawdownBars | backtest/metrics.py:442-462 | the result is the longest stretch of consecutive bars strictly below the running peak |
| Metrics.MaxConsecutive | backtest/metrics.py:408-421 | the result is the longest stretch of consecutive winning, or losing, trades |
| Metrics.StreakOfTrades | backtest/metrics.py:408-421 | on the trades: there is a streak of that length in which every trade made money, or every one lost some, and no longer one |
| Metrics.GrossNext | backtest/metrics.py:280-281 | gross profit adds up the trades that made money, gross loss, without its sign, those that lost some |
| Metrics.ExpectancyIsProfitPerTrade | backtest/metrics.py:287-298 | expectancy times trade count = gross profit - gross loss = the summary's total profit |
| Exposure.HeldCountsHandoversTwice | backtest/metrics.py:396-396 | the summed holding times are the bars the closed trades cover, plus one more per reversal followed by another closed trade |
| Exposure.CoveredIsHeld | backtest/engine.py:163-213 | at any moment of any run, the books and the open position account for exactly the bars on which the engine held a position |
| Exposure.HeldIsCoveredPlusTail | backtest/engine.py:163-213 | on every run the bars held are those the closed trades cover plus those of a position left open at the end |
| Exposure.ExposureExactlyWhen | backtest/metrics.py:387-397 | on every run the reported share is the true share of bars held if and only if the handovers equal the bars of the position left open |
| Exposure.HandoverCountedTwice | backtest/metrics.py:390-392 | a three-bar run with 2 bars held and 100% reported |
| Exposure.OpenPositionNotCounted | backtest/metrics.py:388-396 | a four-bar run with 3 bars held, no handover, and 25% reported |
| MonthlyReturns.MonthlyReturns | backtest/metrics.py:488-511 | one entry per month of the curve, in order, each the return of its month-end value on the previous one |
| MonthlyReturns.EachMonthIs | backtest/metrics.py:488-511 | each entry on the curve itself: the percentage from the value at the last point of the month before, or the initial capital, to that at the last point of its own month; 0 where that started from nothing |
| MonthlyReturns.ReturnsCompound | backtest/metrics.py:497-510 | the series compounds to last over first if and only if no earlier value is zero or the last one is |
| MonthlyReturns.MonthsCompoundToTotal | backtest/metrics.py:481-486 | for a chronological curve, the reported series compounds to final value over initial capital under exactly that condition |
| MonthlyReturns.WipedOutRun | backtest/metrics.py:483-486 | a three-bar run over two months whose reported returns do not compound to its total |
| OrderStates.OrderStateStore.Upsert | execution/order_state.py:145-163 | one row inserted or replaced, every other row unchanged |
| OrderStates.OrderStateStore.Get | execution/order_state.py:165-175 | the stored row of the id, or none |
| OrderStates.OrderStateStore.ListOpen | execution/order_state.py:177-187 | exactly the PENDING_ENTRY and ENTERED rows, each once, oldest first |
| OrdersService.OrdersService.Mark | dashboard/services/orders.py:112-159 | only open records are flipped, only to FAILED or CANCELLED; each refusal is exactly characterised and changes nothing |
| Kite.KiteBroker.PlaceBracketOrder | execution/kite.py:145-247 | each refusal leaves store, memory and exchange untouched; otherwise exactly one entry is sent, and a pending record stored exactly when it is accepted, each of its fields being the signal's, the quantity sent, the exchange's id or the time |
| Kite.KiteBroker.AdvanceRecord | execution/kite.py:419-539 | one record's poll: the stored row is stepped (how: OrderPolls.EntersExactlyWhen, OrderPolls.ExitsExactlyWhen), at most one trigger is sent, nothing else changes |
| Kite.KiteBroker.PollAndAdvance | execution/kite.py:249-297 | every open row is stepped once against one snapshot (how: OrderPolls.EntersExactlyWhen, OrderPolls.ExitsExactlyWhen); no order book, no change; an unreadable trigger list counts as empty |
| Kite.KiteBroker.CancelTracked | execution/kite.py:348-353 | every entered record with a trigger is cancelled and its trigger deletion sent; other rows unchanged |
| Kite.KiteBroker.Confirm | execution/kite.py:358-382 | reads up to and including the first of ten that leaves nothing open, or else one final read, and reports accordingly |
| Kite.KiteBroker.FlattenAll | execution/kite.py:336-382 | the new rows, the calls sent in order, the verdict, and the number of reads: at most one, ten and one (how many: Flattening.FlattenedExactlyWhen) |
| OrderLifecycle.StepFollowsEdges | execution/kite.py:293-297 | one step of any kind moves a record along at most one edge of the state machine, each edge only by its own operation, keeping its identity |
| OrderLifecycle.ExitedForGood | execution/kite.py:541-548 | an EXITED record is never changed again by anything |
| OrderLifecycle.StepKeepsSound | execution/kite.py:419-539 | the record invariant survives every step, whatever the exchange answers |
| OrderLifecycle.AlwaysSound | execution/kite.py:471-532 | over every history: ENTERED has trigger id and fill price and its trigger was sent; EXITED has pnl = (exit - fill) * qty * sign; fill and exit prices are positive |
| OrderLifecycle.ExitPricePositive | execution/kite.py:752-796 | whatever the exchange reports about a triggered exit, zeros and gaps included, the price taken is positive |
| OrderLifecycle.StepAccepts | execution/kite.py:164-247 | a step adds an accepted entry for an id exactly when its record comes alive |
| OrderLifecycle.EntriesMatchDeaths | execution/kite.py:541-571 | over every history, restarts included: accepted entries of an id = times its record failed or was cancelled, plus one if alive |
| OrderLifecycle.PlacingLiveIsNoOp | execution/kite.py:164-179 | placing an id that is pending, entered or exited leaves store and exchange unchanged |
| OrderLifecycle.OcoPayloadSound | execution/kite.py:626-732 | triggers ascending, legs on the closing side for the whole quantity at stop (market) and target (limit), for both sides |
| OrderFailures.PendingFailsExactlyWhen | execution/kite.py:419-522 | a poll takes a record to FAILED if and only if it is pending and its entry was rejected or cancelled, or filled with the trigger not granted |
| OrderFailures.StepFailsExactlyWhen | execution/kite.py:419-522 | over every kind of step: a record goes to FAILED if and only if a poll sees one of those, or an operator marks it so while open |
| OrderFailures.FilledEntryFailsExactlyWhen | execution/order_state.py:8-11 | over every kind of step: a record whose entry has been filled at least in part, as the broker or the exchange's book knows, goes to FAILED if and only if a poll sees it rejected or cancelled, or complete with the trigger not granted, or an operator marks it failed |
| OrderFailures.UnnoticedFillStaysFailed | dashboard/services/orders.py:133-152 | a fill marked failed before a poll notices is not noticed by any later poll against that book |
| OrderFailures.MarkFailsFilledEntry | dashboard/services/orders.py:133-152 | the mark leaves the fill price on the failed record, sends nothing, leaves the granted trigger, and frees the id |
| OrderFailures.FilledEntryCanFailAndBeResent | execution/order_state.py:8-11 | a history in which a filled entry fails at its trigger and its id is accepted a second time |
| OrderFailures.MarkedEntryCanBeResent | dashboard/services/orders.py:133-152 | a history in which an entered record is marked failed and its id accepted again, the first trigger never deleted |
| OrderFailures.PartFillCanBeResent | execution/kite.py:434-442 | a history in which an entry bought in part and cancelled fails without any exit trigger and its id is accepted again |
| OrderTriggers.StepGrants | execution/kite.py:494-539 | a step is granted a trigger for an id exactly when its record takes one up |
| OrderTriggers.LetsGoOnlyBy | execution/kite.py:346-353 | a record lets go of its trigger only by a flatten or an operator's mark |
| OrderTriggers.EveryTriggerAccountedFor | execution/kite.py:494-539 | over every history, triggers granted for an id = held by its record now + cancelled by flattens + dropped by marks |
| OrderTriggers.MarkSendsNothing | dashboard/services/orders.py:133-152 | a mark that drops a trigger sends nothing to the exchange and frees the id |
| OrderEntries.AcceptedPlacement | execution/kite.py:181-232 | an accepted placement sends exactly one entry, of the signal's side and price and the given quantity, and adds exactly one row, every field of it the signal's, that quantity, the exchange's id or the time |
| OrderEntries.RefusedPlacement | execution/kite.py:156-214 | in every other case no row changes, and at most one refused entry is sent |
| OrderEntries.StepKeepsMatched | execution/kite.py:217-232 | every step keeps each record that of the last accepted entry of its id, and each trigger asked for closing the last accepted entry before it |
| OrderEntries.AlwaysMatched | execution/kite.py:639-688 | over every history: each record has the side, quantity and price of the last entry accepted for its id; each trigger ever asked for trades, on either leg, exactly the quantity of the last accepted entry before it, the other way, around its price |
| OrderSession.Perform | execution/kite.py:98-139 | each operation on the broker, store and service objects is its own step of the protocol; a poll is one exactly if the order book was answered, the trigger list raised no other error, and a row is open |
| OrderSession.Operate | execution/kite.py:145-382 | any sequence of operations on the objects ends in the world of its own history: sound, with entries matching deaths, every trigger accounted for, and every record and trigger matched to its accepted entry |
| OrderPolls.ExitsExactlyWhen | execution/kite.py:449-484 | over every operation: an entered record exits if and only if it is a poll that got the order book and the trigger list, and the last row of that list carrying its trigger's id says triggered; exit price in the code's order of preference on the rows answered, profit as the price move its way times quantity; otherwise a poll leaves it as it is |
| OrderPolls.EntersExactlyWhen | execution/kite.py:419-447 | over every operation: a pending record enters if and only if it is a poll whose last row of its order says complete and whose trigger is granted, at that row's average price or else the entry price, with the id granted; a poll fails it exactly on a last row rejected, cancelled, or complete without a trigger, and says which; otherwise leaves it as it is |
| OrderPolls.PendingMoves | execution/kite.py:494-539 | and exactly on a last row saying complete one trigger is asked for: at the fill price, both legs for the whole quantity on the other side |
| OrderPolls.EnteredMoves | execution/kite.py:467-484 | for an entered record a poll sends nothing; it exits exactly when its trigger went off |
| OrderPolls.ExitPriceIs | execution/kite.py:752-795 | the order book's average, else the trigger's own, else the price it went off at, else the stop; what is not positive does not count |
| OrderPolls.EnteredIsProtected | execution/kite.py:626-732 | an entered or exited record's own trigger was asked for at its fill price, both legs for its whole quantity on the other side, the stop at market and the target at its limit |
| OrderPolls.OrderLookup | execution/kite.py:290-290 | the lookup by order id gives the last row that carries it, and nothing exactly when none does |
| OrderPolls.TriggerLookup | execution/kite.py:291-291 | the lookup by trigger id gives the last row that carries it, and nothing exactly when none does |
| Flattening.FlattenedIsFlatExactlyWhen | execution/kite.py:336-345 | after a normal return, the read it ended on shows every quantity zero if and only if it was answered and prices every row that has one |
| Flattening.FlattenedExactlyWhen | execution/kite.py:358-382 | it returns normally exactly when one of ten confirmation reads, or failing these a final answered one, leaves nothing open, and never reads again after such a read |
| Flattening.OpenPositionsExactly | execution/kite.py:306-334 | the positions it works with are the tracked rows in order, each with its symbol, side, quantity without the sign, and average price |
| Flattening.IncompleteListsTheRest | execution/kite.py:358-382 | an incomplete flatten lists something; every read was answered and found something, and closing what is listed would neutralise the final read |
| Flattening.NothingOpenExactlyWhen | execution/kite.py:310-318 | a read leaves nothing open if and only if it failed or every row lacks a quantity or a positive average price |
| Flattening.FlattenedWithPositionHeld | execution/kite.py:315-317 | so a flatten can return normally, having sent nothing, with a position held |
| Flattening.FlattenedWithoutLooking | execution/kite.py:359-366 | and it returns normally when every later read fails |
| Flattening.SquareOffNeutralises | execution/kite.py:384-400 | the square-off orders trade exactly minus the tracked net quantity of every symbol |
| Flattening.SquareOffQuantities | execution/kite.py:384-400 | each square-off trades a positive quantity |
| Flattening.FlattenLeavesNoneEntered | execution/kite.py:346-353 | a flatten of any sound world leaves no record entered: each that was is CANCELLED with its own trigger's deletion sent, all others are untouched |
| Flattening.DeletesTheirTriggers | execution/kite.py:349-353 | each of their triggers is asked to be deleted |
| StorelessSessions.OncePerSession | execution/kite.py:549-571 | without a store an id is accepted at most once per session |
| StorelessSessions.Operate | execution/kite.py:541-571 | a broker without a store, rebuilt on every restart, ends in the session of its own history |
| LiveFeed.BucketIsFloor | data/live_feed.py:92-96 | for the supported widths the bucket is the multiple of the width whose interval holds the tick |
| LiveFeed.BucketMonotone | data/live_feed.py:92-96 | a later tick is never in an earlier bucket |
| LiveFeed.LiveKiteFeed.HandleTick | data/live_feed.py:272-330 | after every tick taken, each symbol's completed bars followed by its open bucket are the bars of the maximal runs of its accepted ticks; it raises, changing nothing, exactly on closing a bucket of negative volume |
| LiveFeed.LiveKiteFeed.IngestTicks | data/live_feed.py:249-270 | a batch keeps that up to the first tick that raises, and returns exactly the bars it closed; without negative volumes nothing raises |
| LiveFeed.AbsorbMatches | data/live_feed.py:294-330 | opening, extending or closing a bucket for one tick follows the cut into runs |
| LiveFeed.RunsAreRuns | data/live_feed.py:294-330 | the runs are non-empty, one bucket each, neighbours differ, and put together they are the ticks |
| LiveFeed.RunsAreUnique | data/live_feed.py:294-330 | there is only one such cut |
| LiveFeed.BarBoundsRun | data/live_feed.py:294-330 | high and low bound every price of the run and are reached in it |
| LiveFeed.RunBarValidExactlyWhen | core/bar.py:9-32 | the bar of a run of accepted ticks passes the bar model's validators if and only if its final volume is not negative |
| LiveFeed.BarValidExactlyWhen | core/bar.py:9-32 | so it is for every bar built from whatever ticks; all are valid unless a tick reports a negative cumulative volume |
| LiveFeed.LiveKiteFeed.NeverRaises | data/live_feed.py:307-309 | a feed that has seen no negative volume raises on no tick |
| LiveFeed.VolumeConserved | data/live_feed.py:294-330 | with a quantity on every tick, total bar volume is total traded quantity |
| LiveFeed.VolumeSinceStated | data/live_feed.py:301-329 | after a tick that only states the day's cumulative volume, a run's volume is what that one stated plus the quantities traded since, whatever came before |
| LiveFeed.VolumeOfQuantities | data/live_feed.py:301-327 | without such a tick it is all the quantities traded |
| LiveFeed.StartsIncreaseExactlyWhen | data/live_feed.py:294-330 | bar starts strictly increase if and only if ticks never fall back into an earlier bucket |
| LiveFeed.TimeOrderGivesBucketOrder | data/live_feed.py:249-330 | ticks in time order never do |
| JsonScan.FindFirstBalancedObject | analyst/_parsing.py:22-57 | what is returned is the first unquoted brace up to where it is first closed; nothing is returned only if there is no such span |
| JsonScan.FirstObjectUnique | analyst/_parsing.py:22-57 | a text has at most one such span |
| JsonScan.NothingFoundExactlyWhen | analyst/_parsing.py:22-57 | nothing is found if and only if no brace opens outside a string or the first one that does is never closed |
| JsonText.StringIsNeutral | analyst/_parsing.py:36-46 | a string literal with any escapes leaves quoting state and brace count as they were |
| JsonText.ValueIsNeutral | analyst/_parsing.py:35-56 | so does every printed JSON value, of any shape and depth |
| JsonText.PrintedFoundExactlyWhen | analyst/_parsing.py:22-57 | between any two texts, the scanner finds exactly the printed object, of any shape and depth, if and only if the text before it opens no brace and leaves no string open |
| JsonText.ScanFindsPrinted | analyst/_parsing.py:22-57 | so after such commentary and before any suffix it returns exactly the printed object |
| JsonText.CalmThenString | analyst/_parsing.py:35-46 | commentary may quote any string literal, braces included |
| JsonText.StrayQuoteHidesObject | analyst/_parsing.py:44-46 | a text whose stray quote makes the scanner pass over an object and return a later one |
| JsonText.UnclosedBraceHidesObject | analyst/_parsing.py:23-23 | a text containing a balanced object for which the scanner finds none |
| JsonExtract.ExtractJsonObject | analyst/_parsing.py:60-95 | the method computes the layered specification, error cases included |
| JsonExtract.JoinOfSplit | analyst/_parsing.py:15-19 | joining the lines of a text gives the text back |
| JsonExtract.FencedObjectExtracted | analyst/_parsing.py:11-19 | an object in a code fence, with or without a language tag and surrounding space, comes out exactly |
| JsonExtract.OpenFencedObjectExtracted | analyst/_parsing.py:11-19 | so does an object in a fence that is never closed |
| JsonExtract.StripExactly | analyst/_parsing.py:81-81 | what stripping leaves is the text without white space at both ends and nothing else |
| JsonExtract.EmbeddedObjectExtracted | analyst/_parsing.py:60-95 | an object after commentary comes out exactly, whatever follows it |
| JsonExtract.LeadingObjectExtractedExactlyWhen | analyst/_parsing.py:89-93 | an object at the start comes out alone if and only if the stripped tail does not end in a closing brace |
| Indicators.WilderRma | indicators/builtin/rsi.py:8-21 | the loop fills every entry with the seeded Wilder recurrence, unset before the seed |
| Indicators.ComputeSupertrend | indicators/builtin/supertrend.py:39-78 | the array loop fills all four arrays with the band recurrence |
| Indicators.RowCausal | indicators/builtin/atr.py:19-35 | EMA, ATR, RSI and Supertrend: the value on a bar is the same on any two frames that agree through that bar |
| Indicators.PrefixComputes | indicators/builtin/ema.py:19-20 | computing on a prefix of the frame is the prefix of computing on the frame |
| Indicators.EmaWithinCloses | indicators/builtin/ema.py:19-20 | the EMA of a bar lies between any bounds on the closes so far |
| IndicatorRows.EmaRows | indicators/builtin/ema.py:19-20 | on the rows computed: the first is the first close, and (span + 1) * row = 2 * close + (span - 1) * previous row |
| IndicatorRows.AtrRows | indicators/builtin/atr.py:19-35 | on the rows computed: the first is a true range, and period * row = true range + (period - 1) * previous row; a true range is at least each of the three distances and equals one of them |
| IndicatorRows.AverageRows | indicators/builtin/rsi.py:8-21 | the averages of gains and losses: unset before the seed, the mean of the first moves there, and period * row = move + (period - 1) * previous row after it |
| IndicatorRows.RsiRows | indicators/builtin/rsi.py:35-48 | rsi * (gain + loss) = 100 * gain, and 50 where nothing moved |
| IndicatorRows.BasicBands | indicators/builtin/supertrend.py:33-37 | the basic bands lie the multiplier times the ATR above and below the bar's middle |
| IndicatorRows.FirstBand | indicators/builtin/supertrend.py:39-47 | the first bar starts upwards, on its basic bands |
| Indicators.RsiInRange | indicators/builtin/rsi.py:35-48 | the RSI lies in 0..100, above 50 exactly when average gain exceeds average loss, unset exactly when an average is |
| Indicators.BandsNeverCross | indicators/builtin/supertrend.py:33-37 | with high >= low on every bar, the basic bands enclose the bar's midpoint |
| IndicatorCache.ComputeIndicators | strategies/base.py:13-41 | the loop returns, and leaves in the cache, exactly the specified series; without a cache all are fresh |
| IndicatorCache.ServedPrefixIsFresh | strategies/base.py:30-41 | a served series starts with exactly the uncached series of the closed bars |
| IndicatorCache.CacheIsInvisible | strategies/base.py:30-41 | after any session of calls on one frame, for bars in any order, the rows up to the bar asked about are exactly the uncached ones |
| IndicatorCache.WholeSeriesFreshExactlyWhen | strategies/base.py:34-40 | the whole served series is the uncached one if and only if no earlier request asked for that indicator on a later bar |
| IndicatorCache.FilledIsServed | strategies/base.py:32-41 | what a call leaves in the cache is what was served from it at the start, whatever else the call asks for |
| CachedStrategies.DecisionIsOnClosedBars | strategies/base.py:59-77 | whatever the cache went through, a decision on served rows up to the bar is one on the closed bars |
| CachedStrategies.CachedStrategyReadsOnlyClosedBars | core/context.py:21-24 | a strategy that decides on rows served from the cache reads closed bars only |
| CachedStrategies.CachedRunHasNoLookahead | backtest/engine.py:163-213 | so a backtest with it on the first n bars is the beginning of the full run |
| IndicatorCache.ReuseSafeWhen | backtest/walk_forward.py:128-132 | on another frame the cache is right for every indicator if it is too short to serve or the frames agree through the bar |
| IndicatorCache.ReuseIsAgreement | backtest/walk_forward.py:128-132 | for every indicator: right on another frame if and only if it cannot serve or the indicator's rows agree through the bar |
| IndicatorCache.EmaReuseRightExactlyWhen | backtest/walk_forward.py:128-132 | for the EMA: right on another frame if and only if it cannot serve or all closes agree |
| IndicatorCache.AtrReuseRightExactlyWhen | backtest/walk_forward.py:128-132 | for the ATR: right on another frame if and only if it cannot serve or all true ranges agree |
| IndicatorCache.AnotherFramesValueServed | backtest/walk_forward.py:128-132 | two one-bar frames on which 100 is served where 250 is right |
| SupertrendBands.LowerBandClosedForm | indicators/builtin/supertrend.py:48-58 | each lower band is the highest basic lower band since the last close at or below the band |
| SupertrendBands.UpperBandClosedForm | indicators/builtin/supertrend.py:48-58 | dually, the lowest basic upper band since the last close at or above it |
| SupertrendBands.ResetUnique | indicators/builtin/supertrend.py:48-58 | that reset bar is determined |
| SupertrendBands.DirectionFlipsExactly | indicators/builtin/supertrend.py:59-68 | direction is +1 or -1 and flips exactly on a close beyond the previous opposite band; the line is the band it points to |
| Risk.SizeBounds | risk/manager.py:151-187 | a size is non-negative, a whole number of lots, at most the budgeted base quantity |
| Risk.SizeMonotone | risk/manager.py:178-187 | a larger analyst multiplier never gives a smaller size |
| Sizing.BaseIs | risk/manager.py:243-251 | the base quantity is the largest with stop distance * quantity within the risk budget (atr_based), or entry * quantity within the notional (fixed_pct) |
| Sizing.SizeExactly | risk/manager.py:178-187 | with that base and the multiplier cut to 0..1: the size is a multiple of the lot, and size <= base * cut < size + lot |
| Sizing.SizeAtTheEnds | risk/manager.py:182-187 | so it is 0 for a multiplier at or below 0, and the whole lots of the base at or above 1 |
| Sizing.LotsUnique | risk/manager.py:186-187 | there is only one such size |
| Sizing.BaseUnique | risk/manager.py:243-251 | and only one such base |
| Sizing.CapExactly | orchestrator/loop.py:235-249 | the override leaves the most whole lots within it and the size, nothing if it is not positive, and the size if there is none |
| Sizing.PreCheckExactly | risk/manager.py:126-149 | each verdict of the pre-check exactly when its own reason holds and none before it |
| Sizing.PostCheckExactly | risk/manager.py:214-241 | approved exactly for a positive quantity within 1.01 of the risk cap and, for options, the premium cap; each rejection exactly characterised |
| Risk.AtrSizeWithinCap | risk/manager.py:243-251 | in atr_based mode stop distance times size is within the cap itself |
| Risk.AtrNeverExceedsCap | risk/manager.py:222-229 | so after atr_based sizing the exceeded-cap rejection is unreachable |
| Risk.FixedPctCanExceedCap | risk/manager.py:246-250 | in fixed_pct mode it is reachable, on a concrete signal |
| Risk.SubmittedOrderSafe | orchestrator/loop.py:176-208 | every submitted quantity: at least one, whole lots, within the override, within 1.01 of the risk cap, and within the premium cap for options |
| Paper.PaperBroker.PlaceBracketOrder | execution/paper.py:61-120 | fills exactly when the quantity is positive and the symbol is not held; the new position and order are then appended, and nothing else changes |
| Paper.FillCostsSlippage | execution/paper.py:196-200 | marked at its quoted entry a fresh position has lost exactly the slippage share of its notional, on either side |
| Paper.PnlIsPriceMove | execution/paper.py:128-140 | the profit of a position is its quantity times what the price moved its way, and nothing at its entry price |
| Paper.StopLosesTargetEarnsExactlyWhen | execution/paper.py:128-136 | a stop exit always loses; a target exit earns if and only if the target lies further away than the slippage |
| Paper.ExitsAtTheWorstLevel | execution/paper.py:182-194 | a bar takes a position out if and only if it reaches a level, and at the least profitable of those it reaches |
| Paper.PaperBroker.ClosePosition | execution/paper.py:128-140 | the held position goes, its profit is booked once on equity and on realized profit; an unheld symbol changes nothing |
| Paper.PaperBroker.CheckBarExits | execution/paper.py:166-194 | the exit level of the held position, stop before target, and none if nothing is held |
| Paper.PaperBroker.MarkToMarket | execution/paper.py:142-164 | the summed profit of all quoted positions |
| PaperLoop.SweepStep | orchestrator/loop.py:108-119 | sweeping a snapshot of positions while closing them: the next one is still where it was, and one per symbol remains |
| PaperLoop.KeptOrExited | orchestrator/loop.py:108-119 | every position is either kept or counted as an exit |
| PaperLoop.OrchestratorLoop.SweepExits | orchestrator/loop.py:102-121 | the sweep and the marking leave exactly the specified state |
| PaperLoop.OrchestratorLoop.ProcessSignal | orchestrator/loop.py:149-213 | pre-check, analyst, sizing, post-check, cap and order leave exactly the specified state |
| PaperLoop.OrchestratorLoop.Run | orchestrator/loop.py:69-147 | the loop over the bars computes the bar-by-bar state |
| PaperLoopTheorems.SubmittedIsSafe | orchestrator/loop.py:176-208 | whatever the loop submits is a safe quantity, approved and not vetoed, and the one that budget, verdict, lot and override come to: the whole lots of base times the verdict's cut multiplier, capped |
| PaperLoopTheorems.AlwaysSound | orchestrator/loop.py:78-147 | from an empty broker after every bar: placed - exits = open positions = the risk state's count <= limit; realized = daily total = equity change; one position per symbol |
| PaperLoopTheorems.MarkedAtClose | orchestrator/loop.py:119-121 | every surviving position is valued at that bar's close |
| PaperLoopTheorems.TickOrders | orchestrator/loop.py:123-138 | a bar appends at most one order, only above the daily cap at its own close, below the position limit, for a symbol not held, in a safe quantity that is the one budget, verdict, lot and override come to |
| PaperLoopTheorems.OrdersOnlyAboveCap | risk/manager.py:129-137 | the same at every bar of every run |
| PaperLoopTheorems.ExpiryRuleNeverApplies | risk/manager.py:142-147 | on every run the loop's risk state never triggers the expiry-day rejection |
| DailyLossCap.TotalOfAllDays | orchestrator/loop.py:78-118 | after every bar of every run the loop's daily figure is the profit of any one day plus that of all others |
| DailyLossCap.RealizedRightExactlyWhen | risk/manager.py:32-33 | its realized half is the profit realized on that bar's day if and only if the other days so far sum to zero |
| DailyLossCap.MtmRightExactlyWhen | risk/manager.py:30-33 | after every bar of every run, realized plus unrealized is what that day's bars moved it if and only if it stood at zero when the day began |
| DailyLossCap.CapReadsMtmAfter | risk/manager.py:135-137 | the cap is compared on a bar with the figure after that bar |
| DailyLossCap.DayHasStart | risk/manager.py:30-33 | in time order every bar's day has a first bar |
| DailyLossCap.ElsewhereIsBefore | orchestrator/loop.py:78-118 | in a frame in time order, the other days so far are the earlier days |
| DailyLossCap.YesterdaysLossBlocksToday | risk/manager.py:135-137 | a two-day run whose second day has realized nothing and is rejected for the first day's realized loss |
| DailyLossCap.YesterdaysMarkBlocksToday | risk/manager.py:135-137 | a two-day run that realizes nothing and stands still on its second day, rejected for the first day's mark on an open position |
| DailyLossCap.BreachedForGood | risk/manager.py:135-137 | once the book is flat with the cap breached, no order is placed and the books stay as they are to the end of the run |
| WalkForward.SplitWindows | backtest/walk_forward.py:54-87 | the loop stops, refuses exactly too few days, and returns exactly the windows that end in time |
| WalkForward.NeverStopsOtherwise | backtest/walk_forward.py:66-86 | with a step below one and a first window that fits, every window fits and the loop would never stop |
| WalkForward.WindowsUnique | backtest/walk_forward.py:69-87 | the window list is determined by the range |
| WalkForward.WindowsInRange | backtest/walk_forward.py:72-85 | every window lies in the range, its test right behind its training |
| WalkForward.WindowsInSeconds | backtest/walk_forward.py:66-86 | the first training starts with the range, each window trains and tests for its own days of 86400 seconds, and the next starts a step, or failing that a test period, later |
| WalkForward.SliceExactly | backtest/walk_forward.py:90-107 | a slice keeps, in order and as often as they come, exactly the bars from its period's start up to but without its end |
| WalkForward.TestsDisjointExactlyWhen | backtest/walk_forward.py:66-86 | with two or more windows, tests are pairwise disjoint if and only if step >= test days |
| WalkForward.TestSlicesPartition | backtest/walk_forward.py:90-107 | with step = test days the test slices hold every bar between first test start and last test end exactly once |
| WalkForward.NewestBarInNoSlice | backtest/walk_forward.py:106-123 | the newest bar is in no slice |
| Sweep.CoercedInBounds | dashboard/services/sweep_runner.py:234-256 | an accepted value lies in its declared bounds, and is whole exactly for an int parameter |
| Sweep.AcceptedExactlyWhen | dashboard/services/sweep_runner.py:234-256 | a value is accepted if and only if it is a finite number, not a boolean, within the bounds, and whole for an int; and then it is that very number |
| Sweep.AcceptedOneByOne | dashboard/services/sweep_runner.py:215-221 | a list of values is accepted if and only if each is, in its order |
| Sweep.ExpansionOfGrid | dashboard/services/sweep_runner.py:195-231 | on the grid: for every way to point at one value per parameter some expansion has exactly these, accepted, and every expansion is one of those |
| Sweep.ExpandCell | dashboard/services/sweep_runner.py:195-231 | an expansion lists the choices in order, or the first complaint about the grid is reported |
| Sweep.EachChoiceOnce | dashboard/services/sweep_runner.py:222-231 | each choice of one value position per parameter occurs at exactly one place |
| Sweep.PickedValue | dashboard/services/sweep_runner.py:225-229 | each parameter of an expansion has the chosen value |
| SweepRun.Expand | dashboard/services/sweep_runner.py:147-192 | accepted if and only if symbols and cells exist, every cell is sound and the total is within the cap of 500; the result is then all runs, in order |
| SweepRun.AllRunsCount | dashboard/services/sweep_runner.py:150-156 | the number of runs is symbols times the summed products of value counts |
| SweepRun.SweepRow.RunAll | dashboard/services/sweep_runner.py:357-482 | what is written to the row is fixed: running, then one update per expansion with completed + failed its number, then the end; undisturbed that is the total, and done exactly when completed >= 1 |

## Left out

- Floating-point rounding: all prices and ratios are exact reals; Sharpe, Sortino, CAGR and Calmar are not modelled.
- ReuseSafeWhen: for RSI and Supertrend the condition on the candles is sufficient only, since different candles can give equal values; what is exact there is on the rows (ReuseIsAgreement).
- Retries: a retried remote call is one outcome (an answer, a broker error, another error).
- The hash behind client order ids: an id is the triple it is computed from, so the hash is taken to be injective.
- Status strings of the exchange are taken as already folded to one case; its free-text error messages are replaced by fixed texts.
- Square-off and trigger-deletion answers: both are ignored by the code, so only the calls are recorded.
- Stop and target levels attached to the live broker's reported positions; the product code of an order.
- Live tick timestamps arrive as local time or absent; coercing them, the queue of emitted bars and the web socket are not modelled.
- JSON numbers and literal names are words of unstructured characters, a larger language than the standard's; decoding the object is not modelled.
- An indicator's cache key is the indicator with its parameters; SMA, Bollinger bands, MACD and VWAP are not modelled.
- The calendar month of a timestamp is a parameter of the monthly returns.
- Walk-forward aggregation, the phase-name check, and time-zone conversion; a day is 86400 seconds.
- The database rows, failure texts and worker threads of a sweep; an exception that escapes ends the run in the model as well.
- Paper positions without bracket levels, which the paper broker never creates; slippage of 10000 basis points or more, where a sale would fill at or below zero.
- Kill switch, no-trade windows, expiry cut-off and the scheduler: their answers are inputs of each bar.
- The live broker inside the trading loop: there the loop is modelled with the paper broker only.
- Loading and normalising bar frames, logging, the journal, user interfaces, providers and configuration files.
- Concurrent writers to one store, and a crash between sending an order and storing its record.
