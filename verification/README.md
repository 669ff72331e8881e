# A verified model of the trading simulator and its services

This project models, in Dafny 4.11, the parts of the backend that decide money and order, and
proves what they promise over every input and every run:

* **Market structure** (`MarketStructure`, `StructureColumns`, `MarketStructureEngine`): swing detection with
  look-ahead, then one forward pass with a trend, two levels and a queue of pending breaks. Each
  column has a stateless definition, which is shown to be what the column is named for; the imperative
  pass is proved to compute it, and so to be causal.
* **Paper trading** (`Fills`, `PositionSizing`, `RiskEngine`, `Books`, `Simulator`, `LotGrid` and their proofs):
  fills, sizing, risk rules, the portfolio, the simulated venue and its lot grid; `VenueEffects` and
  `EntryVerdicts` say what each call does and answers from what it is called with. `Portfolio` and
  `PaperTradingEngine` are the same things as objects updated in place, each method proved equal to
  the operation on values.
* **Backtesting** (`Backtest*`, `Metrics`): the bar-by-bar replay for an arbitrary strategy, a
  function of the bars it is handed. Conservation, the loss bound, halts, spacing and the absence of
  look-ahead are stated about whole runs; `BacktestWitnesses` runs concrete plans and
  `BacktestEngine` is the loop itself.
* **The persisted account** (`PaperLedger*`, `PaperAccount`): tables from which the portfolio is
  rebuilt before every action, beside the same calls on an engine that is kept in memory.
* **Rate limiting** (`RateLimits`, `RateLimitProofs`, `RateLimiter`): weighted sliding windows.
* **Backfill** (`Candles`, `HistoricalIngestion`) and **event fan-out** (`EventBus`, `EventBusRuns`).

`Decimal` is `real`. Times are whole microseconds in the simulator, milliseconds in the backfill and
real seconds in the rate limiter. An exception is the `Err` of a `Result`. A Python dictionary that
is iterated in insertion order is a sequence. `dafny verify dfyconfig.toml` checks everything.

Assumptions of the main results: the configured ranges of `RiskConfig`, a fee rate in [0, 1],
slippage in [0, 10000) basis points and, where a run must end flat, a positive last close, or where a
holding is followed over its bars, positive prices and targets; for rate
limits a clock that does not go back, between two installs of rules; for the backfill an exchange
that returns closed candles in ascending order, with at most its last candle open.

Where the code and its own words differ, the model follows the code:

* the close is compared with a level that the same bar may have set (`market_structure.py:168-181`),
  although the comment says otherwise; `WhenTheCommentHolds` says exactly when that matters;
* `realised_pnl_today` is the realised result of the whole life of the portfolio (`simulator.py:82`),
  which is what makes the daily-loss halt absorbing;
* `slippage_cost` of a closed trade is that of its exit alone (`simulator.py:217-224`);
* sizing checks cash before slippage, so an approved entry can still raise
  (`ApprovedEntryCanFail`); `ApprovedEntryFailsWhenUnaffordable` says exactly when;
* an exit is taken at the order's own price even where the candle opened beyond it, so the loss on a gap
  through a stop is understated, and at a stop above a target that is hit (`fills.py:104-126`,
  `simulator.py:275-286`), although the source says that neither happens (`simulator.py:242-251`);
  `WhenExitsArePessimistic` and `WhenExitsAreInRange` say exactly when, for live prices
  `WhenALivePriceIsTaken`;
* a refused size does not mean that none exists: cash and fees are judged for the largest quantity alone
  (`position_sizing.py:162-183`); `WhenARefusalIsFinal` says exactly when it means that;
* a backfill that is cut by its page budget after the very last closed candle reports `max_pages_reached`
  (`historical_ingestion.py:179-231`); `CallStoresAPrefix` says exactly when.

## Model

| member | source | states |
|---|---|---|
| `MarketStructureEngine.ComputeAll` | backend/app/engines/market_structure.py:97-218 | the single forward pass fills every row with what its twelve columns are named for, each said from the prices, and every row of every prefix of the series is the same: all columns are causal |
| `StructureColumns.RowFollowsPrices` | backend/app/engines/market_structure.py:132-200 | on every bar of every series, each of the twelve columns from peaks, troughs and prices alone: the four swing flags, trend and change of character, the two levels, breakout, breakdown, break of structure and false breakout |
| `StructureColumns.TrendIsTheLastTurn` | backend/app/engines/market_structure.py:153-165 | bullish exactly if, at the last bar that confirmed a swing with one of its kind before it, one of those was above the one before; bearish exactly if none was; unknown exactly if there is no such bar |
| `MarketStructure.RowsAreCausal` | backend/app/engines/market_structure.py:97-218 | for every series, window and prefix length, the row of a bar in the prefix is its row in the whole series |
| `MarketStructure.SwingsOfPrefix` | backend/app/engines/market_structure.py:59-78 | a prefix finds exactly the full run's swings that are confirmed inside it, in the same order; all others are confirmed later |
| `MarketStructureEngine.FindSwingPoints` | backend/app/engines/market_structure.py:59-78 | the look-ahead search by window maximum and occurrence count finds exactly the bars strictly beyond all their neighbours, in order of confirmation |
| `MarketStructureEngine.PeakTest` | backend/app/engines/market_structure.py:70-71 | the unique-maximum test of a window holds exactly for a strict peak |
| `MarketStructureEngine.TroughTest` | backend/app/engines/market_structure.py:73-75 | the unique-minimum test of a window holds exactly for a strict trough |
| `MarketStructureEngine.SwingsByConfirmation` | backend/app/engines/market_structure.py:111-114 | the table maps each bar to exactly the swings `window` bars before it |
| `MarketStructureEngine.State.TakeSwings` | backend/app/engines/market_structure.py:135-162 | taking in the swings of a bar leaves trend, levels and flags at their stateless values |
| `MarketStructureEngine.State.ResolvePending` | backend/app/engines/market_structure.py:183-200 | keeps exactly the breaks less than three bars old and reports whether any of the others has been undone |
| `MarketStructureEngine.ComputeBar` | backend/app/engines/market_structure.py:132-200 | one bar of the pass moves the state and the queue from their stateless values to those of the next bar and writes the stateless row, and no other |
| `MarketStructureEngine.ResolvingQueue` | backend/app/engines/market_structure.py:183-200 | on every bar the queue splits into the breaks of the last three bars, which stay, and those of the bar three before, which are judged: `false_breakout` is the stateless formula |
| `MarketStructure.PendingAfter` | backend/app/engines/market_structure.py:183-200 | the queue after a bar never holds more than six entries |
| `MarketStructure.EachBreakWaitsThreeBars` | backend/app/engines/market_structure.py:168-200 | every break is in the queue exactly on its own bar and the two after it, once: each is resolved exactly once |
| `MarketStructure.ResistanceIsTheLatestSwingHigh` | backend/app/engines/market_structure.py:135-161 | resistance is the price of the latest swing high at index at most `i - window`, and missing exactly when there is none |
| `MarketStructure.SupportIsTheLatestSwingLow` | backend/app/engines/market_structure.py:135-161 | the same for support and swing lows |
| `MarketStructure.SwingsAreApart` | backend/app/engines/market_structure.py:59-78 | any two swings of one kind are more than `window` bars apart |
| `MarketStructure.NoBreakOnConfirmation` | backend/app/engines/market_structure.py:168-181 | a bar with low <= close <= high that confirms a swing high is never a breakout, and dually |
| `MarketStructure.WhenTheCommentHolds` | backend/app/engines/market_structure.py:168-181 | on any series, comparing with the level as the bar leaves it, as the code does, and with the level of the previous bar, as its comment says, agree if and only if the bar confirms no new swing or its close is beyond the new level just when it is beyond the old one |
| `MarketStructure.WhenTheCommentHoldsOnSaneBars` | backend/app/engines/market_structure.py:168-181 | on a bar with low <= close <= high they differ exactly if it confirms a swing and closes beyond the old level |
| `MarketStructure.CommentFails` | backend/app/engines/market_structure.py:168-181 | a concrete series on which they disagree |
| `Fills.RoundingIsGreatest` | backend/app/risk/position_sizing.py:52-61 | rounding a non-negative quantity down gives the greatest multiple of the step not above it |
| `Fills.RoundingKeepsGridQuantities` | backend/app/risk/position_sizing.py:52-61 | a quantity on the lot grid is not changed |
| `Fills.SlippageIsNeverFavourable` | backend/app/paper_trading/fills.py:42-54 | a buy never fills below its reference and a sell never above it, nor at or below zero |
| `Fills.FillIsTheGreatestAvailable` | backend/app/paper_trading/fills.py:57-102 | for any inputs a fill is nothing, when nothing requested, available and on the grid exists, or else the greatest such quantity, at the slipped price and its fee |
| `Fills.GridQuantityFillsInFull` | backend/app/paper_trading/fills.py:57-102 | with no liquidity cap a positive grid quantity fills whole |
| `Fills.UpdateTrailingStop` | backend/app/paper_trading/fills.py:129-145 | a trailing stop never comes down and is never further below the high than its distance |
| `PositionSizing.SizedIsTheLargestLegalSize` | backend/app/risk/position_sizing.py:64-192 | in the account's own figures: a quantity is approved if and only if there is equity and a stop below the entry, it is the largest step multiple within the risk budget, every cap, the exposures held, cash and the maximum, meets the minimums, is affordable with its fee and pays for its fees |
| `PositionSizing.WhatSizingAnswers` | backend/app/risk/position_sizing.py:81-192 | every answer with its code: no equity, no stop, nothing above zero within the limits, or the first check that the largest quantity within them fails, or its figures |
| `PositionSizing.SizedRespectsEveryLimit` | backend/app/risk/position_sizing.py:64-192 | an approved size, in the account's terms: risk, position, asset and portfolio caps, notional plus fee within cash, and on the lot grid |
| `PositionSizing.RoundedIsLargest` | backend/app/risk/position_sizing.py:100-130 | the rounded quantity is the largest allowed one, or nothing above zero is allowed |
| `PositionSizing.WhatARefusalMeans` | backend/app/risk/position_sizing.py:114-183 | a refusal for minimum quantity or notional means no allowed quantity meets it; the other refusals mean the largest allowed one fails the named check |
| `PositionSizing.WhenARefusalIsFinal` | backend/app/risk/position_sizing.py:81-183 | with a fee of zero or more, a refusal means that no size at all is legal if and only if the smallest orderable quantity is not legal or, where nothing sets a smallest, a budget, cap, cash or maximum is not above zero; any other refusal than for cash or for being uneconomic is always final |
| `PositionSizing.WhenSomethingFits` | backend/app/risk/position_sizing.py:81-183 | approved or not, some size is legal exactly then |
| `PositionSizing.RefusedAlthoughLessWouldFit` | backend/app/risk/position_sizing.py:162-169 | a concrete call that is refused for cash, its fee being left out of the cap, although a smaller size is legal |
| `PositionSizing.RefusedAlthoughLessWouldPay` | backend/app/risk/position_sizing.py:171-183 | a concrete call that is refused because its fees reach the amount risked, although a smaller size is legal |
| `RiskEngine.ApprovalMeansEveryLimitHolds` | backend/app/risk/engine.py:344-390 | approval if and only if the system is trusted, no account limit is reached, the trade is acceptable and a size exists; a halt if and only if system or account is out of action |
| `RiskEngine.AccountClearIsNoHalt` | backend/app/risk/engine.py:175-212 | no account halt exactly when daily loss, drawdown and loss streak are below their limits, said without a division |
| `RiskEngine.HaltsComeInOrder` | backend/app/risk/engine.py:175-254 | for each of the eight halts, exactly when it is the one named: emergency stop, pause, stale data, failing calls, model health, then daily loss, drawdown, loss streak |
| `RiskEngine.AccountHaltsComeInOrder` | backend/app/risk/engine.py:175-212 | exactly when each account rule is the one named, and that none is named exactly when the account is clear |
| `RiskEngine.SizeIgnoresThePeak` | backend/app/risk/engine.py:344-390 | accounts that differ only in their peak equity are given the same size if both are approved |
| `EntryVerdicts.TheFirstRuleIsNamed` | backend/app/risk/engine.py:175-390 | the verdict names the first of sixteen rules, in order, whose own condition holds, as a halt or a rejection; and is an approval exactly if none holds |
| `EntryVerdicts.WhatAnEntryIsTold` | backend/app/paper_trading/simulator.py:75-124 | the same from the book alone: cash and worth of the holdings, results of the ledger and gain of the holdings, peak, a ledger that ends in so many trades without a win, last exit of the symbol, positions and exposures; and the size approved, and the count of refusals |
| `Books.OpeningConserves` | backend/app/paper_trading/portfolio.py:147-184 | opening keeps cash + committed = initial + realised, every total the sum of its records, and cash non-negative |
| `Books.ClosingConserves` | backend/app/paper_trading/portfolio.py:186-230 | closing keeps the same, if the exit fee is no more than the proceeds |
| `Books.ReplacingConserves` | backend/app/paper_trading/portfolio.py:49-52 | moving a stop or widening an excursion touches no money |
| `Books.FlatEquityIsRealised` | backend/app/paper_trading/portfolio.py:111-128 | with nothing open, equity gained is the net result of the trades, gross less fees |
| `Books.EquityDecomposes` | backend/app/paper_trading/portfolio.py:111-134 | equity is initial balance + realised + unrealised at any prices, with missing prices taken at entry |
| `Books.EquityIsNonNegative` | backend/app/paper_trading/portfolio.py:111-125 | at non-negative prices a solvent portfolio is worth at least its cash |
| `Books.StreakCountsBackToTheLastWin` | backend/app/paper_trading/portfolio.py:235-242 | the streak is the number of trades after the last win |
| `Portfolio.OpenPosition.Observe` | backend/app/paper_trading/portfolio.py:49-52 | widens the excursion extremes in place and changes nothing else |
| `Portfolio.Portfolio.PositionsValue` | backend/app/paper_trading/portfolio.py:111-122 | the loop over positions marks each to its price, or to its entry |
| `Portfolio.Portfolio.UpdatePeakEquity` | backend/app/paper_trading/portfolio.py:136-137 | raises the peak to the current equity |
| `Portfolio.Portfolio.ConsecutiveLosses` | backend/app/paper_trading/portfolio.py:235-242 | the backward loop counts the streak |
| `Portfolio.Portfolio.Open` | backend/app/paper_trading/portfolio.py:147-184 | in place: the opened book with a fresh position object at the end, or an error and no change |
| `Portfolio.Portfolio.Settle` | backend/app/paper_trading/portfolio.py:200-228 | the arithmetic of a close builds the trade that the value model records |
| `Books.TradesAddUp` | backend/app/paper_trading/portfolio.py:200-228 | a trade nets its proceeds less the exit fee less all that was committed, and its return is that over the cost basis |
| `Portfolio.Portfolio.Close` | backend/app/paper_trading/portfolio.py:186-230 | in place: exactly that position is gone, its trade is appended, cash and totals follow; an error when nothing is held |
| `VenueEffects.EquityIsCashAndWorth` | backend/app/paper_trading/portfolio.py:111-134 | equity is cash and each quantity at its price or, without one, its entry price; the unrealised result is the gain on those, entry fees deducted |
| `VenueEffects.WhatAVenueStartsWith` | backend/app/paper_trading/portfolio.py:94-108 | a new venue has its balance for cash and for peak, with nothing held and nothing done |
| `SimulatorProofs.EveryReachableVenueIsSound` | backend/app/paper_trading/simulator.py:75-305 | after any sequence of calls at any prices: money is conserved, realised result and fees are the sums of their records, symbols are distinct, cash is never negative |
| `SimulatorProofs.OpenIsSound` | backend/app/paper_trading/simulator.py:128-187 | opening, partial fills included, keeps all of that |
| `SimulatorProofs.CloseIsSound` | backend/app/paper_trading/simulator.py:189-235 | closing keeps all of that: an exit fee never exceeds its proceeds |
| `SimulatorProofs.BarIsSound` | backend/app/paper_trading/simulator.py:239-288 | a candle keeps all of that |
| `VenueEffects.WhatAnOpenDoes` | backend/app/paper_trading/simulator.py:128-187 | every outcome of an open: not approved, nothing filled, too dear with slippage and fee, already held, or a position with every field as ordered and paid for, and no other change |
| `VenueEffects.WhatACloseDoes` | backend/app/paper_trading/simulator.py:189-235 | every outcome of a close: nothing, or the whole position gone and a record with every field, slippage, both fees, result, return and excursions, and no other change |
| `VenueEffects.WhatACandleDoes` | backend/app/paper_trading/simulator.py:239-288 | every outcome of a candle: excursions widened by its high and low, then the sale at the stop, else at the target, else the stop raised to its high less the distance; last the peak; and no other change |
| `VenueEffects.WhatAForcedCloseDoes` | backend/app/paper_trading/simulator.py:290-305 | at positive prices every position is sold in order at its price or, without one, its entry price |
| `VenueEffects.EveryReachableVenueKnowsExits` | backend/app/paper_trading/simulator.py:75-305 | after any sequence of calls the last exit kept of each symbol is that of its last trade |
| `SimulatorProofs.ClosedTradesAreNeverRewritten` | backend/app/paper_trading/simulator.py:75-305 | every call only appends to the closed trades and never changes the initial balance |
| `LotGrid.EveryReachableVenueIsOnLots` | backend/app/paper_trading/simulator.py:75-305 | after any sequence of calls in any number of symbols, each with one lot step, partial fills included: every holding and every trade is a positive multiple of the step of its symbol, with the fee rate charged on the whole of each leg |
| `LotGrid.EveryCloseIsWhole` | backend/app/paper_trading/simulator.py:189-235 | after any such sequence a close succeeds exactly for a held symbol at a positive price, and sells all of it for the fee rate |
| `SimulatorProofs.ForcedCloseLeavesNothing` | backend/app/paper_trading/simulator.py:290-305 | a forced close at positive prices leaves no position open |
| `SimulatorExits.WhenACandleCloses` | backend/app/paper_trading/simulator.py:255-288 | a candle closes a position, whole, exactly when its low is at or below the stop and the stop is a positive price or, with the low above the stop, its high is at or above the target and that is a positive price; and at that order price less slippage |
| `SimulatorExits.WhenExitsAreInRange` | backend/app/paper_trading/simulator.py:239-288 | an exit on a candle is, before slippage, at a price between its low and its high if and only if a stop that is hit is not above the high or, with the stop not hit, the target is not below the low |
| `SimulatorExits.WhenExitsArePessimistic` | backend/app/paper_trading/simulator.py:239-288 | an exit on a candle is at a price no better than the candle's high and than either order that is hit, if and only if it is not at a stop above the high nor at a stop above a target that is hit |
| `SimulatorExits.WhenALivePriceIsTaken` | backend/app/paper_trading/account.py:426-487 | on a candle of one price, as the monitor makes them, the sale is at that price before slippage if and only if the order hit is at that price |
| `SimulatorExits.GapsAreUnderstated` | backend/app/paper_trading/simulator.py:242-251 | a concrete candle that opens below the stop and stays there: the sale is at the stop, a price it never traded |
| `SimulatorExits.ExitsCanFlatter` | backend/app/paper_trading/fills.py:122-125 | a concrete position with its target below its stop that is sold at the better price |
| `SimulatorExits.TheTrailComesAfterTheExit` | backend/app/paper_trading/simulator.py:262-276 | a candle's own high never improves its exit: the trade is the same whatever the trailing distance |
| `EntryCaps.EntryStaysWithinTheCaps` | backend/app/paper_trading/simulator.py:89-187 | an approved entry, partly or wholly filled, leaves the number of positions, the exposure to the asset and the total exposure, before slippage, within their caps of the equity it was approved on |
| `EntryCaps.PositionsStayWithinTheLimit` | backend/app/risk/engine.py:307-316 | over any run whose entries go through the risk engine the open positions never outnumber `max_simultaneous_positions` |
| `PaperTradingEngine.PaperTradingEngine.AccountStateNow` | backend/app/paper_trading/simulator.py:75-87 | cash, equity, peak, positions and streak of the portfolio as the account state on which the risk engine judges |
| `PaperTradingEngine.PaperTradingEngine.EvaluateEntry` | backend/app/paper_trading/simulator.py:93-124 | the assessment of the value model; only the refusal count may change |
| `PaperTradingEngine.PaperTradingEngine.OpenPosition` | backend/app/paper_trading/simulator.py:128-187 | the in-place engine opens as the value model does, with the same errors |
| `PaperTradingEngine.PaperTradingEngine.ClosePosition` | backend/app/paper_trading/simulator.py:189-235 | the in-place engine closes as the value model does and notes the exit time |
| `PaperTradingEngine.PaperTradingEngine.ProcessBar` | backend/app/paper_trading/simulator.py:239-288 | the in-place engine takes a candle as the value model does |
| `PaperTradingEngine.PaperTradingEngine.ForceCloseAll` | backend/app/paper_trading/simulator.py:290-305 | the loop closes the positions held at its start, in order, and returns their trades |
| `BacktestEngine.BacktestEngine.Run` | backend/app/backtesting/engine.py:172-252 | the replay loop returns exactly the outcome of the value model, errors included, for any bars and any strategy |
| `BacktestEngine.BacktestEngine.Apply` | backend/app/backtesting/engine.py:254-293 | a decision acts as in the value model: no entry is made that the risk engine has not approved |
| `BacktestDecisions.WhatADecisionDoes` | backend/app/backtesting/engine.py:254-293 | every outcome of a decision: to leave what is held, at the close; to buy, where nothing is held, by the first rule that refuses, the exception for its cost, or a position with every field as asked; and otherwise nothing |
| `BacktestDecisions.WhatABarDoes` | backend/app/backtesting/engine.py:180-206 | a bar is a candle, then its decision, then the peak raised to the equity at its close |
| `BacktestHoldings.EveryHoldingFollowsItsBars` | backend/app/paper_trading/simulator.py:239-288 | at every bar of a replay the stop of a holding is the larger of the one asked for and, with a distance, the highest high since the bar it was bought on less the distance; its excursions are those of the bars since |
| `BacktestHoldings.EveryTradeFollowsItsBars` | backend/app/backtesting/engine.py:180-252 | every trade was bought at a close as a decision asked, and sold at the stop its bars had left, else at its target, else at the close of a decision or of the last bar; with its fees, its reason and the excursions of the bars it was held over |
| `BacktestCounts.WhatARunReports` | backend/app/backtesting/engine.py:172-252 | how a run fails; and of one that completes: each point of its equity curve, the bars it held something on, and the buys that were refused |
| `BacktestCounts.RefusalsAreCounted` | backend/app/backtesting/engine.py:254-293 | the count of rejections is the number of bars whose buy, on a flat account, some rule refused |
| `BacktestProofs.StateOfPrefix` | backend/app/backtesting/engine.py:172-206 | the engine after a bar is the same whatever bars follow |
| `BacktestProofs.ShorterRunIsAPrefix` | backend/app/backtesting/engine.py:172-252 | if the longer run completes so does a run on fewer bars; the trades closed by the shorter run's last bar begin the trades of both runs, the shorter run has at most one more, closed at its end on its last bar, and its equity curve, less the last point, begins the longer run's |
| `BacktestProofs.EveryStateHoldsAtMostOne` | backend/app/backtesting/engine.py:254-293 | at every bar the engine holds nothing or one position, in the symbol it trades |
| `BacktestProofs.ShorterRunIsOk` | backend/app/backtesting/engine.py:172-252 | if the longer run completes, so does the shorter |
| `BacktestProofs.LedgerGrows` | backend/app/backtesting/engine.py:180-206 | the trades closed by a bar stay, in place, to the end |
| `BacktestTrades.EveryStateIsAccounted` | backend/app/backtesting/engine.py:180-206 | at every bar each holding and each trade goes back to an entry the risk engine approved on a flat account, at that size and price, with its stop never below the one asked for |
| `BacktestResults.EveryLossIsJudged` | backend/app/paper_trading/simulator.py:239-288 | every trade of a run goes back to an approved entry, and loses at most entry equity * `max_risk_per_trade` + slippage on both legs + fees if and only if the fall of the price from entry to exit, before slippage, costs the quantity no more than that risk budget |
| `BacktestResults.LossIsBounded` | backend/app/paper_trading/simulator.py:239-288 | if bars close at or above their lows, every trade but those that took their profit loses at most that; if not, every stopped trade does as long as the strategy calls none of its own exits on these bars a stop |
| `BacktestWitnesses.MislabelledExitsEscapeTheBound` | backend/app/backtesting/engine.py:254-293 | a concrete run whose strategy calls its exit a stop on a bar that closes below its low, and loses more |
| `BacktestResults.TradesAreWholeLots` | backend/app/backtesting/engine.py:254-293 | every trade is one positive step multiple from entry to exit, the approved size, and pays the fee rate on both fills |
| `BacktestResults.EquityGainedIsNetPnl` | backend/app/backtesting/engine.py:208-217 | after the forced close final equity - initial capital = net result = gross - fees, and final equity is not negative |
| `BacktestResults.CurveIsNonNegative` | backend/app/backtesting/engine.py:204-206 | with positive closes the equity curve is never negative |
| `BacktestResults.RunNeverFails` | backend/app/backtesting/engine.py:172-252 | if `max_position_size` * (1 + slippage) * (1 + fee) <= 1, no run ever raises |
| `BacktestResults.ApprovedEntryFailsWhenUnaffordable` | backend/app/paper_trading/portfolio.py:160-164 | an approved entry raises if and only if slipped cost plus fee exceeds cash |
| `BacktestWitnesses.ApprovedEntryCanFail` | backend/app/paper_trading/portfolio.py:160-164 | a concrete approved entry that raises |
| `BacktestHalts.HaltsAreAbsorbing` | backend/app/risk/engine.py:175-212 | once a bar ends flat with an account halt, the portfolio is unchanged to the end, whatever the strategy asks |
| `BacktestHalts.NothingTradesAfterAHalt` | backend/app/backtesting/engine.py:180-217 | such a run completes, with exactly the trades and the cash it had at the halt |
| `BacktestHalts.CurveIsFlatAfterAHalt` | backend/app/backtesting/engine.py:180-206 | from then on the equity curve is constant |
| `BacktestHalts.TradesAreSpaced` | backend/app/risk/engine.py:294-306 | with increasing bar times trades do not overlap and each entry is at least the cooldown after every earlier exit |
| `Metrics.MaxDrawdown` | backend/app/backtesting/metrics.py:85-95 | on every non-negative curve the one pass returns the greatest fractional loss over all pairs of a positive value and a later one, or zero, in [0, 1]; on any curve, zero or the loss of some pair, and no less than any loss to a value at or above zero; nothing for fewer than two values |
| `Metrics.DrawdownIsTheWorstPair` | backend/app/backtesting/metrics.py:85-95 | the running-peak recursion is that maximum over pairs |
| `Metrics.DrawdownIsNeverOverstated` | backend/app/backtesting/metrics.py:85-95 | on any curve, negative values included, the running-peak recursion is zero or attained by some pair and covers every loss to a value at or above zero |
| `Metrics.MissedLossesGoThroughZero` | backend/app/backtesting/metrics.py:85-95 | on any curve a loss the pass misses ends below zero and starts below the peak before it |
| `Metrics.NegativeCurvesAreMisread` | backend/app/backtesting/metrics.py:85-95 | a concrete curve with such a loss: why the exact maximum is claimed for non-negative curves |
| `Metrics.WinsAndLossesPartition` | backend/app/backtesting/metrics.py:155-160 | wins and losses share the trades out, none lost and none twice |
| `Metrics.ProfitFactorAgrees` | backend/app/backtesting/metrics.py:178-185 | a profit factor exists exactly when some trade lost, and exceeds one exactly when the net result is positive |
| `Metrics.FiguresAgreeWithTheNetResult` | backend/app/backtesting/metrics.py:154-185 | counts add up, net = gross - fees, expectancy is positive exactly when the net result is |
| `Metrics.WhatTheFiguresAre` | backend/app/backtesting/metrics.py:141-198 | each figure from the trades, the curve and the counts: wins, totals, means of all, of the wins and of the losses, profit factor, return and exposure |
| `BacktestMetrics.ReportMatchesTheAccount` | backend/app/backtesting/engine.py:208-226 | the reported net result is the equity gained and gross less fees, the return is that over the capital, the drawdown is the worst fall of the equity curve, exposure is in [0, 1] |
| `PaperLedgerRuns.RebuiltAgreesWithMemory` | backend/app/paper_trading/account.py:121-199 | over any sequence of opens, closes and monitor passes, failed and refused ones included, the portfolio rebuilt from the tables is that of an engine kept in memory |
| `PaperLedgerRuns.AgreementMeans` | backend/app/paper_trading/account.py:121-185 | agreement is on cash, positions and stops, closed trades, realised result, fees, loss streak, last exits and equity at any prices; only excursions, peak and refusal count are left out |
| `PaperLedgerRuns.OpenRefines` | backend/app/paper_trading/account.py:226-318 | one open on the tables is one open on the engine in memory |
| `PaperLedgerRuns.CloseRefines` | backend/app/paper_trading/account.py:321-423 | one close on the tables is one close on the engine in memory |
| `PaperLedgerRuns.MonitorRowRefines` | backend/app/paper_trading/account.py:454-499 | one live price on an open row is a candle with high = low = that price |
| `PaperLedgerRuns.MonitorRefines` | backend/app/paper_trading/account.py:426-508 | one pass is such a candle for each open position with a price, in order |
| `PaperLedgerProofs.OnlyTheDrawdownHaltCanDiffer` | backend/app/paper_trading/account.py:172-175 | two peaks give one verdict if and only if they put the account on the same side of the drawdown limit, or the system is not trusted, or the daily-loss halt fires anyway |
| `PaperLedgerTables.RebuiltIs` | backend/app/paper_trading/account.py:121-185 | what the rebuilt portfolio holds, without dictionary or sort |
| `PaperLedgerRecords.RebuiltHas` | backend/app/paper_trading/account.py:121-185 | the rebuilt cash is the initial balance with every net result less the cost of the open rows, and equity at any prices is that and their worth |
| `PaperLedgerRecords.WhatPeakIsRebuilt` | backend/app/paper_trading/account.py:169-175 | the rebuilt peak is the highest of the initial balance, that with every net result, and every snapshot; the initial balance if none of them is above zero |
| `PaperLedgerRecords.RebuiltKnowsExits` | backend/app/paper_trading/account.py:112-118 | the rebuilt venue knows of each symbol the exit of its last trade |
| `PaperLedgerRecords.OpenErrors` | backend/app/paper_trading/account.py:237-244 | an open raises for a symbol with an open row and, that apart, for want of a price |
| `PaperLedgerRecords.WhatOpeningWrites` | backend/app/paper_trading/account.py:226-318 | any other open: refused by the first rule that the account in the tables meets; too dear; or a row with symbol, stop, target, trailing distance, signal and time as asked, the slipped price, the fee, the size that the account allows for that price and stop, and a snapshot of the equity |
| `PaperLedgerRecords.ClosingErrors` | backend/app/paper_trading/account.py:339-350 | a close raises for a symbol without an open row and, that apart, for want of a price |
| `PaperLedgerRecords.WhatClosingWrites` | backend/app/paper_trading/account.py:321-423 | any other close: an error where nothing fills, or the record of the whole row sold at the reference, the row closed with its exit, result and fees, and a snapshot of the equity |
| `PaperLedgerRecords.WhatAQuoteWrites` | backend/app/paper_trading/account.py:454-499 | a live price closes its row at the order it sets off, or moves its stop up to the price less the distance, or does nothing |
| `PaperLedgerRecords.WhatAPassWrites` | backend/app/paper_trading/account.py:426-508 | a pass reports as many closes as it made and, if it fetched a price, ends on a snapshot of the equity at the prices fetched |
| `PaperLedgerTables.LastExitIsTheLatest` | backend/app/paper_trading/account.py:112-118 | a new last trade moves the last exit of its symbol and no other |
| `PaperLedgerTables.LoadedTradesAreChronological` | backend/app/paper_trading/account.py:62-91 | the loaded trades are all the rows, by exit time, whatever order the rows are in |
| `PaperLedgerRuns.OpenRowIsUnique` | backend/app/paper_trading/account.py:339-345 | the open row found for a symbol is the only one |
| `PaperAccount.LastExitTimes` | backend/app/paper_trading/account.py:112-118 | the loop computes the latest exit of each symbol |
| `PaperAccount.LoadPortfolio` | backend/app/paper_trading/account.py:121-185 | a fresh portfolio of fresh positions equal to the one derived from the tables |
| `PaperAccount.OpenPaperTrade` | backend/app/paper_trading/account.py:226-318 | records what the rebuilt engine opened; every error and refusal leaves the tables unchanged |
| `PaperAccount.ClosePaperTrade` | backend/app/paper_trading/account.py:321-423 | closes the row, appends the trade and a snapshot; every error leaves the tables unchanged |
| `PaperAccount.MonitorOpenPositions` | backend/app/paper_trading/account.py:426-508 | the pass over the rows, skipping missing prices and failed closes, and its count of closed positions |
| `RateLimitProofs.NoWindowIsEverExceeded` | backend/app/binance/rate_limiter.py:157-190 | for every enforced rule and every instant t, of the requests granted in (t - interval, t] the weights of the rule's type are within its limit or, for raw requests, the number of all of them is; whatever the interleaving of passes |
| `RateLimitProofs.VerdictFollowsWhatWasGranted` | backend/app/binance/rate_limiter.py:157-190 | what a pass answers, from the requests granted so far: never, exactly if its weight exceeds a limit of its type or a raw limit is below one; at once, exactly if every limit leaves room; else after the least delay with which every limit does |
| `RateLimitProofs.EveryGrantIsRecordedEverywhere` | backend/app/binance/rate_limiter.py:157-190 | each window holds exactly the grants that apply to it, less an expired head, and `used` is their exact sum |
| `RateLimitProofs.WaitIsTheLeastSufficientDelay` | backend/app/binance/rate_limiter.py:82-95 | infinite exactly when the cost exceeds the limit, otherwise the cost fits after a delay if and only if it is at least the reported one |
| `RateLimitProofs.VerdictIsExact` | backend/app/binance/rate_limiter.py:163-190 | a pass raises exactly when some applicable window can never fit the request, and otherwise reports the least delay after which all fit |
| `RateLimitProofs.GrantedIffAllAdmit` | backend/app/binance/rate_limiter.py:163-190 | granted exactly when every applicable window has room now |
| `RateLimitProofs.SleepingTheDelayIsExactlyEnough` | backend/app/binance/rate_limiter.py:163-190 | a throttled request that retries is granted if and only if it slept at least the reported delay, when nothing else is granted meanwhile |
| `RateLimitProofs.EachRetryIsPaidForByAnotherGrant` | backend/app/binance/rate_limiter.py:163-190 | if a request that slept at least the reported delay is not granted, another was granted while it slept |
| `RateLimitProofs.TheLastRuleOfAKeyIsEnforced` | backend/app/binance/rate_limiter.py:112-115 | one window a type and interval, for the last rule given with them |
| `RateLimits.FromExchangeInfo` | backend/app/binance/rate_limiter.py:36-65 | a rule exactly for a complete entry with a known interval and positive numbers; it carries the type and limit of the entry and the length of its interval in seconds |
| `RateLimitProofs.EachUsableEntryIsARule` | backend/app/binance/rate_limiter.py:126-149 | a payload gives the rule of each usable entry, in order, and no other |
| `RateLimiter.Window.Evict` | backend/app/binance/rate_limiter.py:76-80 | pops exactly the expired head and keeps the running total |
| `RateLimiter.Window.WaitSeconds` | backend/app/binance/rate_limiter.py:82-95 | evicts and returns the least wait |
| `RateLimiter.RateLimiter.Install` | backend/app/binance/rate_limiter.py:112-115 | fresh empty windows for the enforced rules |
| `RateLimiter.RateLimiter.UpdateFromExchangeInfo` | backend/app/binance/rate_limiter.py:126-155 | replaces the rules exactly when the payload has a usable one, else changes nothing |
| `RateLimiter.RateLimiter.Pass` | backend/app/binance/rate_limiter.py:164-184 | one pass under the lock: the verdict, and all applicable windows charged or none |
| `RateLimiter.RateLimiter.Acquire` | backend/app/binance/rate_limiter.py:157-190 | among other callers that may ask for anything at any time, the retry loop ends at its first try that is not throttled, and does so unless others are granted something in every one of its sleeps: in all its sleeps but the last they were; it raises exactly when the request can never fit, and then at the first try |
| `RateLimitProofs.EverySleepButOneIsContended` | backend/app/binance/rate_limiter.py:163-190 | whenever a caller is throttled on its first n tries, another caller was granted something in each of its sleeps between them |
| `HistoricalIngestion.BackfillSymbolTimeframe` | backend/app/services/historical_ingestion.py:179-231 | the paging loop leaves committed exactly the next contiguous stretch of closed candles, with true counts and reason, and `candle_count` stays the number of rows |
| `HistoricalIngestion.IngestPage` | backend/app/services/historical_ingestion.py:200-223 | one page stores and commits exactly the next page of closed candles, with as many rows as the metadata counts, and resumes after them |
| `HistoricalIngestion.Session.UpsertCandles` | backend/app/services/historical_ingestion.py:73-117 | writes every candle and counts rows inserted and updated |
| `HistoricalIngestion.Session.UpdateMetadata` | backend/app/services/historical_ingestion.py:120-150 | widens the span and adds to the count |
| `Candles.PageIsStored` | backend/app/services/historical_ingestion.py:200-221 | writing a page on top of a stored prefix stores exactly a longer prefix, inserts every candle of the page, and the recorded count is the number of stored rows |
| `Candles.StoreCountsItsRows` | backend/app/services/historical_ingestion.py:120-150 | `candle_count` is the number of rows in the candle table, for any stored stretch in ascending order |
| `HistoricalIngestion.BackfillInterrupted` | backend/app/services/historical_ingestion.py:179-231 | a call cut down after a page is written and before it is committed leaves committed exactly what the pages before it stored |
| `Candles.CallStoresAPrefix` | backend/app/services/historical_ingestion.py:179-231 | every call keeps what it started from and leaves a contiguous prefix of the closed candles; it has stored all of them if and only if it reports the present or they fill its last page to the brim |
| `Candles.FixedHistoryOutcome` | backend/app/services/historical_ingestion.py:179-231 | against a history that stands still, what is stored depends on the page budget alone |
| `Candles.DivisionDoesNotMatter` | backend/app/services/historical_ingestion.py:179-231 | any division into calls, interrupted after any page, stores what one call of the same pages stores: in the end, everything |
| `Candles.UpsertedRow` | backend/app/services/historical_ingestion.py:101-111 | each stored row is the candle closed at that time |
| `EventBusRuns.QueueIsTheNewestPartOfTheStream` | backend/app/websocket/event_bus.py:33-64 | offered = delivered + dropped + queued; delivered then queued is an order-preserving subsequence of offered; the queue is a suffix of offered within capacity |
| `EventBusRuns.NoDropsMeansLossless` | backend/app/websocket/event_bus.py:33-43 | nothing dropped if and only if delivered then queued is the whole stream |
| `EventBusRuns.NewestIsNeverDropped` | backend/app/websocket/event_bus.py:33-43 | a wanted event is newest in the queue right after it is published, and costs an older one exactly when the queue was full |
| `EventBus.Subscriber.Offer` | backend/app/websocket/event_bus.py:33-43 | the non-blocking put that drops the oldest when full |
| `EventBus.EventBus.Publish` | backend/app/websocket/event_bus.py:60-64 | every subscriber that wants the event is offered it once, and no other changes |
| `EventBus.EventBus.Add` | backend/app/websocket/event_bus.py:66-68 | registers that subscriber and no other |
| `EventBus.EventBus.Remove` | backend/app/websocket/event_bus.py:70-72 | forgets that subscriber and no other, known or not |

## Left out

- ComputeAll: the twelve output lists are one array of rows, and prices are `real`, so NaN and binary rounding are not modelled.
- LossIsBounded: a trade that took its profit may exceed the bound, because nothing keeps a target above the stop, and so may an exit that a strategy calls a stop; `EveryLossIsJudged` says exactly when.
- EveryHoldingFollowsItsBars: asks for prices and targets above zero; an order at or below zero is hit without filling and stands in the way of the trail (`WhatACandleDoes` says what it leaves).
- Run: starts from the fresh engine the constructor builds; a second run on the same object, which would carry on from the first, is not modelled.
- Acquire: assumes one sleep in which no other caller is let in; a caller whose every sleep is contended may wait without bound, and only the safety of its passes is proved.
- FromExchangeInfo: upper-casing and integer parsing of the raw fields are taken as done.
- NoWindowIsEverExceeded: holds between two installs of rules, because installing discards history.
- OpenPaperTrade: the orders table and the audit record of a refusal are not modelled; both are written and never read back by this code.
- MonitorOpenPositions: rows are read in the order they were added, writes are seen at once by later reads, and a crash between two commits of one pass is not modelled.
- LoadPortfolio: trades with equal exit times are taken in the order they were added, which a database need not do; the refinement assumes strictly increasing exit times.
- RebuiltAgreesWithMemory: `mae`, `mfe` and peak equity are excluded, being approximate after a reload by design, and an entry is compared only when both peaks put the account on the same side of the drawdown limit.
- BackfillSymbolTimeframe: the backfill is the only writer; `persist_closed_candle` can move the resume point past unfilled history and is not part of this model.
- Publish: the lock, the order in which subscribers are served and events published while a fan-out is under way.
- The 28-digit context of `Decimal` and the column rounding of the database: arithmetic is exact.
- Sharpe and Sortino ratios, win and loss rates as floats, annualisation.
- Indicators, signal fusion, model training, REST and WebSocket clients, routes, migrations, scheduling, logging and reason texts.
