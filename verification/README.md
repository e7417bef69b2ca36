# Paper trading: a verified model

A Dafny model of the core of a paper-trading system for perpetual swaps: the isotonic calibrator of
its forecasts, the settlement protocol of its runners and database, the arithmetic of its orders,
closes and ledger, and the loops of its strategy, replay and evaluation.  Floats and decimals are
exact reals; `money()` is rounding half to even onto a grid of 1e-8.  A database transaction either
commits as a whole or raises and changes nothing.  Request hashes are injective, so a command row
carries its request.

How the parts fit together:

- `Isotonic.dfy`, `Calibrator.dfy`: the pool-adjacent-violators loop over its block stacks is proved
  to return the unique weighted least-squares optimum, by a certificate (residual sums) that is
  independent of the loop, with at most a merge for every place where the result stays level.  The
  calibrator class keeps a sliding window and a cached fit; whenever the cache is clean it is the fit of
  the window, and the map it looks up is the best monotone one.
- `Monetary.dfy`, `Ledger.dfy`, `Market.dfy`, `Execution.dfy`, `Risk.dfy`: rounding with residual repair,
  partial closes, step-floored sizing and the two risk gates, with bounds over whole chains of calls.
- `Commands.dfy`, `CommandProtocol.dfy`, `CommandLoop.dfy`: the command table as the repository writes it,
  every run of it by any number of clients and runners, and the runner's cycle, proved to be such a
  run while other processes write between any two of its transactions.
- `Journal.dfy`, `Settlement.dfy`, `SettlementProtocol.dfy`, `Records.dfy`, `Repository.dfy`: journal entries, the
  opening and closing commits with the constraints of the schema, every run of them by any number of
  runners with liquidations and crashes, what fills and postings say of a position in every run and hence
  exactly which commits go through, and the repository methods statement by statement with rollback.
- `RunnerBook.dfy`, `DayClose.dfy`, `Runner.dfy`, `Liquidation.dfy`: the remembered positions of any runner
  against the database, the closing of a trading day by any number of runners, the handlers in their
  own form, and forced exits.
- `Scenarios.dfy`: runs from the empty database to states where a condition of a result about books, days
  or balances fails.
- `Indicators.dfy`, `Strategy.dfy`, `Replay.dfy`, `Metrics.dfy`, `Learning.dfy`: streaming averages against batch
  ones, the signals built on them, intrabar replay against first-touch semantics, drawdown, and the purged
  split.

Runs are sequences of actions, one per repository transaction plus crash and recovery; a main result
holds after every possible sequence.  What a method meets on its way - a read or a write that raises, how a
handler ends, the ids it draws - is an input, so that its contract says what it does in every case.  The repository's one class appears as two,
`Commands.CommandTable` and `Repository.PaperRepository`, and its runner as `CommandLoop.CommandRunner` and
`Runner.PaperRunner`, one for commands and one for money.  Products of reals go through `Arithmetic.Times`, whose body the
proofs hide.

What the code does where its words say otherwise, or where a property has a condition:

- `isotonic_regression` announces a result as long as `y`; points whose weight is not positive are
  dropped, and the result is as long as `y` exactly when all weights are positive.
- `post_entry` takes an account and does not look at it.
- An entry fee splits exactly over a partial exit if and only if it has at most eight decimals.
- A command whose key is resubmitted with another payload ends in `conflict` whatever its status was,
  even `accepted`; it is then never claimed.
- A stale sweep that hits a handler that is merely slow lets a second runner claim and execute its
  command too; without such a sweep no two runners ever execute one command.
- A handler that raises ends the runner's cycle: the queue keeps all it held and the command's row stays
  `processing` until a restart sweeps it.
- `load_open_positions` answers a failed read with an empty list, so a restart restores the book exactly
  when the load succeeds or there is nothing to load.
- A liquidation, or a close by another runner, of a position that a runner remembers leaves it a stale
  entry.  The entry stays until that runner crashes, and till then the runner cannot close the day.
- A start command that arrives after a day was closed puts the day back to running while its finish
  command stays completed, so nothing closes the day again.
- A second handler of a finish command, left behind by a sweep over a slow one, puts the day back to
  closing after the first one closed it; if it then cannot close it again, the day is orphaned the same
  way.  These two are the only ways.
- A finish command can complete over an open position, with one runner and nothing late: a runner that
  forgot the position at a restart, and whose read of the day's positions fails as well, closes the day.
  It does so exactly when it overlooks a position, and what it overlooks is told from the steps: openings
  by other runners and its own crashes, less closes and reads that succeed.
- The strategy remembers only the last signal it built: a signal is repeated exactly when one of another
  account, bar, side or context was built in between.
- An open position whose quantity rounded to nothing can never be closed, and keeps its day from closing.
- Each cancel of an entry order is tried on its own; one that raises is passed over, and the day is
  closed with that order still open.
- A trigger compares the last two bars of its window with the averages of the last two bars consumed;
  these are the same bars exactly when the window reaches the end of what was consumed.

## Model

| member | source | states |
|---|---|---|
| `Isotonic.IsotonicRegression` | forecast_engine/calibration.py:23-59 | the loop returns the optimal non-decreasing fit of the points of positive weight, every other non-decreasing sequence is worse by at least its weighted distance, and merges and jumps of the result are together fewer than the points |
| `Isotonic.CertifiedIsOptimal` | forecast_engine/calibration.py:39-59 | a non-decreasing sequence whose residual sums never go below zero, and vanish where it jumps, is optimal among all non-decreasing ones |
| `Isotonic.OptimalFitUnique` | forecast_engine/calibration.py:39-59 | two optimal fits of the same points are equal |
| `Isotonic.MergeBlocks` | forecast_engine/calibration.py:48-54 | pooling a block with a lower one after it keeps "value is the weighted mean, and no prefix of the block has a lower mean" |
| `Isotonic.FitKeepsTotal` | forecast_engine/calibration.py:43-54 | the fit has the weighted total of its points |
| `Isotonic.FitWithinRange` | forecast_engine/calibration.py:43-54 | the fit stays within any bounds of its points |
| `Isotonic.FitKeepsNonDecreasing` | forecast_engine/calibration.py:47-54 | points that are non-decreasing already are their own fit, so fitting twice changes nothing |
| `Isotonic.KeptAllIffPositive` | forecast_engine/calibration.py:41-42 | no point is dropped if and only if every weight is positive |
| `Calibrator.IsotonicCalibrator.Create` | forecast_engine/calibration.py:71-80 | refuses exactly a window below 1 or a minimum below 2; otherwise an empty, dirty calibrator |
| `Calibrator.IsotonicCalibrator.Add` | forecast_engine/calibration.py:89-93 | the buffer is the end of everything added, as long as the window reaches, labels thresholded at one half, and the cache is dirty |
| `Calibrator.IsotonicCalibrator.Refit` | forecast_engine/calibration.py:95-120 | sorting and tie aggregation leave the fit of the whole window in the cache |
| `Calibrator.IsotonicCalibrator.Calibrate` | forecast_engine/calibration.py:122-143 | below the minimum the raw score clamped to the unit interval, else the fitted value of the first breakpoint at or above the score, or of the last one, in the fit of the current window |
| `Calibrator.FreshFitUnique` | forecast_engine/calibration.py:95-120 | a window has one fit, so a clean cache equals a fresh fit |
| `Calibrator.FitIsProbability` | forecast_engine/calibration.py:119-143 | fitted values lie in the unit interval, so the final clamp changes nothing |
| `Calibrator.CalibrationIsMonotone` | forecast_engine/calibration.py:127-143 | the calibrated value never falls when the score rises |
| `Calibrator.LookupHitsBreakpoints` | forecast_engine/calibration.py:129-142 | at every observed score the lookup returns that score's own fitted value |
| `Calibrator.CalibrationIsBrierOptimal` | forecast_engine/calibration.py:89-143 | no monotone function of the score has a smaller squared error on the buffered labels than the calibration map |
| `Monetary.MoneyFixedIffOnGrid` | paper_trading/contracts.py:34-37 | quantising changes nothing if and only if the amount has at most eight decimals |
| `Monetary.MoneyNear` | paper_trading/contracts.py:34-37 | quantising moves an amount by at most half a unit |
| `Monetary.RoundHalfEvenIs` | paper_trading/contracts.py:34-37 | the nearest integer, the even one of two equally near |
| `Ledger.FeeSplitExactIffOnGrid` | paper_trading/ledger.py:146-161 | the two fee shares of a partial exit add up to the fee if and only if the fee is on the grid |
| `Ledger.CostSplitExact` | paper_trading/ledger.py:146-161 | the two cost shares always add up to the quantised cost, each within a unit of its exact part |
| `Ledger.AllocatedExactly` | paper_trading/ledger.py:119-184 | an exit is allocated if and only if it closes something and no more than is held, for the quantities asked for |
| `Ledger.ChainFeeExact` | paper_trading/ledger.py:119-184 | over any chain of exits fed its own remainder the fee shares and what is left add up to the fee, and nothing is negative |
| `Ledger.ClosingAllLeavesNoFee` | paper_trading/ledger.py:146-161 | closing everything charges the whole fee and leaves no quantity |
| `Ledger.ChainNetNear` | paper_trading/ledger.py:163-168 | over any chain of exits total net is the exact price profit and funding less exit fees and the entry fee that is gone, within half a unit per rounding: one an exit, one more with funding, one more for an exit fee off the grid |
| `Ledger.ChainProportional` | paper_trading/ledger.py:146-161 | after k exits the fee left is within k half units of its exact proportional share |
| `Market.SlippageIsAdverse` | paper_trading/market.py:312-335 | slippage never lowers what a buyer pays nor raises what a seller gets |
| `Market.TradedPrice` | paper_trading/market.py:312-335 | a buy pays the ask and a sale gets the bid, moved against the trader by `bps` ten-thousandths |
| `Market.SpreadExactly` | paper_trading/market.py:395-411 | the spread passes if and only if ten thousand times the gap is at most `max_bps` times the mean of a positive bid and the ask |
| `Market.AvailableWithinDepth` | paper_trading/market.py:419-459 | the available quantity is in whole steps and, with what is used, within the given fraction of the top of the book, and one step more would not be |
| `Market.AvailableExactly` | paper_trading/market.py:419-459 | the book can be read if and only if fraction, step and reference price are positive and contracts have a size |
| `Market.QuantizeLargest` | paper_trading/risk.py:167-171 | flooring to a step gives the largest multiple of the step that is not above the value |
| `Execution.FillWithinRequest` | paper_trading/execution.py:137-255 | a fill is positive, at the slipped execution price, and filled plus remaining never exceed the request |
| `Execution.FillIsLargest` | paper_trading/execution.py:137-255 | an order fills if and only if request and book reach one step, for the largest number of whole steps within both, at the ask or bid slipped against it |
| `Execution.FillCarries` | paper_trading/execution.py:220-250 | the position carries side, price, quantity, stop and target of its fill, the fee of its notional, and a margin that is the notional over the leverage |
| `Execution.CloseAtMarket` | paper_trading/execution.py:390-440 | a long closes at the bid and a short at the ask, slipped against it, for the quantity asked or all that is held; profit, fee and net follow from that price |
| `Execution.RoundTripNeverGains` | paper_trading/execution.py:137-458 | opening and closing at one snapshot loses at least the entry fee, long or short |
| `Execution.FlatScheduleTotal` | paper_trading/execution.py:328-458 | any schedule of partial closes that ends flat realises the price profit of every close, less every exit fee, less the whole entry fee |
| `Execution.ScheduleKeepsProportions` | paper_trading/execution.py:328-466 | through any schedule margin and entry fee stay proportional to the quantity left |
| `Execution.SplitCloseChangesNothing` | paper_trading/execution.py:328-466 | closing a and then b at one snapshot gives the result and the remainder of closing a + b |
| `Risk.SizeIsLargestWithinRisk` | paper_trading/risk.py:190-216 | the size is the largest multiple of the step whose risk to the stop is within the amount |
| `Risk.CheckOrderRisk` | paper_trading/risk.py:300-508 | an order is allowed if and only if it meets every gate; its quantity, entry and risk |
| `Risk.GatesExactly` | paper_trading/risk.py:340-508 | every gate but the reward's in numbers, both ways: steps, leverage, margin, risk to the stop alone and with the open positions, daily loss, liquidation price, spread |
| `Risk.OpenRiskAdds` | paper_trading/risk.py:419-431 | an open position weighs as much as an order of its quantity, entry and stop |
| `Risk.RewardExactly` | paper_trading/risk.py:447-461 | with the other gates met and a target ahead of the entry, an order is allowed if and only if opening its quantity at the checked quote and closing it at the target without slippage realises the least ratio times the risk to the stop |
| `Risk.CheckFillRisk` | paper_trading/risk.py:521-589 | the pre-fill gate lets through exactly fresh, tight quotes within two percent of the approved entry with margin left |
| `Risk.FillGateExactly` | paper_trading/risk.py:521-589 | the pre-fill gate in numbers, both ways |
| `Risk.SignalChain` | paper_trading/runner.py:2400-2512 | a position is opened if and only if both gates allow it and the market order for the approved quantity fills; it is that of the fill |
| `Risk.OpenedRiskBounded` | paper_trading/runner.py:2410-2512 | a position opened by the chain risks at most the per-order limit plus what two percent of drift and the slippage add to the approved notional, in proportion to the contract sizes; a short slipped below a price of zero risks at most its stop on the approved quantity plus what the margin seen by the pre-fill gate carries below zero |
| `Indicators.EmaBatch` | forecast_engine/indicators.py:78-92 | the loop computes the recursive average, and nothing for a short series |
| `Indicators.EmaSeries` | forecast_engine/indicators.py:95-118 | entry i is the average of the first i + 1 closes |
| `Indicators.EmaInNumbers` | forecast_engine/indicators.py:78-92 | a mean of the first closes, then two parts of the close and `period - 1` parts of the average before, over `period + 1` |
| `Strategy.TrueRangeSpan` | paper_trading/strategy.py:135-147 | the true range is the span of the bar and the close before it |
| `Strategy.AtrInNumbers` | paper_trading/strategy.py:149-172 | a mean of the first ranges, then `period - 1` parts of the average before and one of the range, over `period` |
| `Strategy.EMA.Update` | paper_trading/strategy.py:78-99 | after any prices since the last reset the value is the batch average of all of them and the previous value that of all but the last |
| `Strategy.ATR14.Update` | paper_trading/strategy.py:135-172 | after any bars the value is Wilder's average of their true ranges, the first counting its own range |
| `Strategy.WindowExtends` | paper_trading/strategy.py:383-389 | a window of a time-ordered stream that overlaps what was consumed extends it to the window's end, no bar twice, none lost |
| `Strategy.BaselineV1Strategy.UpdateHigherTimeframes` | paper_trading/strategy.py:365-381 | each hourly and quarter-hourly bar newer than everything before it is consumed exactly once |
| `Strategy.BaselineV1Strategy.Reset` | paper_trading/strategy.py:338-349 | after a reset every average is that of no bars, whatever was consumed before |
| `Strategy.BaselineV1Strategy.FeedWindows` | paper_trading/strategy.py:365-389 | any gap-free series of overlapping windows leaves the average equal to the batch average of the consumed stream, and the previous one to that without its last bar |
| `Strategy.BaselineV1Strategy.Evaluate` | paper_trading/strategy.py:421-636 | the signal is that of the decided side on batch averages of the bars consumed, none in cooldown, at the end of the day or when it repeats the last signal built; a long one closes above its average with rising higher timeframes, a short one mirrored |
| `Strategy.DecisionExactly` | paper_trading/strategy.py:458-530 | long is decided if and only if it is enabled, the close is above its average, the higher timeframes rise unless the mode ignores them, and the bar before was at or below its own average where the mode asks for a cross; short exactly mirrored |
| `Strategy.SignalExactly` | paper_trading/strategy.py:561-636 | a signal is built if and only if the close is on the right side of the stop and target ratio less least ratio, times the risk, pays both fees; then the stop is beyond every bar looked back on, the target ahead of the close by its ratio, and the reward after fees meets the least ratio |
| `Strategy.StopExactly` | paper_trading/strategy.py:574-600 | the stop lies the given share of the average range beyond the extreme of exactly the last bars looked back on |
| `Strategy.RepeatedExactly` | paper_trading/strategy.py:549-558 | a signal is passed on a second time if and only if one of another account, bar, side or context was built in between |
| `Strategy.BaselineV1Strategy.EvaluateStream` | paper_trading/strategy.py:421-559 | over any run of gap-free windows that reach the newest bar, for one account and context, signals are of ever later bars, so no bar is signalled twice, and between two long ones of a crossing mode some bar came back to its own average |
| `Strategy.TriggerBarsAreLastConsumed` | paper_trading/strategy.py:458-471 | the two bars a trigger compares are the last two consumed if and only if the window reaches their end |
| `Strategy.DecisionMirrors` | paper_trading/strategy.py:458-530 | on the market turned upside down the decision is the opposite side, on every trigger mode and timeframe |
| `Replay.RunWindow` | paper_trading/replay.py:141-218 | the bar loop's net and count are those of the first-touch trades, and the window ends flat |
| `Replay.EntryShape` | paper_trading/replay.py:106-111 | an entry is on a rising bar, for the largest step quantity the budget pays for, with stop and target within half a tick of their shares of the close |
| `Replay.EntryExactly` | paper_trading/replay.py:179-196 | a bar is entered if and only if it rises and the budget pays for one step at its close |
| `Replay.TradesAreFirstTouch` | paper_trading/replay.py:167-208 | each trade exits at the first later bar that touches its stop, else its target, else at the last close; holdings do not overlap and no entry is missed |
| `Replay.FirstTouchUnique` | paper_trading/replay.py:167-208 | first-touch semantics determines the trades |
| `Replay.TradeEndsFlat` | paper_trading/replay.py:221-237 | each trade closes all it opened and is charged its whole entry fee |
| `Replay.TradeInPrices` | paper_trading/replay.py:167-237 | no bar inside a trade reaches stop or target; it leaves at the stop, else the target, else the last close, and earns the slipped price difference of its quantity less a fee on each side |
| `Replay.MaybeManage` | paper_trading/replay.py:221-237 | acts exactly on a bar that touches stop or target, then closes all that is held, at the stop if the bar touches it, even if it touches the target too, else at the target, slipped |
| `Metrics.EquityCurve` | paper_trading/metrics.py:39-54 | point k is the start plus the first k results |
| `Metrics.MaxDrawdown` | paper_trading/metrics.py:57-76 | the largest fall from any point to the same or a later one, attained; 0 without points |
| `Metrics.DrawdownIsWorstRun` | paper_trading/metrics.py:39-76 | over an equity curve a number is the drawdown if and only if it is the worst loss of a contiguous run of results |
| `Learning.TemporalSplit` | paper_trading/learning.py:339-363 | two disjoint order-preserving subsequences: exactly the episodes that end a purge before the cut, and exactly the others that start an embargo after it |
| `Learning.SidesInSeconds` | paper_trading/learning.py:339-363 | an episode is on the near side of the cut if and only if look-back and hold lie between its end and the cut, on the far side if and only if the embargo lies between the cut and its start |
| `Learning.NoLeak` | paper_trading/learning.py:339-380 | over two comparable sets every replay episode ends at least look-back, hold and embargo, in minutes, less the tolerated share of the span, before every holdout episode starts |
| `Learning.GapAcrossSets` | paper_trading/learning.py:365-380 | the same for any split fraction, with the sway of the cut in place of the tolerance |
| `Learning.ComparableExactly` | paper_trading/learning.py:365-380 | two sets are comparable if and only if they trade the same instruments and their first entries and last exits differ by at most the tolerated share of the longer span |
| `Learning.GapWithinSet` | paper_trading/learning.py:339-363 | within one set all of these minutes lie between |
| `Commands.CommandTable.SubmitCommand` | paper_trading/repository.py:531-628 | same key and request: the existing command, nothing written; other request: that command becomes a conflict; new key: an accepted row |
| `Commands.CommandTable.ClaimCommand` | paper_trading/repository.py:729-763 | exactly an accepted command becomes processing |
| `Commands.CommandTable.CompleteCommand` | paper_trading/repository.py:659-690 | only a processing command is settled, keeping its stored result; true exactly when the command is terminal afterwards |
| `Commands.CommandTable.UpdateCommandResult` | paper_trading/repository.py:692-727 | a handler's outcome replaces status, result and error whatever the status was; the command keeps its owner, key and request, and no other command changes |
| `Commands.CommandTable.RequeueCommand` | paper_trading/repository.py:765-791 | exactly a processing command is released |
| `Commands.CommandTable.RequeueStaleProcessing` | paper_trading/repository.py:793-814 | afterwards nothing is stale; each command that was is accepted with its request and result kept, and no other command changes |
| `CommandProtocol.LifecycleInvariant` | paper_trading/repository.py:531-814 | in every run an accepted command was claimed as often as released, a processing one once more, and owner and key name at most one command |
| `CommandProtocol.TerminalForever` | paper_trading/repository.py:659-814 | no command is lost or changes its request; a completed, failed or conflicting one stays terminal and is never claimed again |
| `CommandProtocol.OneCommandPerKey` | paper_trading/repository.py:531-628 | at any two moments of a run an owner's key names the same command |
| `CommandProtocol.ClaimIsLeased` | paper_trading/repository.py:729-814 | a sweep leaves a claimed command alone if and only if its lease has not run out |
| `CommandProtocol.RecordSurvives` | paper_trading/repository.py:659-814 | what a handler recorded of a finished command stays, result included, in every run in which no handler records again and no conflict is stamped |
| `CommandProtocol.ExclusiveExactly` | paper_trading/repository.py:729-814 | a step keeps every command with at most one executor if and only if it is no sweep over a command of a live runner |
| `CommandProtocol.OneExecutor` | paper_trading/repository.py:729-814 | in every run whose sweeps free no command of a live runner, no command is executed by two runners |
| `CommandProtocol.SweptHandlerIsDoubled` | paper_trading/repository.py:729-814 | after any sweep over a command a live runner executes, any other runner can claim it, and then two execute it |
| `CommandProtocol.SlowHandlerIsDoubled` | paper_trading/repository.py:793-814 | a run from the empty table that does so |
| `CommandLoop.CommandRunner.ProcessCommands` | paper_trading/runner.py:1400-1460 | whatever other processes write meanwhile, a cycle is a run of the protocol whose own actions are, in queue order, one claim for every command past the fence and, after a claim that takes, what its handler notes and exactly one ending; it ends with no claim held, and the queue is empty if and only if no handler raised |
| `CommandLoop.EndingMeans` | paper_trading/runner.py:1448-1460 | the ending completes a command whose handler processed it, releases one it put off, and leaves the row alone when it raised or the write was lost |
| `CommandLoop.AllClaimed` | paper_trading/runner.py:1432-1447 | when no revision is in the way and nothing raises, the commands claimed are exactly those queued, in order |
| `CommandLoop.CommandRunner.Poll` | paper_trading/runner.py:1419-1428 | polled commands are queued once each, after those already queued |
| `Journal.PostEntry` | paper_trading/ledger.py:229-267 | accepts exactly non-empty entries of one account, event and source with no bucket twice |
| `Journal.GetAccountBalance` | paper_trading/ledger.py:356-372 | the rounded sum of the account's cash components, the projection bucket left out; rounding is harmless on the grid |
| `Journal.PostingMoves` | paper_trading/ledger.py:356-372 | a posting moves its own account's balance by its amount, and the projected net moves none |
| `Journal.BuildFillPostings` | paper_trading/ledger.py:390-481 | always a valid entry on the grid; opening moves exactly margin and fee out of the account, closing margin and result in and the fee out, and no other account is touched |
| `Journal.BuildLiquidationPostings` | paper_trading/liquidation_store.py:153-201 | the same for a forced exit under its deterministic key, a zero result posted too |
| `Journal.OpenFlow` | paper_trading/ledger.py:459-479 | an opening entry is valid and takes exactly margin and fee from its account |
| `Journal.CloseFlow` | paper_trading/ledger.py:421-458 | a closing entry is valid and moves exactly margin less fee plus result |
| `Repository.PaperRepository.CommitOpenFill` | paper_trading/repository.py:1019-1111 | the statements commit exactly what the transaction specifies, or roll back to the state before |
| `Repository.PaperRepository.CommitPositionClose` | paper_trading/repository.py:1113-1184 | the same for a close: only an open position, only to a terminal status |
| `Repository.PaperRepository.InsertPostings` | paper_trading/repository.py:1186-1205 | inserts all postings if and only if none breaks the unique key on source and bucket |
| `Repository.PaperRepository.CreateAccount` | paper_trading/repository.py:184-242 | raises exactly for an account that exists; a new one has its rounded deposit as balance, and no other balance changes |
| `Repository.PaperRepository.UpdateDayState` | paper_trading/repository.py:386-407 | the state is written when the day is there and as expected; it raises only when its owner would have two incomplete days |
| `SettlementProtocol.SettledOnce` | paper_trading/repository.py:1019-1205 | in every run an order has at most one opening and one closing fill, and the closing fill and postings exist exactly when the position is closed or liquidated |
| `SettlementProtocol.BalanceConserved` | paper_trading/repository.py:1042-1184 | in every run a balance is the deposit plus closed results less both fees, less the margin and entry fee of open positions |
| `SettlementProtocol.NetColumnNear` | paper_trading/runner.py:1348-1369 | with the stored net results instead, the balance is off by at most 1e-8 per closed position |
| `Scenarios.NetColumnOffByOne` | paper_trading/runner.py:1348-1369 | a run from the empty database with one sale, after which the balance is off by a whole unit from the stored net |
| `SettlementProtocol.OpeningNeverOverdraws` | paper_trading/repository.py:1042-1053 | in every run a committed opening leaves its account at zero or more |
| `SettlementProtocol.KnownForever` | paper_trading/repository.py:1145-1184 | a position read once differs from its row later only by the row having been closed |
| `SettlementProtocol.SettlementInvariant` | paper_trading/liquidation_store.py:204-249 | every run of opens, closes, liquidations, crashes and recoveries keeps rows, fills, entries and balances in agreement |
| `Records.RecordsTell` | paper_trading/repository.py:1062-1205 | in every run a fill carries the price, the fee and the whole quantity of its position's opening or close, and a posting the amount of its bucket |
| `Records.OpeningCommitsExactly` | paper_trading/repository.py:1019-1111 | under a new fill an opening is refused exactly for an order not there, not the account's or not fillable, a negative quantity or margin, too small a balance, or another open position on the instrument |
| `Records.ClosingCommitsExactly` | paper_trading/repository.py:1113-1184 | a close is refused if and only if its position is not open or its fill id is taken |
| `Records.OpenedAs` | paper_trading/runner.py:2540-2626 | an opening that goes through leaves, and its runner remembers, an open row with each amount rounded to the unit |
| `Records.ClosedAtMarket` | paper_trading/runner.py:1302-1376 | a close that goes through leaves price, result and exit fee of the market it was closed at, each within half a unit |
| `RunnerBook.WithinExactly` | paper_trading/runner.py:1263-1376 | a book that lists only open positions goes on doing so if and only if the step is no close by another runner, and no liquidation, of a position it remembers |
| `RunnerBook.AgreementExactly` | paper_trading/runner.py:1263-1376 | a book that lists exactly the open positions goes on doing so if and only if, besides, no other runner opens one and its runner does not crash while it remembers any |
| `RunnerBook.BookAgrees` | paper_trading/runner.py:1263-1272 | in every run, with any number of runners, in which nobody else closes what the runner remembers, its book lists only open positions, and exactly those when its last load is later than its last crash and the last opening of another runner |
| `RunnerBook.RestartRestores` | paper_trading/runner.py:945-949 | a restart restores the book if and only if the load succeeds or nothing is open |
| `RunnerBook.ClosedElsewhereIsStale` | paper_trading/liquidation_store.py:204-249 | any liquidation or close by another runner of a remembered position leaves a stale entry |
| `RunnerBook.StaleUntilCrash` | paper_trading/runner.py:1371-1372 | a stale entry stays in the book until its runner crashes |
| `Scenarios.StaleRun` | paper_trading/liquidation_store.py:204-249 | from the empty database, for any first position: it is opened, then liquidated or closed by another runner, and the runner that opened it goes on remembering it |
| `RunnerBook.ClosedForGood` | paper_trading/repository.py:1145-1156 | once closed or liquidated, a row never changes in any later run, and every further close from any copy is refused |
| `Runner.PaperRunner.ExecutePositionClose` | paper_trading/runner.py:1302-1376 | one close step of the protocol: the book changes only after the commit, and it raises exactly when the commit does |
| `Runner.PaperRunner.CommitOpening` | paper_trading/runner.py:2540-2626 | one opening step of the protocol, remembered only after the commit |
| `Runner.PaperRunner.RecoverPositions` | paper_trading/runner.py:945-949 | one recovery step of the protocol, row by row |
| `Runner.PaperRunner.CancelUnfilled` | paper_trading/runner.py:1763-1772 | the day's open entry orders become cancelled, but for those whose cancel raised or all when they could not be read; nothing else changes |
| `Runner.PaperRunner.CloseAll` | paper_trading/runner.py:1799-1811 | under new ids each position is closed and forgotten if and only if its copy is the open row and not empty; it fails if and only if one of them is stale |
| `Runner.CanCloseExactly` | paper_trading/runner.py:1774-1811 | what keeps a day that could be read from closing: a stale entry, an open position of no quantity, or an open position and no snapshot |
| `Runner.PaperRunner.HandleFinishDay` | paper_trading/runner.py:1729-1847 | a run of `DayClose` from taken to done or refused. Under new ids it is true if and only if the day is there and may be marked, neither day write raises, and every position of the day it then remembers can be closed. True means a day moved to closed; the day then has an open position if and only if its positions could not be read and the runner had missed one. Not true means put off to settlement, or closing if a day write raised. The day's entry orders are cancelled but for those whose cancel raised |
| `Scenarios.ClosesWithOpenOrder` | paper_trading/runner.py:1767-1829 | a handler that closes a day whose entry order stays open because its cancel raised |
| `DayClose.CompletedMeansClosed` | paper_trading/runner.py:1729-1847 | in every run, with any number of runners and handlers, a finish command is accepted or processing, or completed after a handler moved its day to closed |
| `RunnerBook.MissedStep` | paper_trading/runner.py:1263-1376 | the open positions of a day that a runner does not remember change exactly as the step says: another runner's opening adds, a crash adds what was remembered, a close takes away, a load that succeeds leaves none |
| `DayClose.SightExactly` | paper_trading/runner.py:1774-1782 | a runner that remembers every open position of a day goes on doing so if and only if the step is no opening by another runner on that day and no stop while it remembers one |
| `DayClose.DirtyExactly` | paper_trading/runner.py:1774-1829 | whatever happens between a handler's read of the day and its close, the close leaves an open position if and only if the read failed and one missed before is still unseen, or one went unseen since |
| `DayClose.ClosedWithoutPositions` | paper_trading/runner.py:1729-1847 | in every run, with any number of runners and liquidations, every day was closed without open positions if and only if no handler closed one while its runner overlooked a position of it |
| `Scenarios.ClosesOverOpenPosition` | paper_trading/runner.py:228-243 | a run from nothing, with one runner, no late start and no sweep, to a completed finish command whose day is closed over an open position |
| `DayClose.StaleBlocksClose` | paper_trading/runner.py:1774-1829 | while a runner remembers an open copy of a position somebody else closed, it cannot close the day, in any run until it crashes |
| `DayClose.OneActiveDay` | paper_trading/repository.py:373-407 | day writes that raise on the unique key over incomplete days keep the active day of an owner well defined in every run |
| `DayClose.OrphansExactly` | paper_trading/runner.py:1693-1847 | a step of any runner keeps every day whose finish is done closed or in recovery if and only if it is no start of such a day and no second handler that marks or puts off one |
| `DayClose.OneHandlerExactly` | paper_trading/repository.py:729-814 | a step keeps one handler a finish command, its row processing, if and only if it is no sweep over a live handler |
| `DayClose.NeverOrphaned` | paper_trading/repository.py:454-473 | in every run, with any number of runners, without late starts and without sweeps over live handlers, the finish command of a day that may be due is still accepted or processing |
| `DayClose.SubmitReaches` | paper_trading/service.py:508-540 | in such a run, submitting the finish of a due day leaves a pending finish command for it |
| `DayClose.CompletedForGood` | paper_trading/repository.py:531-628 | a completed finish command stays completed in every later run, and submitting the finish again changes nothing |
| `DayClose.LateStartOrphans` | paper_trading/runner.py:1693-1704 | any start that takes effect on a day whose finish is completed orphans the day: it may be due and has no command left |
| `DayClose.SecondHandlerOrphans` | paper_trading/runner.py:1749-1847 | any second handler of a completed finish command orphans the day as soon as it marks it closing, and putting it off and requeueing leave it so |
| `Scenarios.LateStartRun` | paper_trading/runner.py:1693-1704 | a run from nothing to a day orphaned by a late start |
| `Scenarios.SecondHandlerRun` | paper_trading/runner.py:920-930 | a run from nothing, without late starts, to a day orphaned by two handlers: a restarted runner sweeps the slow one's command, and its stale copy of a position keeps it from closing the day again |
| `Liquidation.ClosedAtFirstExecutable` | paper_trading/liquidation.py:116-184 | watched tick after tick, an open position is closed once, at the first fresh tick that triggers, and keeps that close |
| `Liquidation.GoneExactly` | paper_trading/liquidation.py:143-184 | a position is gone if and only if the mark of a fresh market had reached the liquidation price, closed in full at the first such tick at that market, slipped; until then pending exactly while the mark is beyond the price |
| `Liquidation.StoredIsFinal` | paper_trading/liquidation.py:187-195 | once the status is stored, no tick of any later watch is worth committing again |

## Left out

- Floating point, 28-digit decimal precision and NUMERIC columns: all amounts are exact reals; the columns modelled hold values already on the 1e-8 grid.
- Wall clocks: freshness, lease age, cooldown, order lifetime and the end of the day are inputs or nondeterministic.
- Risk.CheckOrderRisk: says when an order is allowed, not the text of the collected reasons, reserved margin or reward ratio; the liquidation price is an input because `trading_math` is not part of this model.
- Risk.OpenedRiskBounded: is stated for slippage of at least 0, which is adverse.
- Strategy.BaselineV1Strategy.Evaluate: remembers a signal by its account, bar, side and context, not by the string they are joined into, and leaves out the creation time and version of a signal.
- Learning.NoLeak: is stated for a split fraction between 0 and 1; `Learning.GapAcrossSets` has no such bound.
- Commands.CommandTable.SubmitCommand: in the class runs without interference; races between its two transactions are covered by the runs of `CommandProtocol`.
- DayClose.NeverOrphaned: assumes that only the service submits under a day's finish key; late starts and sweeps over live handlers are excluded because `DayClose.OrphansExactly` and `DayClose.OneHandlerExactly` show that they break it.
- Runner.PaperRunner.HandleFinishDay: is one runner on a database no other process writes to meanwhile; `DayClose` interleaves any number of handlers.
- Repository.PaperRepository.GetDaysNeedingClosure: is a selection, and says no more than its query.
- Stop and target columns of a position row: settlement does not read them.
- Orders partially filled over time, `record_fill`, `update_position` and `append_postings`: no runner path calls them.
- Manual opens are not claimed to happen once under retry: each attempt makes a new order.
- Days are not claimed to stay closed: a start command or a failed rollover reopens them.
- reconcile: it sums other buckets than the balance does.
- Batch ATR and the other indicators, market validation, funding, margin adjustment and reversal: easy members.
- Bootstrap, deflated Sharpe ratio, forecast gate, ensemble weights: random or transcendental.
- The one-account-per-kind key of owners, leases, signals, rollover policy, Redis, the connection pool, reports and user interfaces.
