# Verification models for the trading server

Dafny models of the self-contained algorithms of the trading server (`server/`), with the laws they obey
proved for every input, every call sequence or every run. `dafny verify dfyconfig.toml` checks the project.

| files | what they model |
|---|---|
| `PySeq`, `Reals`, `Sorting`, `TimeOrder` | Python list operations and their edge cases, order facts about reals, the stable sort, sorted timestamps |
| `CandleBuffer` | the bounded, sorted, deduplicated candle buffer |
| `Indicators`, `IndicatorLaws` | EMA, MACD, RSI, ATR, Bollinger bands, the second implementations of RSI and ATR, and every reading in closed form |
| `History`, `Signals`, `Backtest`, `Backtester` | the simple backtester: history provider, six signal generators, the specification of a run, and the class that refines it |
| `Inputs`, `SignalRules`, `SignalRuns`, `Stakes` | what a timestamp sees, which candles signal, which symbols a run signals, and what its entries stake |
| `BacktestLaws`, `PositionLife`, `Cooldown`, `Causality`, `SafeRuns` | theorems about whole runs of the backtester |
| `FifoMatcher` | FIFO matching of buy and sell orders |
| `CommandQueue` | the command protocol between API tasks and engine loop |
| `Orders`, `Registry` | the order state machine and the registry of orders |
| `Correlation`, `PearsonLaws`, `Ensemble`, `EnsembleLaws`, `Selector`, `SelectorLaws` | strategy correlation, greedy ensemble, scoring and type-limited ranking, and their figures in closed form |
| `AverageCost`, `TickAlign`, `RoundRobin` | average-cost profit, price grid, round-robin refresh |

## How it is built

State that the source changes in place is a class (or an array), and every method of it is proved to compute a
function of its inputs and the old state. The laws are lemmas about those functions, so they carry over to the
methods. Expression-style code is modelled as functions directly. Lemmas named `...Exactly` or `...ClosedForm` say what
such a function means without it: from the candles, orders or figures alone, with the source's constants as numbers.

Conventions:

* Prices, quantities and ratios are exact `real`s; binary floating point and its rounding are not modelled.
  Python's `round(x, n)`, `int` and `math.ceil` are written out.
* Times are integers (microseconds); `Minutes` is `total_seconds() / 60`. Dates in trade logs are day numbers.
* `sqrt` is a function parameter `root`. Where a law needs it, `IsSquareRoot` says it is a non-negative root.
* A Python `ZeroDivisionError` or `OrderStateError` is an explicit outcome (`raised`, `Raise`, `ZeroDivision`) rather than a
  precondition. The exception is the period of an indicator or of a relative volume, which is required to be at least 1:
  with period 0 the source divides by zero.
* Ids are fresh UUIDs, as the source generates them. Clocks, networking and logging are parameters or absent.

Where the code differs from what its comments or names suggest, the model follows the code:

* `CandleBuffer.add` bounds the buffer only for `max_size >= 1`; `SizeBound` says exactly when.
* Closing a long position of value 0 divides by zero (run_backtest.py:352). On positive prices only a long-only run without
  capital gets there (`RunSafe`, `FinalSafe`), and `BrokeRun` and `BrokeFinal` say exactly when it does.
* A short position can take cash out when it closes; `ShortLoss` says exactly when, and `ShortRunSolvent` what keeps the cash
  of a whole run non-negative.
* A sell without a usable price moves the buy cursor past all remaining buys, so nothing later in the group is
  matched; `PricelessSellEndsMatching` states it.
* `mark_filled` and `mark_sent` write before the transition check, so a call that raises can still change the order:
  `RaisingCallKeeps` says exactly when it does not. Marking a SENT order as sent again (executor.py:297 and 436) loses its
  exchange id (`SecondSendOverwrites`), and after a terminal status only status and history are frozen (`LateFillOverwrites`).
* SHORT_BREAKDOWN and SHORT_RALLY_FADE are documented with a MACD confirmation, but they ask for 25 candles and MACD needs
  26: their MACD conditions never decide anything (`MacdNeverAsked`, `BreakdownExactly`, `FadeExactly`).
* Candidates dropped by the type limit are in neither list that `select` returns: `EveryCandidateOnce`.
* Recomputed profit is proceeds less costs exactly when the cost left on the book is the value of the sells the guard skips
  (`RealisesExactly`). If none is skipped, a closed history has it exactly when it ends in a sell or buys an oversold position
  back at its own average price (`ClosedExactly`); without overselling it always has (`ClosedRealises`).
* Windows of the candle refresh are cut off at the end of the list, so symbols near its start can be refreshed less
  often than the others; `RefreshShare` gives the exact counts.
* `reset` keeps the hourly trend, so the causality theorem starts both runs from the same one.

## Model

| member | source | states |
|---|---|---|
| CandleBuffer.AddRefines | server/src/data/candle_manager.py:39-52 | If the buffer holds the newest `max_size` candles of a last-writer-wins map, then after `add` it holds the newest ones of the updated map |
| CandleBuffer.ReplayRefines | server/src/data/candle_manager.py:39-52 | After any sequence of adds the buffer is strictly increasing in open time and holds exactly the newest `max_size` keys of the last-writer-wins map, each with its last written candle |
| CandleBuffer.NewestUnique | server/src/data/candle_manager.py:39-52 | That description determines the buffer: two lists that meet it for one map are equal |
| CandleBuffer.OrderIrrelevant | server/src/data/candle_manager.py:39-52 | Add sequences that leave the same last writes leave the same buffer, evictions included |
| CandleBuffer.AddsCommute | server/src/data/candle_manager.py:39-52 | Two neighbouring adds of different open times can be swapped anywhere in any sequence |
| CandleBuffer.EvictedStaysOut | server/src/data/candle_manager.py:50-52 | An open time once written and no longer held never reappears, not even when it is added again |
| CandleBuffer.LatestWindow | server/src/data/candle_manager.py:54-56 | For every count, also zero and negative, `candles[-count:]` after any adds is the newest part of the last-writer-wins map, of the size Python's slice has |
| CandleBuffer.Buffer.LatestIsNewest | server/src/data/candle_manager.py:54-56 | So is the answer of `get_latest` |
| CandleBuffer.SizeBound | server/src/data/candle_manager.py:50-52 | The bound `max_size` holds after every add sequence exactly when `max_size >= 1` |
| CandleBuffer.Buffer.constructor | server/src/data/candle_manager.py:31-37 | A new buffer is empty with the given bound |
| CandleBuffer.Buffer.Add | server/src/data/candle_manager.py:39-52 | The in-place method computes the specified new contents |
| CandleBuffer.Buffer.AddAll | server/src/data/candle_manager.py:180-183 | Loading a batch one candle at a time continues the replay of everything added before |
| Sorting.SortSorts | server/src/data/candle_manager.py:48 | The sort returns a sorted permutation |
| Sorting.SortStable | server/src/data/candle_manager.py:48 | Elements with equal keys keep their order |
| Sorting.SortUnique | server/src/data/candle_manager.py:48 | Sorted, with equal keys in the same order, is only one list: the sort is determined by its specification |
| Indicators.CalculateEma | server/src/indicators/technical.py:10-29 | The loop computes the EMA function, fallbacks for short and empty input included |
| Indicators.EmaBounds | server/src/indicators/technical.py:20-29 | The EMA lies between the bounds of its inputs |
| Indicators.EmaAppend | server/src/indicators/technical.py:20-29 | Appending a price is one smoothing step on the previous EMA |
| Indicators.EmaAffine | server/src/indicators/technical.py:10-29 | The EMA of a·x+b is a·EMA(x)+b for every series and every a, b |
| Indicators.CalculateMacd | server/src/indicators/technical.py:88-126 | The loop that recomputes both EMAs of every prefix computes the MACD function |
| Indicators.MacdAppend | server/src/indicators/technical.py:105-121 | The recomputed series grows by one smoothing step per price and its last value is the MACD line |
| Indicators.MacdOnline | server/src/indicators/technical.py:105-126 | All three outputs after one more price follow from the previous EMAs and signal alone: the quadratic code refines a single-pass recurrence |
| Indicators.MacdAffine | server/src/indicators/technical.py:88-126 | Line, signal and histogram scale with a and ignore b in a·x+b |
| Indicators.CalculateRsi | server/src/indicators/technical.py:48-85 | The loops compute the RSI function |
| Indicators.RsiRange | server/src/indicators/technical.py:48-85 | RSI lies in [0, 100] |
| Indicators.RsiBelowFifty | server/src/indicators/technical.py:58-85 | RSI is below 50 exactly when the last close is below the close `period` bars earlier |
| Indicators.RsiAffine | server/src/indicators/technical.py:48-85 | RSI is unchanged by a·x+b with a > 0 |
| Indicators.RsiImplementationsAgree | server/src/features/feature_engine.py:375-391 | The feature engine's RSI equals calculate_rsi on every input |
| Indicators.ScriptRsi | server/scripts/analyze_optimal_tpsl.py:46-58 | The script's RSI equals calculate_rsi whenever it has period+1 closes, and is None otherwise |
| Indicators.AtrSeries | server/src/features/feature_engine.py:402-426 | Entry i of the rolling series is the ATR of the prefix that ends at its bar |
| Indicators.AtrImplementationsAgree | server/src/data/candle_manager.py:294-316 | The candle manager's ATR equals that ATR with period+1 candles, and is None otherwise |
| IndicatorLaws.EmaClosedForm | server/src/indicators/technical.py:20-29 | The EMA is Σ k(1−k)^j · (the price j places before the last) over the prices after the first `period`, plus (1−k)^n times the plain average of those, with k = 2/(period+1) |
| IndicatorLaws.WeightsTotal | server/src/indicators/technical.py:23-27 | These weights add to 1 |
| IndicatorLaws.EmaShort | server/src/indicators/technical.py:20-21 | With fewer than `period` closes the EMA is the last of them, or 0 |
| IndicatorLaws.MacdStart | server/src/indicators/technical.py:105-126 | All zeros before `slow` closes; then the line is the difference of the EMAs, the signal equals it until its window fills, and starts as the window's plain average |
| IndicatorLaws.RsiClosedForm | server/src/indicators/technical.py:58-85 | RSI · (rises + falls) = 100 · rises over the last `period` closes; 100 without a fall, 50 with too few closes |
| IndicatorLaws.TrueRangeSpans | server/src/indicators/technical.py:176-186 | The true range is the span of the bar and the previous close |
| IndicatorLaws.AtrIsMean | server/src/indicators/technical.py:162-191 | The ATR is the mean of the last `period` true ranges, or of all there are |
| IndicatorLaws.BandsExactly | server/src/indicators/technical.py:129-159 | The middle band is the mean of the last `period` closes; the others lie `std_mult` standard deviations either side, the variance being the mean of the squares less the square of the mean |
| History.HistoryProvider.constructor | server/run_backtest.py:63-66 | A new provider holds nothing and has no current time |
| History.HistoryProvider.LoadData | server/run_backtest.py:68-71 | Loading one (symbol, interval) replaces it and leaves every other series alone |
| History.HistoryProvider.SetTime | server/run_backtest.py:82-83 | Only the current time changes |
| History.HistoryProvider.LoadBtc1h | server/run_backtest.py:73-74 | Only the BTC series changes |
| History.UpToOnlyPast | server/run_backtest.py:85-94 | What a query sees opens at or before the current time |
| History.UpToTwice | server/run_backtest.py:85-94 | Filtering at t a view already cut at a later horizon is filtering the full data at t |
| History.SameAnswers | server/run_backtest.py:85-94 | Feeds with the same past up to a horizon answer every candle query up to it alike |
| History.SameBtc | server/run_backtest.py:76-80 | The same for the hourly BTC series |
| Inputs.VisibleExactly | server/run_backtest.py:90-94 | What is visible at t is every candle that opens at or before t, each once and in loading order |
| Inputs.WindowExactly | server/run_backtest.py:85-94 | `get_candles` gives the newest `count` of these, or all if there are fewer, and nothing for an unknown series |
| Inputs.RvolExactly | server/run_backtest.py:96-106 | The relative volume is what the newer half of 2·periods candles traded over what the older half did; there is none without that many candles or a positive older half |
| Inputs.PricesExactly | server/run_backtest.py:266-271 | A symbol is priced at a timestamp exactly when one of its candles opens then, at the close of the first such candle |
| Inputs.TrendExactly | server/run_backtest.py:181-197 | With 20 hourly candles the trend is rising above 101% and falling below 99% of their positive EMA(20), and sideways in every other case |
| Inputs.TrendAtExactly | server/run_backtest.py:262-264 | A timestamp uses the trend of the BTC candles that open at or before it, and the previous trend if there are none |
| Signals.SignalGenerator.constructor | server/run_backtest.py:419-427 | A new generator remembers no entry |
| Signals.SignalGenerator.Run | server/run_backtest.py:429-492 | The closure's loop computes the specified signals and cooldown memory, for all six generators |
| Signals.ScanCooldown | server/run_backtest.py:435-488 | In one call every signal is outside its symbol's cooldown, symbols are signalled at most once, and exactly the signalled ones are remembered |
| Signals.DecideSame | server/run_backtest.py:96-106 | Every generator's decision on a symbol depends only on candles up to the current time |
| Signals.GenerateSame | server/run_backtest.py:507-558 | So do its signals and its memory |
| SignalRules.PullbackExactly | server/run_backtest.py:441-490 | PULLBACK signals exactly on: 30 candles, close at most 2% above the lower band, RSI ≤ 38, a rising candle with a 45% body, histogram ≥ −0.1% of the price, and score ≥ `min_score`; the score in numbers, at most 105 |
| SignalRules.ReboundExactly | server/run_backtest.py:516-556 | REBOUND exactly on: 10 candles, close ≤ (1 − `min_drop`) · the close three candles before, relative volume ≥ `min_rvol`, RSI ≤ 30, a 25% lower wick, and score ≥ `min_score`; the score in numbers, emitted capped at 100 |
| SignalRules.DipExactly | server/run_backtest.py:582-625 | DIP_SCALPER exactly on: 5 candles, close ≤ (1 − `min_dip`) · the previous close, relative volume ≥ `min_rvol`, RSI ≤ 42, a 20% lower wick, and score ≥ `min_score`; capped at 100; it divides by zero exactly on a zero previous close |
| SignalRules.AttackExactly | server/run_backtest.py:655-698 | ATTACK exactly on: 15 candles, close between 1 + `min_breakout` and 1 + `max_breakout` of the highest high of the 14 before, volume, a rising candle with a 50% body, RSI ≤ 75, and score ≥ `min_score`; capped at 100 |
| SignalRules.BreakdownExactly | server/run_backtest.py:724-764 | SHORT_BREAKDOWN exactly on: 15 candles, close ≤ (1 − `min_breakdown`) · the lowest low of the 11 before, volume, RSI ≤ 70, a falling candle, and score ≥ `min_score`; capped at 100; MACD matters from 26 candles on only |
| SignalRules.FadeExactly | server/run_backtest.py:790-846 | SHORT_RALLY_FADE exactly on: 15 candles, a rally of `min_rally` from the lowest low of ten to the highest high of 15, a close `min_fade` below it, RSI ≥ 52, a falling candle with a 45% body and one of the two before falling too, and score ≥ `min_score`; capped at 100; MACD from 26 candles on only |
| SignalRules.AskedFor | server/run_backtest.py:573-600 | Which window and which relative volume each generator asks for, in numbers |
| SignalRules.MacdNeverAsked | server/run_backtest.py:742-754 | In the 25 candles the short strategies ask for, MACD is always all zeros |
| SignalRules.RsiLower | server/src/indicators/technical.py:58-85 | A lower last close never raises the RSI |
| SignalRules.DipDeeper | server/run_backtest.py:588-615 | A deeper dip, with the wick still long enough and no less volume, never loses DIP_SCALPER's signal or lowers its score |
| SignalRules.ReboundDeeper | server/run_backtest.py:524-546 | Nor does a deeper drop REBOUND's |
| SignalRules.BreakdownDeeper | server/run_backtest.py:732-754 | Nor a close further below the lowest low SHORT_BREAKDOWN's |
| SignalRules.FadeDeeper | server/run_backtest.py:797-836 | Nor a deeper fade SHORT_RALLY_FADE's, while RSI and body stay within their bounds |
| SignalRules.AttackStronger | server/run_backtest.py:663-688 | Nor a stronger breakout up to `max_breakout` ATTACK's, while RSI and body stay within their bounds |
| SignalRuns.ScanExactly | server/run_backtest.py:435-490 | A generator call that does not raise signals exactly the asked symbols that are off cooldown and whose rule emits, once each, in order and with their scores |
| SignalRuns.ScanRaises | server/run_backtest.py:507-558 | It raises exactly when some asked symbol off cooldown has a zero price where its rule divides |
| SignalRuns.MemoryExactly | server/run_backtest.py:424-439 | At every timestamp the generator remembers the latest signal of each symbol signalled so far, and what it started with for the others |
| SignalRuns.SignalsExactly | server/run_backtest.py:259-276 | A timestamp signals exactly the loaded symbols without a position after the exits, in a market the strategy trades in, not signalled within the cooldown, whose rule emits on the candles visible then |
| SignalRuns.SignalsInOrder | server/run_backtest.py:273-279 | Signals come in loading order, so the first five are those of the symbols loaded first |
| Backtester.SimpleBacktester.constructor | server/run_backtest.py:200-206 | A new backtester starts with its capital and a sideways trend |
| Backtester.SimpleBacktester.Reset | server/run_backtest.py:208-211 | Cash, positions and trades are reset; the trend is not |
| Backtester.SimpleBacktester.ClosePosition | server/run_backtest.py:340-367 | Pops the position and books trade and proceeds as specified; if it raises, the position is gone and cash and trades are as before; without a position it does nothing |
| Backtester.SimpleBacktester.ApplyRules | server/run_backtest.py:301-314 | The two-stage rule chain closes a position by the first rule that fires and never twice |
| Backtester.SimpleBacktester.CheckOne | server/run_backtest.py:288-314 | One position of the sweep is treated as the verdict says, and left in place or popped when it raises |
| Backtester.SimpleBacktester.CheckExits | server/run_backtest.py:287-314 | Closing positions while going over a snapshot equals the one-pass sweep; if it raises, the positions before the raising one are handled and those after it untouched |
| Backtester.SimpleBacktester.OpenPosition | server/run_backtest.py:316-338 | Opens exactly when the symbol is free, priced and affordable |
| Backtester.SimpleBacktester.OpenSignals | server/run_backtest.py:278-279 | The first five signals are opened in order |
| Backtester.SimpleBacktester.CloseRemaining | server/run_backtest.py:281-283 | Every position priced at the last timestamp is closed, with the same account of a raise |
| Backtester.SimpleBacktester.LoadAll | server/run_backtest.py:232-249 | Every series is in the history provider, the BTC series too |
| Backtester.SimpleBacktester.Tick | server/run_backtest.py:259-279 | One pass of the timestamp loop is one step of the specified run, with the book it leaves behind when it raises |
| Backtester.SimpleBacktester.RunBacktest | server/run_backtest.py:213-285 | The whole method ends in the final state of the specified run, or raises exactly when it does |
| Backtester.CurrentPrices | server/run_backtest.py:266-271 | The price table of a timestamp |
| Backtester.CollectTimes | server/run_backtest.py:251-254 | The set of all open times |
| BacktestLaws.SweepConserves | server/run_backtest.py:287-356 | A sweep turns position value into proceeds and realised profit and nothing else |
| BacktestLaws.OpenAllConserves | server/run_backtest.py:316-338 | Opening moves cash into position value one for one |
| BacktestLaws.EquityConserved | server/run_backtest.py:259-279 | After any number of timestamps: cash + open position values = initial capital + sum of trade profits |
| BacktestLaws.FinalEquityConserved | server/run_backtest.py:213-285 | The same after the final liquidation |
| BacktestLaws.SelectSplits | server/run_backtest.py:381-387 | Wins and losses partition the trades and their profits |
| BacktestLaws.ReportedReturn | server/run_backtest.py:384-410 | The reported total return is total profit over initial capital, and the counts add up |
| BacktestLaws.ResultsExactly | server/run_backtest.py:369-410 | Winners are the trades with a positive profit, the profit factor times the losses is the winnings (0 without losses), and the return times the capital is 100 times the change of equity |
| BacktestLaws.SweepBookAccounts | server/run_backtest.py:287-367 | A sweep keeps the multiset of (symbol, entry time) over open positions and trades |
| BacktestLaws.StepAccounts | server/run_backtest.py:259-279 | A timestamp adds only its own new entries to that multiset: each opened position is open or exactly one trade |
| BacktestLaws.LedgerExact | server/run_backtest.py:259-279 | After any number of timestamps each position ever opened is in the book exactly once, open or as one trade |
| BacktestLaws.FinalLedger | server/run_backtest.py:281-283 | So it is in the book a completed run returns |
| BacktestLaws.RunDistinct | server/run_backtest.py:316-336 | Never two open positions in one symbol |
| BacktestLaws.SurvivorsInsideBand | server/run_backtest.py:287-314 | A priced position that survives a sweep is strictly inside its stop-loss/take-profit band, above its trailing stop and younger than its time stop |
| Stakes.SignalsOfStrategy | server/run_backtest.py:484-490 | Every signal carries its strategy's label, side and share: 0.15, 0.2, 0.10, 0.10, 0.15 and 0.12 |
| Stakes.EntryStakes | server/run_backtest.py:316-338 | With c the cash after the exits of a timestamp and p the share, its j-th entry stakes p·c·(1−p)^j, and m entries leave c·(1−p)^m |
| Stakes.EntriesExactly | server/run_backtest.py:278-338 | A timestamp enters exactly its first five signals that have a price, in order, at that price and with the signal's label, score and side, or none while the cash is negative |
| PositionLife.ReasonExactly | server/run_backtest.py:300-314 | Which rule closes a position, both ways: bounds on its profit, its best profit and its age, with the defaults −1%, 1% and 0.5% as numbers |
| PositionLife.BestIsLargest | server/run_backtest.py:297-298 | The best profit is 0 or one seen by a sweep since the entry, and no smaller than any of them |
| PositionLife.CloseBooks | server/run_backtest.py:345-356 | Closing books profit · entry price = staked value · price move in the position's favour, the same for the profit in percent, and pays out value plus profit |
| PositionLife.LivesAndDeaths | server/run_backtest.py:287-367 | Told from the price data and the cash alone: each open position holds what was staked at its entry, has `max_profit_pct` = max(0, every profit seen since), and no rule has fired; each trade ended at the first sweep at which any rule fired, by the first such rule, at that price, and books its stake times the price move |
| PositionLife.FinalLives | server/run_backtest.py:281-283 | At the end every other trade was closed by the end of the data, booked alike, and what is left open has no last price |
| Cooldown.SignalsSpaced | server/run_backtest.py:435-439 | Any two signals of a run for one symbol are at least `cooldown_minutes` apart |
| Cooldown.EntriesFollowSignals | server/run_backtest.py:273-279 | A symbol's entries are at signals for it, each later than the one before |
| Cooldown.EntriesSpaced | server/run_backtest.py:273-279 | Any two entries into one symbol, in the trade list or against the open position, are at least the cooldown apart |
| Cooldown.FinalEntriesSpaced | server/run_backtest.py:281-285 | The same for the trade list a completed run returns |
| Causality.TimesAgree | server/run_backtest.py:251-256 | Data sets that agree up to a horizon have the same timestamps up to it |
| Causality.NoLookahead | server/run_backtest.py:259-279 | If two data sets agree on all candles up to a horizon, then after every timestamp up to it both runs have the same cash, positions, trades, trend, generator memory and raised flag |
| SafeRuns.RuleSafe | server/run_backtest.py:507-558 | On positive candles no generator divides by zero |
| SafeRuns.RunSafe | server/run_backtest.py:259-279 | On positive prices no run raises unless it is long-only and starts with zero capital; with positive capital a long-only run always has cash left, with negative capital it never trades |
| SafeRuns.FinalSafe | server/run_backtest.py:281-285 | Nor does the liquidation, for the same runs and with the same cash |
| SafeRuns.EmptyEntryRaises | server/run_backtest.py:321-352 | With no cash a long entry is affordable at value 0, and closing it raises |
| SafeRuns.BrokeRun | server/run_backtest.py:287-314 | A long-only run with zero capital raises exactly at the first timestamp at which a rule closes one of its positions; until then it has no cash and no trade |
| SafeRuns.BrokeFinal | server/run_backtest.py:281-283 | Including the liquidation, which raises exactly when one of the positions still open has a last price |
| SafeRuns.ShortLoss | server/run_backtest.py:345-348 | Closing a short position takes cash away exactly when the price has more than doubled |
| SafeRuns.ShortRunSolvent | server/run_backtest.py:345-356 | A short-only run with non-negative capital keeps cash non-negative as long as no position is closed above twice its entry price |
| SafeRuns.ShortFinalSolvent | server/run_backtest.py:281-285 | The same of the completed run |
| FifoMatcher.OrderRecord.constructor | server/scripts/analyze_feb6_trades.py:137-138 | The order fields the matcher reads |
| FifoMatcher.MatchOne | server/scripts/analyze_feb6_trades.py:143-181 | The inner loop, consuming `filled_quantity` in place, terminates and computes the specified matching |
| FifoMatcher.MatchSorted | server/scripts/analyze_feb6_trades.py:131-181 | So does the loop over the sells |
| FifoMatcher.MatchGroup | server/scripts/analyze_feb6_trades.py:126-181 | Sorting both sides by creation time and matching them, for one group |
| FifoMatcher.BuysConserved | server/scripts/analyze_feb6_trades.py:144-178 | For each buy: quantity matched + quantity left = original fill |
| FifoMatcher.SellsConserved | server/scripts/analyze_feb6_trades.py:141-178 | No sell is over-matched, and it is fully matched unless the buys run out |
| FifoMatcher.MatchesInOrder | server/scripts/analyze_feb6_trades.py:131-181 | Matched (buy, sell) indices never cross |
| FifoMatcher.PassedBuys | server/scripts/analyze_feb6_trades.py:148-151 | A passed buy has at most dust left, or was skipped for a missing price; a buy not reached is untouched |
| FifoMatcher.CursorAtStock | server/scripts/analyze_feb6_trades.py:178-183 | The cursor never waits at dust: the buy it points to has more than 0.0001 left or is untouched |
| FifoMatcher.OneSideExhausted | server/scripts/analyze_feb6_trades.py:143-181 | With prices everywhere, a priced buy and a sell cannot both keep something: the sell is fully matched or the buy is down to dust |
| FifoMatcher.PricelessSellEndsMatching | server/scripts/analyze_feb6_trades.py:148-151 | A sell without a price ends all matching of its group |
| FifoMatcher.MatchCount | server/scripts/analyze_feb6_trades.py:131-181 | Matches ≤ buys passed + sells, hence ≤ buys + sells |
| FifoMatcher.MatchesPriced | server/scripts/analyze_feb6_trades.py:144-172 | Every match is between a priced buy and a priced sell; its profit is quantity · (sell price − buy price), and its percentage that move over the buy price, or 0 for a worthless buy |
| FifoMatcher.TotalPnl | server/scripts/analyze_feb6_trades.py:153-156 | Total profit = Σ quantity · (sell price − buy price) |
| FifoMatcher.ExecPriceExactly | server/scripts/analyze_feb6_trades.py:144-148 | An order's price is its average fill price, else its limit price; 0 counts as missing in both |
| CommandQueue.EveryRun | server/src/engine/command_queue.py:52-110 | In every interleaving of producers, engine and waiters the protocol invariant holds |
| CommandQueue.ExactlyOneStage | server/src/engine/command_queue.py:52-110 | Every id is in exactly one stage: unknown, not yet queued, queued, executing, awaiting pickup or delivered |
| CommandQueue.TablesAreStages | server/src/engine/command_queue.py:48-50 | `_pending` is exactly the first three known stages and `_results` exactly the fourth |
| CommandQueue.StageStep | server/src/engine/command_queue.py:52-110 | Any step moves a command exactly one stage on if it is the step that takes it (registering, enqueueing with room, taking the oldest while idle, completing, fetching) and otherwise leaves it in its stage |
| CommandQueue.QueueBound | server/src/engine/command_queue.py:46-63 | In every run a bounded queue holds at most `maxsize` commands and refuses the next exactly when it is full; an unbounded one refuses none |
| CommandQueue.ForwardOnly | server/src/engine/command_queue.py:52-110 | Over any continuation of any run a command never moves back |
| CommandQueue.CompletesInQueueOrder | server/src/engine/core.py:382-398 | Commands complete in the order they were queued, each once, and none is lost between queue and completion |
| CommandQueue.DeliveredOnce | server/src/engine/command_queue.py:76-110 | A result is delivered at most once, to its own id, completed; every completed command is delivered or still waiting |
| CommandQueue.OutcomesTraced | server/src/engine/command_queue.py:76-110 | In every run each completion and each delivery has the id and kind it was registered with and the outcome of the one event that completed it |
| CommandQueue.Queue.constructor | server/src/engine/command_queue.py:46-50 | An empty queue is the protocol's start |
| CommandQueue.Queue.PutRegister | server/src/engine/command_queue.py:54-55 | The locked half of `put` is the Register step |
| CommandQueue.Queue.PutEnqueue | server/src/engine/command_queue.py:57-63 | The queueing half of `put` is the Enqueue step, refused exactly while the queue is full |
| CommandQueue.Queue.GetNowait | server/src/engine/command_queue.py:69-74 | Takes the oldest command, or None exactly when the queue is empty |
| CommandQueue.Queue.Complete | server/src/engine/command_queue.py:76-95 | Moves the command from `_pending` to `_results`, with the outcome it is given and marked completed |
| CommandQueue.Queue.TryResult | server/src/engine/command_queue.py:101-104 | One look of `get_result`: fetches and removes the id's own completed command if it is there |
| CommandQueue.Queue.ProcessCommands | server/src/engine/core.py:382-398 | The drain loop empties the queue; the i-th new completion is the i-th queued command with the outcome of executing it |
| Orders.CallMovesLegally | server/src/execution/order_state.py:108-195 | Every call makes at most one allowed transition, recorded in the history; a raising call makes none |
| Orders.SucceedsExactly | server/src/execution/order_state.py:21-195 | Exactly when each call succeeds: `mark_sent` from NEW, `mark_acked` and `mark_rejected` from SENT, both fills from ACK or PARTIAL, `mark_canceled` from NEW, SENT, ACK or PARTIAL |
| Orders.SuccessWrites | server/src/execution/order_state.py:135-195 | What a successful call writes: its status, one more history entry, and its own fields |
| Orders.WorkingOrder | server/src/execution/order_state.py:135-165 | Sent, acknowledged and filled in part any number of times, a new order has filled the total of the fills, at their volume-weighted price, with their fees |
| Orders.FilledOrder | server/src/execution/order_state.py:135-183 | Sent, acknowledged, any partial fills, filled: the order ends FILLED with that very history |
| Orders.TerminalExactly | server/src/execution/order_state.py:82-95 | FILLED, CANCELED and REJECTED are terminal, and nothing else is |
| Orders.HistoryLegal | server/src/execution/order_state.py:21-30 | Under every call sequence the history starts at NEW, follows allowed transitions and ends at the current status |
| Orders.TerminalAbsorbs | server/src/execution/order_state.py:82-95 | Histories only grow, and stop at the first terminal status |
| Orders.RaisingCallKeeps | server/src/execution/order_state.py:135-195 | A raising call leaves the order unchanged exactly when it is not a `mark_sent` with another exchange id nor a `mark_filled` with another quantity, price or a fee |
| Orders.SecondSendOverwrites | server/src/execution/order_state.py:135-138 | A second `mark_sent` raises and has replaced the exchange id, nothing else |
| Orders.LateFillOverwrites | server/src/execution/order_state.py:167-183 | After a terminal status every call raises, yet the filled quantity changes exactly on a late `mark_filled` with another quantity |
| Orders.AverageIsWeighted | server/src/execution/order_state.py:144-165 | After any partial fills, quantity and average × quantity are the sums over the fills |
| Orders.OrderStateMachine.constructor | server/src/execution/order_state.py:44-76 | A new order is NEW with history [NEW] |
| Orders.OrderStateMachine.Transition | server/src/execution/order_state.py:108-133 | The method computes the specified new state and raises exactly when specified |
| Orders.OrderStateMachine.Sent | server/src/execution/order_state.py:135-138 | Likewise; the exchange id is written even when the call raises |
| Orders.OrderStateMachine.Acked | server/src/execution/order_state.py:140-142 | Likewise |
| Orders.OrderStateMachine.PartiallyFilled | server/src/execution/order_state.py:144-165 | Likewise, with the running average |
| Orders.OrderStateMachine.FullyFilled | server/src/execution/order_state.py:167-183 | Likewise; quantity, price and fee are written even when the call raises |
| Orders.OrderStateMachine.Cancel | server/src/execution/order_state.py:185-189 | Likewise |
| Orders.OrderStateMachine.Reject | server/src/execution/order_state.py:191-195 | Likewise |
| Registry.EveryRun | server/src/execution/executor.py:180-211 | Under any interleaving of create, mark, sync, cancel and cleanup, active table, archive and trimmed orders are disjoint and without repeats, and the archive is terminal and within its limit |
| Registry.ActiveAreNonTerminal | server/src/execution/executor.py:761-788 | `get_active_orders` is exactly the created non-terminal orders, the archive holds only terminal ones, and every created order is in one place |
| Registry.OrdersAreMachines | server/src/execution/executor.py:690-759 | Whatever the registry did, each order's state is that of a fresh order after some sequence of calls |
| Registry.RegistryHistories | server/src/execution/executor.py:690-759 | So every registered order has a legal history |
| Registry.CancelRaises | server/src/execution/order_state.py:185-189 | In every run `mark_canceled` raises exactly for terminal orders |
| Registry.ArchivedForever | server/src/execution/executor.py:773-788 | An archived order never changes status or history again |
| Registry.SyncExactly | server/src/execution/executor.py:725-759 | A reported status is taken over exactly when the order has an exchange id, the status differs and the move is one of the listed ones; no other order is touched |
| Registry.CleanupExactly | server/src/execution/executor.py:773-788 | After a cleanup no terminal order is active and the archive holds the newest 10000 of the old archive and the moved orders |
| Registry.ExecutionEngine.constructor | server/src/execution/executor.py:95-96 | A new engine has no orders |
| Registry.ExecutionEngine.CreateOrder | server/src/execution/executor.py:180-211 | Adds a fresh NEW order at the end of the active table |
| Registry.ExecutionEngine.CancelOrder | server/src/execution/executor.py:690-723 | Cancels an active order the exchange agrees to cancel, and returns True exactly when `mark_canceled` went through |
| Registry.ExecutionEngine.SyncOrderStatus | server/src/execution/executor.py:725-759 | Takes over a reported status exactly when it is an allowed move, and returns it |
| Registry.ExecutionEngine.CleanupCompletedOrders | server/src/execution/executor.py:773-788 | Moves the terminal orders in table order and trims the archive to its newest 10000 |
| Correlation.CauchySchwarz | server/src/ai_optimizer/ensemble.py:165-181 | The Cauchy–Schwarz inequality for sequences |
| Correlation.PearsonRange | server/src/ai_optimizer/ensemble.py:165-181 | Pearson lies in [-1, 1] for all inputs |
| Correlation.PairCorrelationRange | server/src/ai_optimizer/ensemble.py:93-213 | So does every pair correlation, from trade logs or from types |
| PearsonLaws.PearsonExactly | server/src/ai_optimizer/ensemble.py:165-181 | The coefficient has the sign of Σ (x−x̄)(y−ȳ), and its square is that sum squared over the product of the sums of squares; 0 if one of them is |
| PearsonLaws.PearsonSymmetric | server/src/ai_optimizer/ensemble.py:165-181 | Exchanging the series changes nothing |
| PearsonLaws.PearsonAffine | server/src/ai_optimizer/ensemble.py:165-181 | A varying series correlates with a·x+b at 1 for a > 0 and at −1 for a < 0 |
| PearsonLaws.PearsonSelf | server/src/ai_optimizer/ensemble.py:165-181 | And with itself at 1 |
| PearsonLaws.DailySums | server/src/ai_optimizer/ensemble.py:183-196 | A day is listed exactly when a trade entered on it, with the sum of that day's returns |
| PearsonLaws.LogsUsed | server/src/ai_optimizer/ensemble.py:124-165 | Logs decide exactly with ten trades on each side and five common days, and the types otherwise |
| PearsonLaws.TypeTable | server/src/ai_optimizer/ensemble.py:198-213 | The type correlations as numbers: 0.8 for equal types, five listed pairs in either order, 0.4 otherwise |
| Ensemble.ComputeCorrelations | server/src/ai_optimizer/ensemble.py:93-122 | The nested loop lists the pairs i < j in order |
| Ensemble.AllPairsMembers | server/src/ai_optimizer/ensemble.py:93-122 | Exactly the pairs i < j, each with its own correlation |
| Ensemble.TableLookup | server/src/ai_optimizer/ensemble.py:246-249 | With distinct ids the table answers every pair, in both orders, with its correlation |
| Ensemble.FindBestCombination | server/src/ai_optimizer/ensemble.py:240-272 | The greedy loop computes the specified choice on the return-descending order |
| Ensemble.BuildTable | server/src/ai_optimizer/ensemble.py:246-249 | The table built from the pairs |
| Ensemble.CheckCompatible | server/src/ai_optimizer/ensemble.py:259-268 | The early-exit loop decides compatibility with everything chosen so far |
| Ensemble.ChosenCompatible | server/src/ai_optimizer/ensemble.py:253-272 | At most four are chosen and no two exceed the 0.7 cap |
| Ensemble.UnchosenExplained | server/src/ai_optimizer/ensemble.py:253-272 | An unchosen candidate arrives after four are chosen or exceeds the cap with one chosen before it; all chosen before it have at least its return |
| Ensemble.OutsiderExplained | server/src/ai_optimizer/ensemble.py:240-272 | With distinct ids: a non-member faces four members of at least its return, or a member of at least its return whose true correlation with it exceeds 0.7 |
| Ensemble.MembersCapped | server/src/ai_optimizer/ensemble.py:55-91 | With distinct ids, the true pair correlation of any two members is at most 0.7 |
| Ensemble.MembersDistinct | server/src/ai_optimizer/ensemble.py:240-272 | No two members share an id |
| Ensemble.DistinctTypes | server/src/ai_optimizer/discovery_engine.py:132-136 | Called without trade logs, as the discovery engine does, members have pairwise distinct types |
| EnsembleLaws.TwinsExcluded | server/src/ai_optimizer/ensemble.py:240-272 | Two candidates with one log of ten trades on five days, not all alike, are never both members |
| EnsembleLaws.FourMembers | server/src/ai_optimizer/ensemble.py:55-91 | At most four members, and an empty result for fewer than two candidates, as numbers |
| Ensemble.FullDiversity | server/src/ai_optimizer/ensemble.py:331-333 | So without trade logs the reported type diversity is the number of members |
| Ensemble.AllocateCapital | server/src/ai_optimizer/ensemble.py:274-297 | The loop computes the Sharpe-proportional allocations |
| Ensemble.AllocationTotal | server/src/ai_optimizer/ensemble.py:274-297 | Rounded allocations are non-negative and add to 100 within 0.05 per member |
| EnsembleLaws.AllocationExactly | server/src/ai_optimizer/ensemble.py:274-297 | Each allocation is a multiple of 0.1 within 0.05 of the member's share of the floored Sharpe ratios, in percent |
| EnsembleLaws.AllocationsProportional | server/src/ai_optimizer/ensemble.py:274-297 | So two allocations are in the proportion of their floored Sharpe ratios, within the rounding |
| Ensemble.DiversityFactorRange | server/src/ai_optimizer/ensemble.py:321-353 | The average and the maximum correlation of the members lie in [-1, 0.7], so the diversity factor lies in [0.79, 1.3] and its 0.5 floor is never reached |
| Ensemble.ExpectedDrawdownRange | server/src/ai_optimizer/ensemble.py:334-353 | The expected drawdown lies between 0.79 of the least and 1.3 of the largest member drawdown |
| Ensemble.ExpectedRange | server/src/ai_optimizer/ensemble.py:336-346 | Expected return and Sharpe, or any figure so weighted, lie between the members' least and largest |
| EnsembleLaws.ExpectedExactly | server/src/ai_optimizer/ensemble.py:336-346 | An expected figure times the total allocation is Σ figure · allocation |
| EnsembleLaws.DrawdownExactly | server/src/ai_optimizer/ensemble.py:334-353 | The same of the expected drawdown, scaled by 1 − 0.3 · the average correlation |
| EnsembleLaws.MemberPairs | server/src/ai_optimizer/ensemble.py:313-329 | With distinct ids exactly the m(m−1)/2 pairs of members enter the averages |
| EnsembleLaws.AverageExactly | server/src/ai_optimizer/ensemble.py:313-329 | The average correlation is their mean and the maximum correlation the largest of them |
| Ensemble.Analyze | server/src/ai_optimizer/ensemble.py:55-91 | The whole analysis with every figure of the result but the roles and overlaps; fewer than two candidates give an empty result |
| Selector.ApplyDiversityBonus | server/src/ai_optimizer/strategy_selector.py:170-191 | The in-place loop gives each candidate the bonus for the number of its type before it |
| Selector.EnforceTypeLimit | server/src/ai_optimizer/strategy_selector.py:193-210 | The loop with its count table keeps what the limit keeps |
| Selector.Split | server/src/ai_optimizer/strategy_selector.py:66-79 | Scoring and filtering into passed and rejected |
| Selector.Select | server/src/ai_optimizer/strategy_selector.py:55-101 | The whole selection: ranked, type-limited, numbered and cut, with the rejected ranked too |
| Selector.ScoresAddUp | server/src/ai_optimizer/strategy_selector.py:131-139 | Every candidate's score, bonus included, is the signed sum of its components |
| SelectorLaws.ComponentsExactly | server/src/ai_optimizer/strategy_selector.py:103-141 | What each component is worth: 30 points at 20% return, 25 at Sharpe 2, 15 less the drawdown, 15 at 100 trades, 15 or 8 for walk-forward, less 2 per parameter too many; at most 100 |
| SelectorLaws.BetterScores | server/src/ai_optimizer/strategy_selector.py:103-141 | A candidate at least as good in every figure scores at least as much |
| SelectorLaws.CheckExactly | server/src/ai_optimizer/strategy_selector.py:143-168 | A candidate passes exactly when it meets all seven criteria; the reason is the first it misses |
| SelectorLaws.BonusExactly | server/src/ai_optimizer/strategy_selector.py:170-191 | +5 for the first passing candidate of a type, nothing for the second, −3 for each later one |
| SelectorLaws.KeptGenuine | server/src/ai_optimizer/strategy_selector.py:55-101 | Every kept entry carries its candidate's own components and a score of their sum plus a bonus of 5, 0 or −3 |
| SelectorLaws.BetterRanks | server/src/ai_optimizer/strategy_selector.py:81-101 | Of two kept candidates one at least as good in every figure is at most 8 points behind, and never behind one with no larger bonus |
| Selector.SelectedRanking | server/src/ai_optimizer/strategy_selector.py:84-101 | The selected are score-descending with ranks 1, 2, ..., pass every criterion, and at most `max_same_type` share a type |
| Selector.DroppedExplained | server/src/ai_optimizer/strategy_selector.py:193-210 | Whatever the type limit drops has at least `max_same_type` kept peers of its type with at least its score |
| Selector.EveryCandidateOnce | server/src/ai_optimizer/strategy_selector.py:55-101 | Every input candidate is exactly one of kept, rejected and dropped |
| AverageCost.TradeModel.constructor | server/src/api/routes_analytics.py:334-353 | The trade fields the pass reads and its stored profit |
| AverageCost.RecomputeSymbol | server/src/api/routes_analytics.py:335-353 | One symbol's trades are rewritten from the book before each, and the processed sells counted |
| AverageCost.GroupBySymbol | server/src/api/routes_analytics.py:328-332 | Each symbol's trades, in order; symbols in order of first appearance |
| AverageCost.Recompute | server/src/api/routes_analytics.py:318-353 | Every trade's profit is rewritten from its own symbol's earlier trades alone; unprocessed sells keep theirs |
| AverageCost.Conservation | server/src/api/routes_analytics.py:338-353 | After any trades: profit written = processed sell proceeds − buy costs + cost still on the book |
| AverageCost.AverageKept | server/src/api/routes_analytics.py:351-353 | A processed sell leaves the average cost of the remainder unchanged |
| AverageCost.CoveredBook | server/src/api/routes_analytics.py:338-353 | Without overselling, the book holds what was bought and not sold, costs nothing when empty, and every sell is processed |
| AverageCost.RealisesExactly | server/src/api/routes_analytics.py:338-353 | Any history does exactly when the cost left on the book is the value of the skipped sells |
| AverageCost.ClosedExactly | server/src/api/routes_analytics.py:343-353 | A closed history whose sells all meet the guard realises proceeds − costs exactly when it ends in a sell or in a buy at the average price of the book before it (buys of nothing aside) |
| AverageCost.ClosedRealises | server/src/api/routes_analytics.py:338-353 | A closed history without overselling realises exactly proceeds − costs |
| AverageCost.OversoldFails | server/src/api/routes_analytics.py:343-353 | One bought at 10, two sold at 10, one bought back at any other price: closed, all processed, and off by the difference |
| AverageCost.AverageWithinPrices | server/src/api/routes_analytics.py:338-353 | The average cost stays between the lowest and highest buy price |
| AverageCost.SellingAboveCost | server/src/api/routes_analytics.py:343-347 | Selling at or above every buy price never shows a loss |
| TickAlign.AlignIsAligned | server/src/exchange/upbit.py:218-223 | The final `int` and `round` change nothing |
| TickAlign.AlignBounds | server/src/exchange/upbit.py:197-223 | The result is at or above the price by less than a tick, and a multiple of the input's tick |
| TickAlign.AlignOnGrid | server/src/exchange/upbit.py:197-223 | It is a multiple of its own band's tick, even when rounding up crosses a band edge |
| TickAlign.FixedExactlyOnGrid | server/src/exchange/upbit.py:197-223 | A price is unchanged exactly when it is a multiple of its band's tick |
| TickAlign.Idempotent | server/src/exchange/upbit.py:197-223 | Aligning twice is aligning once |
| TickAlign.Monotone | server/src/exchange/upbit.py:197-223 | Aligning keeps the order of prices, across all nine bands |
| TickAlign.LeastOnGrid | server/src/exchange/upbit.py:197-223 | The result is the least price on the grid not below the input |
| TickAlign.Bands | server/src/exchange/upbit.py:199-216 | The nine price bands and their ticks |
| TickAlign.AlignWithinOnePercent | server/src/exchange/upbit.py:197-223 | From a price of 1 on, aligning moves it by less than 1% |
| RoundRobin.CandleRefresher.RefreshCandles | server/src/engine/core.py:553-562 | One call watches exactly the symbols of its window and advances the round |
| RoundRobin.WindowSize | server/src/engine/core.py:555-556 | Every window is in range and holds between 1 and 15 symbols of a non-empty list |
| RoundRobin.RefreshedAt | server/src/engine/core.py:553-557 | Symbol i is refreshed at every round congruent to ⌊i/15⌋ modulo the number of symbols |
| RoundRobin.AnyLapCovers | server/src/engine/core.py:553-560 | Any n consecutive rounds refresh every one of n symbols |
| RoundRobin.FirstRoundsCover | server/src/engine/core.py:553-560 | The first ⌈n/15⌉ rounds already do, and each symbol's first refresh is at round ⌊i/15⌋ |
| RoundRobin.RefreshShare | server/src/engine/core.py:553-557 | Any n consecutive rounds refresh symbol i exactly 15 times if i ≥ 14, and g·(⌊i/g⌋+1) times before that, g being the greatest common divisor of 15 and n |

## Left out

- Binary floating point: all arithmetic is exact.
- Downloading, parsing and printing in `run_backtest.py`; an empty download raises IndexError at the printed timespan, before any step, and is not modelled. A candle's symbol and interval are dropped, since no modelled code reads them.
- Backtester.SimpleBacktester.RunBacktest: describes the object only for completed runs; what a raise leaves behind is described by `Tick` and `CloseRemaining`.
- The averages and exit-reason statistics of `_calculate_results`.
- The other indicators of `technical.py`, `feature_engine.py` and `candle_manager.py` (stochastic, band position, VWAP, OBV, range and higher-low counts): single expressions without state, whose laws would be easy.
- FifoMatcher.MatchGroup: one (symbol, strategy) group; splitting the orders into groups and the hold-time and label fields of a trade are not modelled.
- CommandQueue.Queue.TryResult: one look; the 0.1 s sleep and the timeout of `get_result` appear as polls that stop. Cancelling a task inside `put` is not modelled, and executing a command is a function of it.
- CommandQueue.Queue.PutRegister: ids are fresh, as generated; submitting one command object twice is not modelled.
- CommandQueue.Queue.GetNowait: called by the one engine loop only, which completes a command before it takes the next.
- CommandQueue.Queue.Complete: called by the drain loop only, for the command it has taken; completing another id is not modelled.
- CommandQueue.Queue.ProcessCommands: drains the queue while no other task runs; commands that arrive during the drain are covered by the interleavings of `CommandQueue.EveryRun`.
- The order fields `symbol`, `strategy`, `side`, `order_type`, `price` and the timestamps; `to_dict` and the log lines.
- Registry.ExecutionEngine.SyncOrderStatus: the exchange's answer is a parameter and the wait for it is no step of the method; what others do meanwhile is covered by the event interleavings of `Registry.EveryRun`.
- The maker, chase and hedge-recovery paths of `executor.py`, which read `order.fill_price`, a field the order class does not define.
- Ensemble.ComputeCorrelations: the overlap percentage of a pair, which only the report shows, is not modelled.
- Ensemble.AllocateCapital: the descriptive role of a member is not modelled.
- Database, HTTP and session code around `fix_trade_prices` and the exchange client; the waits and loads of `_refresh_candles`.
- `RiskEngine`, `RiskOverlay`, `PositionLedger`, `StopWatchdog` and the main backtest engine are not part of this model.
- `RoundController` and the other LLM-driven orchestration, the sandbox AST filter, live order sizing in `core.py`, reports and dashboards.
