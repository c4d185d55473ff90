# Strategy backtester — a verified model

This project models the strategy-simulation engine of a single-asset stock
backtester, together with its data validator and its download-list
selection. It is written in Dafny.

- **Signal generation.** One signal per daily bar: 1 buy, -1 sell, 0 hold.
  The strategies are buy-and-hold, the close crossing its 20-bar simple
  moving average, the 14-bar RSI crossing 30/70, and the 12/26 MACD line
  crossing its 9-bar signal line. An indicator value that pandas leaves
  undefined (NaN) is `None`. Any comparison with it is false, so it never
  fires a signal.
- **The portfolio.** The `Portfolio` object holds cash and whole shares. It
  buys all-in (`floor(cash / price)` shares) and sells the whole position.
  An order it cannot cover is rejected with zero shares executed.
- **The simulator.** It walks the bars in order. It buys on a buy signal only
  when flat, and sells on a sell signal only when holding. It logs each
  executed order and marks the portfolio to market at every close. An open
  position is sold at the last close.
- **The metrics.** Total return, annualised return (252 trading days a year),
  maximum drawdown against the running peak, and the win rate of the trade
  log taken two entries at a time.
- **The validator.** Per ticker it checks for fewer than 2000 rows, negative
  prices in each price column, a high below the low, and zero volume. Each
  failing check is reported with the number of failing rows, in a fixed
  order. A summary collects the tickers with issues, in input order.
- **The downloader's pure parts.** `clean_ticker` rewrites '.' to '-'. The
  skip-existing selection keeps only tickers not yet stored.

Layout, one module per file:

- `wrappers.dfy` — `Option`.
- `sequences.dfy` — order-preserving `Filter` and its lemmas.
- `portfolio.dfy` — `Holdings`, `BuyFill`, `SellFill`, and class `Portfolio`.
- `indicators.dfy` — SMA, RSI, EMA, MACD.
- `signals.dfy` — `SignalAt` and the array-based `GenerateSignals`.
- `simulation.dfy` — `Walk`/`Outcome` and the `Simulate` loop.
- `metrics.dfy` — the metrics and the win-rate loop.
- `backtest.dfy` — `CalculateMetrics`, `BacktestStrategy` and scenarios.
- `validator.dfy` — the validator and its summary.
- `downloader.dfy` — the downloader's pure parts.

Every imperative operation is a method, proved equal to a pure function:
`Simulate` to `Outcome`, `GenerateSignals` to `SignalColumn`, `WinRate` to
`WinRateOf`, `ValidateTicker` to `Issues`, and `ValidateAll` to a `Filter`
of the reports. Lemmas then prove the properties of those functions.

Two edge cases of the code carry over as it is written:

- **Drawdown at a zero peak.** `src/backtester.py:243-245` divides by the
  running peak without a guard, so a zero peak gives NaN or minus infinity.
  The model makes that drawdown, and with it the maximum drawdown, `None`.
- **RSI with no losses.** `src/backtester.py:106-107` gives an RSI of 100
  only when there were gains. When there were neither gains nor losses,
  0/0 leaves the RSI undefined, and the model makes it `None`.

## Model

| member | source | states |
|---|---|---|
| Portfolios.AllInFits | src/backtester.py:24-36 | at a positive price with non-negative cash, the all-in quantity `Affordable(cash, price)`, i.e. `floor(cash/price)`, is non-negative, costs no more than the cash, and leaves less than one share's price over |
| Portfolios.BuyFillProperties | src/backtester.py:19-36 | an accepted buy moves `price*q` from cash into `q` shares; a buy whose cost exceeds the cash executes 0 and changes nothing; an explicit quantity is executed exactly when affordable; cash stays non-negative; the order leaves the value at `price` unchanged; all-in at a positive price is never rejected and leaves less than one share's price in cash |
| Portfolios.SellFillProperties | src/backtester.py:38-55 | an accepted sell moves `q` shares into `price*q` cash; asking for more than is held executes 0 and changes nothing; with no quantity the whole position is sold, leaving 0 shares; shares stay non-negative; value at `price` unchanged |
| Portfolios.AllInBuy | src/backtester.py:24-36 | from a flat position at a positive price with non-negative cash, the all-in buy executes exactly `floor(cash/price)` shares and keeps the rest as cash |
| Portfolios.Portfolio.constructor | src/backtester.py:14-17 | a new portfolio holds the starting cash and no shares |
| Portfolios.Portfolio.Buy | src/backtester.py:19-36 | the new position and executed count are exactly those of `BuyFill` on the old position; the total value at `price` is unchanged |
| Portfolios.Portfolio.Sell | src/backtester.py:38-55 | the new position and executed count are exactly those of `SellFill` on the old position; the total value at `price` is unchanged |
| Portfolios.Portfolio.TotalValue | src/backtester.py:57-61 | with no shares the value is the cash; with non-negative cash, shares and price it is at least the cash |
| Indicators.SmaAt | src/backtester.py:78-79 | the 20-bar rolling mean is defined exactly from bar 19 on |
| Indicators.SmaOfConstant | src/backtester.py:78-79 | on a constant series the defined rolling mean equals the constant |
| Indicators.SumGains | src/backtester.py:98-103 | summed clipped-at-zero gains are non-negative |
| Indicators.SumLosses | src/backtester.py:98-104 | summed negated clipped losses are non-negative |
| Indicators.RsiAt | src/backtester.py:94-107 | a defined RSI occurs only from bar 14 on and lies in [0, 100] |
| Indicators.RsiOfConstant | src/backtester.py:98-107 | on a constant series the RSI is never defined (0/0) |
| Indicators.RsiOfRising | src/backtester.py:98-107 | on a strictly rising series the RSI is 100 from bar 14 on (no losses, positive gains) |
| Indicators.Alpha | src/backtester.py:124-128 | the EMA smoothing factor for a span of at least 1 lies in (0, 1] |
| Indicators.EmaBounded | src/backtester.py:124-128 | `EmaAt`, the adjust=False EMA, stays within any bounds that hold for the values averaged so far |
| Indicators.Convex | src/backtester.py:124-128 | one EMA step, a weighted mean of the new value and the previous average, stays within any bounds both respect |
| Indicators.MacdOfConstant | src/backtester.py:120-128 | on a constant series the MACD line (`MacdAt`) and its signal line (`MacdSignalAt`) are both 0 |
| Indicators.SmaCausal | src/backtester.py:78-79 | the rolling mean at bar `i` is the same when computed on any prefix that contains bar `i`: it reads no later close |
| Indicators.SumsAgree | src/backtester.py:98-104 | two series that agree up to a bar have the same summed gains and losses over any window ending there |
| Indicators.RsiCausal | src/backtester.py:94-107 | the RSI at bar `i` is the same when computed on any prefix that contains bar `i` |
| Indicators.EmaAgree | src/backtester.py:124-128 | `EmaAt` at bar `t` depends only on the values up to bar `t` |
| Indicators.MacdCausal | src/backtester.py:120-128 | `MacdAt` and `MacdSignalAt` at bar `t` are the same when computed on any prefix that contains bar `t` |
| Signals.Crossover | src/backtester.py:88-91 | buy exactly when both references are defined and the series goes from at-or-below to above; sell exactly when it goes from at-or-above to below |
| Signals.ThresholdCrossing | src/backtester.py:114-117 | buy exactly when a defined RSI falls from at least 30 to below 30; sell exactly when it rises from at most 70 to above 70 |
| Signals.SignalAt | src/backtester.py:64-142 | every signal is 1, -1 or 0; buy-and-hold sells exactly on the last bar and buys exactly on the first bar when there are two or more; SMA holds before bar 20, RSI up to bar 14, MACD before bar 35; an unknown strategy always holds |
| Signals.GenerateSignals | src/backtester.py:64-144 | the column written into the array has one entry per close, each a valid signal, and equals `SignalColumn`, the bar-by-bar definition |
| Signals.QuietOnConstant | src/backtester.py:77-142 | on a constant close series the SMA, RSI and MACD strategies hold on every bar |
| Signals.RsiQuietOnRising | src/backtester.py:110-117 | on a strictly rising series the RSI strategy holds on every bar |
| Signals.SignalAtCausal | src/backtester.py:77-142 | for the SMA, RSI and MACD strategies the signal at bar `i` is the same when computed on any prefix that contains bar `i`: no signal looks ahead |
| Simulation.Simulate | src/backtester.py:158-186 | the loop over the `Portfolio` object yields one value per bar and exactly the trades, values and final position of `Outcome`, the bar-by-bar definition |
| Simulation.WalkLength | src/backtester.py:161-175 | after `k` bars exactly `k` values have been recorded |
| Simulation.OutcomeLength | src/backtester.py:161-186 | a finished run has recorded one value per bar |
| Simulation.OutcomeOfLastBar | src/backtester.py:161-186 | a finished run is the last bar's step on the state before it, followed by the forced liquidation |
| Simulation.BarStepRecordsValue | src/backtester.py:161-175 | `BarStep`, one bar of the loop, appends exactly one value, the position after the bar's order marked at that bar's close |
| Simulation.BarStepKeepsInvariant | src/backtester.py:161-175 | one bar at a positive close keeps the simulator's invariant: non-negative cash and shares, a log of alternating buy/sell round trips of equal size, shares held exactly when the last round trip is open, and, with positive starting cash, positive value at every close |
| Simulation.BuyKeepsInvariant | src/backtester.py:167-170 | a buy signal acted on while flat keeps the invariant |
| Simulation.SellKeepsInvariant | src/backtester.py:172-175 | a sell signal acted on while holding keeps the invariant |
| Simulation.WalkInvariant | src/backtester.py:161-175 | `Walk`, the loop over the first `k` bars: after any number of bars of positive closes, the invariant holds and one value per bar has been recorded |
| Simulation.CloseOutProperties | src/backtester.py:177-186 | `CloseOut`, the forced liquidation, of a run that keeps the invariant leaves it flat with the position's value at the last close as cash, leaves the values alone, and leaves complete round trips whose only forced sale is the last entry |
| Simulation.OutcomeProperties | src/backtester.py:161-186 | every run ends with no shares and non-negative cash; the log is complete round trips with an even count; a forced sale can only be the last entry; there is one value per bar; the last value is the final cash; with positive starting cash every value is positive |
| Simulation.WalkWithoutBuys | src/backtester.py:161-175 | with no buy signal nothing is ever traded and every recorded value is the starting cash |
| Simulation.WalkCausal | src/backtester.py:161-175 | the state after `k` bars is the same when the loop runs on any prefix of dates, closes and signals that contains those bars |
| Metrics.TotalReturnGrowth | src/backtester.py:238 | `TotalReturn`: the starting cash grown by the returned percentage is the final cash; 0 exactly when the cash is unchanged; positive exactly when it grew; at least -100 when the final cash is non-negative |
| Metrics.AnnualReturnProperties | src/backtester.py:240-241 | `AnnualReturn`: a total return of -100 or worse gives -100; otherwise the base of the power is positive; the result is at least -100 when the power of a positive base is positive, and 0 for a zero total return when `1^e = 1` |
| Metrics.Peak | src/backtester.py:243 | the running peak is at least every value so far and equal to one of them |
| Metrics.DrawdownAtRange | src/backtester.py:243-244 | on positive values each drawdown (`DrawdownAt`) is defined, lies in (-100, 0], and is 0 exactly at the running peak |
| Metrics.LowestDrawdownIsMinimum | src/backtester.py:243-245 | `LowestDrawdown` over bars 0 .. t is their minimum: defined exactly when every drawdown so far is, then at most each of them and equal to one of them |
| Metrics.MaxDrawdownIsMinimum | src/backtester.py:243-245 | `MaxDrawdown` is the minimum of the whole drawdown series: defined exactly when every drawdown is, then at most each of them and equal to one of them |
| Metrics.LowestDrawdownRange | src/backtester.py:243-245 | on positive values the lowest drawdown so far is defined and lies in (-100, 0] |
| Metrics.LowestDrawdownZero | src/backtester.py:243-245 | on positive values the lowest drawdown so far is 0 exactly when the values so far never decrease |
| Metrics.MaxDrawdownProperties | src/backtester.py:243-245 | on positive values the maximum drawdown is defined, lies in (-100, 0], and is 0 exactly when the series never decreases |
| Metrics.PairOutcomes | src/backtester.py:249-250 | the log yields one win/loss flag per complete pair of entries |
| Metrics.WinRate | src/backtester.py:247-253 | the loop's rate equals `WinRateOf` (the percentage of pairs whose exit price beats the entry), lies in [0, 100], and is 0 for fewer than two trades |
| Backtest.CalculateMetrics | src/backtester.py:203-264 | the metrics are those of the simulated run (value series, trade count, total and annual return, drawdown, win rate), with one value per bar and a win rate in [0, 100] |
| Backtest.RunMetricsOfPositiveRun | src/backtester.py:238-253 | a flat, solvent run of round trips with positive values ending at its cash has an even trade count, a total return of at least -100 that is the return of the last value, a defined drawdown in (-100, 0], and a last value equal to the starting cash grown by the total return |
| Backtest.MetricsOfPositiveRun | src/backtester.py:203-264 | on positive closes and cash the metrics have one value per bar, an even trade count, a total return of at least -100 that is the return of the last marked value, and a defined drawdown in (-100, 0] |
| Backtest.BacktestStrategy | src/backtester.py:147-200 | no report exactly when there are no bars; otherwise the report carries the first and last dates, the final cash, the total return and the trade log of the simulated run; on positive closes and cash the ending cash is non-negative and the log is complete round trips |
| Backtest.BuyAndHoldExample | src/backtester.py:147-200 | buy-and-hold on closes 10, 11, 9, 12, 8 with 100 cash buys 10 shares, sells them at 8, marks 100, 110, 90, 120, 80, returns -20% and wins 0% |
| Backtest.QuietOnConstantSeries | src/backtester.py:203-264 | on constant positive closes the indicator strategies never trade: cash unchanged, 0% return, 0 drawdown, 0% win rate |
| Backtest.RsiIdleOnRisingSeries | src/backtester.py:93-117 | on a strictly rising series the RSI strategy never trades |
| Backtest.BuyAndHoldShape | src/backtester.py:72-75 | over two or more bars the buy-and-hold column buys on the first bar, sells on the last and holds in between |
| Backtest.EnterOnFirstBar | src/backtester.py:167-170 | a buy signal on a flat position puts the cash into the affordable whole shares and logs one buy, unless no share is affordable |
| Backtest.BuyAndHoldHolding | src/backtester.py:161-175 | for a column that buys first, sells last and holds in between, the all-in position bought on the first bar is held, untouched, until the last bar, with one buy logged (none if no share was affordable) |
| Backtest.SellThenCloseOut | src/backtester.py:172-186 | a sell signal followed by the forced liquidation turns a long position of `q` shares into its cash plus `q` times the price, logging one sell when `q` is positive |
| Backtest.ExitOnLastBar | src/backtester.py:172-186 | a sell signal on the last bar turns the position held before it into cash at the last close, logging one sell when shares were held |
| Backtest.BuyAndHoldExit | src/backtester.py:161-186 | for a column that buys first, sells last and holds in between, the run ends with no shares and the all-in shares' round trip settled in cash at the last close, logging exactly that buy and that sell |
| Backtest.WholeShareReturn | src/backtester.py:238 | when the cash buys a whole number of shares, the round trip's total return is the price return |
| Backtest.NoLookahead | src/backtester.py:157-175 | for the SMA, RSI and MACD strategies the simulated state after `k` bars is the same when the whole backtest (signals and loop) runs on any prefix of the data that contains those bars: a trade never depends on a later close |
| Backtest.BuyAndHoldReturn | src/backtester.py:147-200 | buy-and-hold ends flat with the starting cash plus shares times the price change, and two trades unless no share was affordable; with whole-share cash its return is the price return |
| Validator.CountFailing | src/validator.py:31 | the number of failing rows is at most the number of rows |
| Validator.CountPositive | src/validator.py:29-43 | a check's row count is positive exactly when some row fails it |
| Validator.ValidateTicker | src/validator.py:6-45 | the report has the ticker, the row count, and exactly the issues `Issues(bars)` built by the successive appends |
| Validator.CandidatesShape | src/validator.py:24-43 | the potential issues are the row count, then one per price column in the order open, high, low, close, then high/low and volume |
| Validator.FlagIsCandidate | src/validator.py:28-43 | every check's potential issue is among the candidates |
| Validator.CandidatesRanked | src/validator.py:25-43 | the seven potential issues are listed in the fixed order row count, open, high, low, close, high/low, volume |
| Validator.IssuesRaised | src/validator.py:18-45 | a row-count issue exactly when there are fewer than 2000 rows; for each check an issue exactly when some row fails it, with the count of failing rows; nothing else |
| Validator.IssuesOrdered | src/validator.py:24-45 | at most seven issues, in the fixed order row count, open, high, low, close, high/low, volume |
| Validator.IssuesEmptyIffClean | src/validator.py:24-45 | the issue list is empty exactly when there are at least 2000 rows and no row fails any check |
| Validator.ValidateAll | src/validator.py:49-82 | the summary counts every ticker, lists the reports with issues in input order, and counts them |
| Validator.SummaryProperties | src/validator.py:66-80 | the listed reports are a subsequence of all reports; a ticker's report is listed exactly when its bars are not clean; none are listed exactly when every ticker is clean |
| Downloader.CleanTicker | src/downloader.py:72 | the same length, every '.' replaced by '-' in place, every other character unchanged, and no '.' left |
| Downloader.CleanTickerIdempotent | src/downloader.py:72 | cleaning twice is cleaning once |
| Downloader.CleanTickerWithoutDot | src/downloader.py:72 | a ticker with no '.' is unchanged |
| Downloader.TickersToDownload | src/downloader.py:44-49 | without skipping the list is unchanged; with skipping no selected ticker is stored already |
| Downloader.SkipExistingSelection | src/downloader.py:44-47 | with skipping the selection keeps the input order, contains exactly the input tickers not stored, and each as often as in the input |

## Left out

- Database access (`get_ohlcv`, `get_existing_tickers`, `insert_ohlcv`) is not part of this model. Bars, dates, closes and the ticker list are parameters. A ticker with nothing stored has no bars.
- Network fetches (`download_ticker`, the ticker-list scrape) and the success/failure counters of `download_all_tickers` are not modelled. They depend on I/O outcomes.
- Plotting, the web UI, the command-line entry points and all console messages are not modelled.
- IEEE floating point is not modelled. Prices, cash and indicators are exact reals. Only the observable effects of non-finite values are kept: an undefined (`None`) indicator or drawdown, and an RSI of 100 for a zero average loss with gains.
- Rounding of the reported figures to two decimals is not modelled.
- Metrics.AnnualReturnProperties: the fractional power `x ** (1/years)` is the parameter `pow`, so the annualised figure is proved only relative to that function.
- Metrics.MaxDrawdown: `None` stands for both NaN and minus infinity. A zero running peak gives either value; the model does not say which.
- Simulation.Simulate: requires every close to be nonzero. The source fails only when a buy is acted on at a zero close, through floor division by the price. `Backtest.CalculateMetrics` and `Backtest.BacktestStrategy` inherit this requirement.
- Backtest.CalculateMetrics: requires at least one bar, because the source cannot complete on an empty series. It labels the forced sale "SELL" where `backtest_strategy` labels it "SELL (end)". The model runs one simulation for both, so the label is `SellAtEnd` in both. The metrics use only prices and the trade count, so this does not affect them.
- Backtest.CalculateMetrics: requires a nonzero starting cash, because the source divides by `starting_cash` for the total return (`src/backtester.py:238`); its callers pass at least 1000.
- Backtest.BacktestStrategy: requires nonzero closes, inherited from `Simulation.Simulate`, and a nonzero starting cash when there are bars, because the source divides by `starting_cash` (`src/backtester.py:188`).
- Signals.SignalAtCausal: states no lookahead only for the SMA, RSI and MACD strategies. Buy-and-hold places its sell on the last bar of the series (`src/backtester.py:72-75`), so its signals do depend on the series length. `Backtest.NoLookahead` has the same scope.
- Trade records: the metrics' trade log in the source holds only action and price. The model's log also carries the date and the share count, as `backtest_strategy`'s does.
- Validator.ValidateTicker: issues are structured values (the check and the row count), not the formatted message strings. Missing (NaN) prices in stored bars are not modelled: a comparison with NaN is false, so such a row would fail no check.
- The `verbose` progress printing of `validate_all_tickers` is not modelled.
