/**
 * One backtest of one ticker against one strategy: signals, simulation and
 * metrics in sequence, as the detailed backtest report and as the metrics
 * record used for strategy comparison.
 */
module Backtest {
  import opened Wrappers
  import opened Portfolios
  import opened Signals
  import opened Simulation
  import opened Metrics

  datatype MetricsResult = MetricsResult(
    ticker: string, strategy: Strategy,
    totalReturn: real, annualReturn: real, maxDrawdown: Option<real>,
    numTrades: nat, winRate: real, portfolioValues: seq<real>)

  datatype BacktestResult = BacktestResult(
    ticker: string, strategy: Strategy, startDate: Date, endDate: Date,
    startingCash: real, endingCash: real, totalReturn: real,
    numTrades: nat, trades: seq<Trade>)

  /** Inputs the metrics accept: one date per close, no zero close, nonzero starting cash, at least one bar. */
  predicate MetricsInputs(dates: seq<Date>, closes: seq<real>, startingCash: real) {
    |closes| > 0 && |dates| == |closes| &&
    (forall i :: 0 <= i < |closes| ==> closes[i] != 0.0) &&
    startingCash != 0.0
  }

  /** The metrics of a finished run over `bars` bars. */
  function RunMetrics(ticker: string, strategy: Strategy, run: Run, bars: nat, startingCash: real,
                      pow: (real, real) -> real): MetricsResult
    requires |run.values| > 0 && bars > 0 && startingCash != 0.0
  {
    var total := TotalReturn(run.position.cash, startingCash);
    MetricsResult(ticker, strategy, total, AnnualReturn(total, bars, pow), MaxDrawdown(run.values),
                  |run.trades|, WinRateOf(run.trades), run.values)
  }

  /** The metrics of the simulated run of `strategy` over the bars. */
  function MetricsOf(ticker: string, dates: seq<Date>, closes: seq<real>, strategy: Strategy,
                     startingCash: real, pow: (real, real) -> real): MetricsResult
    requires MetricsInputs(dates, closes, startingCash)
  {
    var run := Outcome(dates, closes, SignalColumn(closes, strategy), startingCash);
    OutcomeLength(dates, closes, SignalColumn(closes, strategy), startingCash);
    RunMetrics(ticker, strategy, run, |closes|, startingCash, pow)
  }

  /**
   * The metrics of a flat, solvent run of round trips whose values are all
   * positive and end at its cash: an even trade count, a total return of at
   * least -100, a defined drawdown in (-100, 0], and a last value equal to
   * the starting cash grown by the total return.
   */
  lemma RunMetricsOfPositiveRun(ticker: string, strategy: Strategy, run: Run, bars: nat, startingCash: real,
                                pow: (real, real) -> real)
    requires |run.values| == bars > 0 && startingCash > 0.0
    requires |run.trades| % 2 == 0 && run.position.cash >= 0.0
    requires AllPositive(run.values) && run.values[bars - 1] == run.position.cash
    ensures var m := RunMetrics(ticker, strategy, run, bars, startingCash, pow);
      && m.numTrades % 2 == 0
      && m.totalReturn >= -100.0
      && m.maxDrawdown.Some? && -100.0 < m.maxDrawdown.value <= 0.0
      && m.totalReturn == TotalReturn(m.portfolioValues[bars - 1], startingCash)
      && m.portfolioValues[bars - 1] == startingCash * (1.0 + m.totalReturn / 100.0)
  {
    MaxDrawdownProperties(run.values);
    TotalReturnGrowth(run.position.cash, startingCash);
  }

  /**
   * On positive prices and cash the metrics describe a run of round trips
   * only, with a defined drawdown in (-100, 0], a total return of at least
   * -100 that is the return of the last marked value.
   */
  lemma MetricsOfPositiveRun(ticker: string, dates: seq<Date>, closes: seq<real>, strategy: Strategy,
                             startingCash: real, pow: (real, real) -> real)
    requires MetricsInputs(dates, closes, startingCash) && Positive(closes) && startingCash > 0.0
    ensures var m := MetricsOf(ticker, dates, closes, strategy, startingCash, pow);
      && |m.portfolioValues| == |closes|
      && m.numTrades % 2 == 0
      && m.totalReturn >= -100.0
      && m.maxDrawdown.Some? && -100.0 < m.maxDrawdown.value <= 0.0
      && m.totalReturn == TotalReturn(m.portfolioValues[|closes| - 1], startingCash)
  {
    var signals := SignalColumn(closes, strategy);
    var run := Outcome(dates, closes, signals, startingCash);
    OutcomeProperties(dates, closes, signals, startingCash);
    RunMetricsOfPositiveRun(ticker, strategy, run, |closes|, startingCash, pow);
  }

  /**
   * Metrics of one strategy on one ticker's bars (which must not be empty:
   * the annualisation divides by the number of bars and the drawdown takes a
   * minimum). `pow` is real exponentiation.
   */
  method CalculateMetrics(ticker: string, dates: seq<Date>, closes: seq<real>, strategy: Strategy,
                          startingCash: real, pow: (real, real) -> real)
    returns (m: MetricsResult)
    requires MetricsInputs(dates, closes, startingCash)
    ensures m == MetricsOf(ticker, dates, closes, strategy, startingCash, pow)
    ensures |m.portfolioValues| == |closes|
    ensures 0.0 <= m.winRate <= 100.0
  {
    var signals := GenerateSignals(closes, strategy);
    var trades, values, final := Simulate(dates, closes, signals, startingCash);
    var totalReturn := TotalReturn(final.cash, startingCash);
    var annualReturn := AnnualReturn(totalReturn, |closes|, pow);
    var maxDrawdown := MaxDrawdown(values);
    var winRate := WinRate(trades);
    m := MetricsResult(ticker, strategy, totalReturn, annualReturn, maxDrawdown, |trades|, winRate, values);
  }

  /** The detailed backtest report; nothing (None) when there are no bars. */
  method BacktestStrategy(ticker: string, dates: seq<Date>, closes: seq<real>, strategy: Strategy, startingCash: real)
    returns (r: Option<BacktestResult>)
    requires |dates| == |closes|
    requires forall i :: 0 <= i < |closes| ==> closes[i] != 0.0
    requires |closes| > 0 ==> startingCash != 0.0
    ensures r.None? <==> |closes| == 0
    ensures r.Some? ==>
      var run := Outcome(dates, closes, SignalColumn(closes, strategy), startingCash);
      r.value == BacktestResult(ticker, strategy, dates[0], dates[|dates| - 1], startingCash, run.position.cash,
                                TotalReturn(run.position.cash, startingCash), |run.trades|, run.trades)
    ensures r.Some? && Positive(closes) && startingCash > 0.0 ==>
      r.value.endingCash >= 0.0 && RoundTrips(r.value.trades) && r.value.numTrades % 2 == 0
  {
    if |closes| == 0 {
      return None;
    }
    var signals := GenerateSignals(closes, strategy);
    var trades, values, final := Simulate(dates, closes, signals, startingCash);
    var totalReturn := TotalReturn(final.cash, startingCash);
    r := Some(BacktestResult(ticker, strategy, dates[0], dates[|dates| - 1], startingCash, final.cash,
                             totalReturn, |trades|, trades));
    if Positive(closes) && startingCash > 0.0 {
      OutcomeProperties(dates, closes, signals, startingCash);
    }
  }

  // ---------------------------------------------------------------- scenarios

  /** Buy-and-hold on closes 10, 11, 9, 12, 8 with 100 in cash: 10 shares bought, sold at 8, 80 in cash, -20%. */
  lemma BuyAndHoldExample(dates: seq<Date>)
    requires |dates| == 5
    ensures var closes := [10.0, 11.0, 9.0, 12.0, 8.0];
      var run := Outcome(dates, closes, SignalColumn(closes, BuyAndHold), 100.0);
      && run.position == Holdings(80.0, 0)
      && run.trades == [Trade(dates[0], Buy, 10.0, 10), Trade(dates[4], Sell, 8.0, 10)]
      && run.values == [100.0, 110.0, 90.0, 120.0, 80.0]
      && TotalReturn(run.position.cash, 100.0) == -20.0
      && WinRateOf(run.trades) == 0.0
  {
    var closes := [10.0, 11.0, 9.0, 12.0, 8.0];
    var signals := SignalColumn(closes, BuyAndHold);
    assert signals == [1, 0, 0, 0, -1];
    assert Affordable(100.0, 10.0) == 10;
    assert BuyFill(Holdings(100.0, 0), 10.0, None) == Fill(Holdings(0.0, 10), 10);
    assert Walk(dates, closes, signals, 100.0, 0) == Run(Holdings(100.0, 0), [], []);
    var w1 := Walk(dates, closes, signals, 100.0, 1);
    assert w1 == Run(Holdings(0.0, 10), [Trade(dates[0], Buy, 10.0, 10)], [100.0]);
    var w2 := Walk(dates, closes, signals, 100.0, 2);
    assert w2 == Run(Holdings(0.0, 10), [Trade(dates[0], Buy, 10.0, 10)], [100.0, 110.0]);
    var w3 := Walk(dates, closes, signals, 100.0, 3);
    assert w3 == Run(Holdings(0.0, 10), [Trade(dates[0], Buy, 10.0, 10)], [100.0, 110.0, 90.0]);
    var w4 := Walk(dates, closes, signals, 100.0, 4);
    assert w4 == Run(Holdings(0.0, 10), [Trade(dates[0], Buy, 10.0, 10)], [100.0, 110.0, 90.0, 120.0]);
    var w5 := Walk(dates, closes, signals, 100.0, 5);
    assert w5 == Run(Holdings(80.0, 0), [Trade(dates[0], Buy, 10.0, 10), Trade(dates[4], Sell, 8.0, 10)],
                     [100.0, 110.0, 90.0, 120.0, 80.0]);
    assert PairOutcomes(w5.trades) == [false];
  }

  /**
   * On a constant series of positive closes the indicator strategies never
   * trade: the run ends with the starting cash, a 0% return, no drawdown and
   * a 0% win rate.
   */
  lemma QuietOnConstantSeries(dates: seq<Date>, closes: seq<real>, strategy: Strategy, startingCash: real)
    requires |closes| > 0 && |dates| == |closes| && !strategy.BuyAndHold?
    requires closes[0] > 0.0 && forall j :: 0 <= j < |closes| ==> closes[j] == closes[0]
    requires startingCash > 0.0
    ensures var run := Outcome(dates, closes, SignalColumn(closes, strategy), startingCash);
      && run.position == Holdings(startingCash, 0)
      && run.trades == []
      && TotalReturn(run.position.cash, startingCash) == 0.0
      && MaxDrawdown(run.values) == Some(0.0)
      && WinRateOf(run.trades) == 0.0
  {
    var signals := SignalColumn(closes, strategy);
    forall i | 0 <= i < |closes|
      ensures signals[i] == HOLD
    {
      QuietOnConstant(closes, strategy, i);
    }
    WalkWithoutBuys(dates, closes, signals, startingCash, |closes|);
    var values := seq(|closes|, _ => startingCash);
    MaxDrawdownProperties(values);
  }

  /** On a strictly rising series of positive closes the RSI strategy never trades. */
  lemma RsiIdleOnRisingSeries(dates: seq<Date>, closes: seq<real>, startingCash: real)
    requires |dates| == |closes| && Positive(closes)
    requires forall j :: 1 <= j < |closes| ==> closes[j - 1] < closes[j]
    ensures Outcome(dates, closes, SignalColumn(closes, Rsi), startingCash).trades == []
  {
    var signals := SignalColumn(closes, Rsi);
    forall i | 0 <= i < |closes|
      ensures signals[i] == HOLD
    {
      RsiQuietOnRising(closes, i);
    }
    WalkWithoutBuys(dates, closes, signals, startingCash, |closes|);
  }

  /** The shape of a buy-and-hold signal column over two or more bars: buy first, sell last, hold in between. */
  predicate EntersFirstExitsLast(signals: seq<int>) {
    |signals| >= 2 && signals[0] == BUY && signals[|signals| - 1] == SELL &&
    forall i :: 0 < i < |signals| - 1 ==> signals[i] == HOLD
  }

  lemma BuyAndHoldShape(closes: seq<real>)
    requires |closes| >= 2
    ensures EntersFirstExitsLast(SignalColumn(closes, BuyAndHold))
  {
  }

  /** A buy signal on a flat position puts all the cash into whole shares. */
  lemma EnterOnFirstBar(start: Run, date: Date, price: real, cash: real)
    requires price > 0.0 && cash >= 0.0 && start.position == Holdings(cash, 0)
    ensures var r := BarStep(start, date, price, BUY);
      && r.position == Holdings(cash - price * Affordable(cash, price) as real, Affordable(cash, price))
      && r.trades == start.trades + (if Affordable(cash, price) != 0 then [Trade(date, Buy, price, Affordable(cash, price))] else [])
  {
    AllInBuy(cash, price);
    if Affordable(cash, price) == 0 {
      assert start.trades + [] == start.trades;
    }
  }

  /** Between the entry on the first bar and the exit on the last, buy-and-hold holds its position untouched. */
  lemma {:induction false} BuyAndHoldHolding(dates: seq<Date>, closes: seq<real>, signals: seq<int>, startingCash: real, k: nat)
    requires WellFormed(dates, closes, signals) && Positive(closes) && startingCash >= 0.0
    requires EntersFirstExitsLast(signals) && 1 <= k < |closes|
    ensures var q := Affordable(startingCash, closes[0]);
      var w := Walk(dates, closes, signals, startingCash, k);
      && q >= 0
      && w.position == Holdings(startingCash - closes[0] * q as real, q)
      && w.trades == (if q != 0 then [Trade(dates[0], Buy, closes[0], q)] else [])
  {
    // No local names for the prices or the share count: the products below
    // must be the very terms of the lemmas' contracts.
    AllInFits(startingCash, closes[0]);
    if k == 1 {
      assert Walk(dates, closes, signals, startingCash, 1)
          == BarStep(Run(Holdings(startingCash, 0), [], []), dates[0], closes[0], BUY);
      EnterOnFirstBar(Run(Holdings(startingCash, 0), [], []), dates[0], closes[0], startingCash);
    } else {
      BuyAndHoldHolding(dates, closes, signals, startingCash, k - 1);
      assert signals[k - 1] == HOLD;
    }
  }

  /** A sell signal followed by the forced liquidation turns a long position of `q` shares into cash. */
  lemma SellThenCloseOut(before: Run, date: Date, price: real, cash: real, q: int)
    requires price > 0.0 && q >= 0 && before.position == Holdings(cash, q)
    ensures var r := CloseOut(BarStep(before, date, price, SELL), date, price);
      && r.position == Holdings(cash + price * q as real, 0)
      && r.trades == before.trades + (if q != 0 then [Trade(date, Sell, price, q)] else [])
  {
    if q == 0 {
      assert cash + price * q as real == cash;
      assert before.trades + [] == before.trades;
    }
  }

  /** A sell signal on the last bar, then the forced liquidation, turns a long position of `q` shares into cash. */
  lemma ExitOnLastBar(dates: seq<Date>, closes: seq<real>, signals: seq<int>, startingCash: real, cash: real, q: int)
    requires WellFormed(dates, closes, signals) && |closes| > 0
    requires closes[|closes| - 1] > 0.0 && signals[|closes| - 1] == SELL && q >= 0
    requires Walk(dates, closes, signals, startingCash, |closes| - 1).position == Holdings(cash, q)
    ensures var n := |closes|;
      var r := Outcome(dates, closes, signals, startingCash);
      && r.position == Holdings(cash + closes[n - 1] * q as real, 0)
      && r.trades == Walk(dates, closes, signals, startingCash, n - 1).trades
                     + (if q != 0 then [Trade(dates[n - 1], Sell, closes[n - 1], q)] else [])
  {
    OutcomeOfLastBar(dates, closes, signals, startingCash);
    SellThenCloseOut(Walk(dates, closes, signals, startingCash, |closes| - 1), dates[|closes| - 1], closes[|closes| - 1], cash, q);
  }

  /** Buy-and-hold over two or more bars sells its whole-share position at the last close. */
  lemma BuyAndHoldExit(dates: seq<Date>, closes: seq<real>, signals: seq<int>, startingCash: real)
    requires WellFormed(dates, closes, signals) && Positive(closes) && startingCash > 0.0
    requires EntersFirstExitsLast(signals)
    ensures var n, q := |closes|, Affordable(startingCash, closes[0]);
      var run := Outcome(dates, closes, signals, startingCash);
      && run.position == Holdings((startingCash - closes[0] * q as real) + closes[n - 1] * q as real, 0)
      && run.trades == (if q != 0 then [Trade(dates[0], Buy, closes[0], q), Trade(dates[n - 1], Sell, closes[n - 1], q)] else [])
  {
    // No local names for the prices or the share count: the products below
    // must be the very terms of the lemmas' contracts.
    BuyAndHoldHolding(dates, closes, signals, startingCash, |closes| - 1);
    ExitOnLastBar(dates, closes, signals, startingCash,
                  startingCash - closes[0] * Affordable(startingCash, closes[0]) as real, Affordable(startingCash, closes[0]));
  }

  /** Whole shares bought with all the cash at c0 and sold at cn return the price change. */
  lemma WholeShareReturn(startingCash: real, c0: real, cn: real, q: int)
    requires c0 > 0.0 && c0 * q as real == startingCash && startingCash != 0.0
    ensures TotalReturn((startingCash - c0 * q as real) + cn * q as real, startingCash) == (cn - c0) / c0 * 100.0
  {
    var cash := (startingCash - c0 * q as real) + cn * q as real;
    assert cash == cn * q as real;
    assert (cash - startingCash) / startingCash == (cn - c0) / c0 by {
      assert cash - startingCash == (cn - c0) * q as real;
      assert startingCash == c0 * q as real;
      Quotient(cash - startingCash, startingCash, (cn - c0) / c0);
    }
  }

  /**
   * Buy-and-hold over two or more bars ends flat with the starting cash plus
   * the whole shares bought times the price change; when the starting cash
   * buys a whole number of shares its return is the price return.
   */
  lemma BuyAndHoldReturn(dates: seq<Date>, closes: seq<real>, startingCash: real)
    requires |dates| == |closes| >= 2 && Positive(closes) && startingCash > 0.0
    ensures var n, q := |closes|, Affordable(startingCash, closes[0]);
      var run := Outcome(dates, closes, SignalColumn(closes, BuyAndHold), startingCash);
      && run.position.shares == 0
      && run.position.cash == startingCash + q as real * (closes[n - 1] - closes[0])
      && |run.trades| == (if q != 0 then 2 else 0)
      && (closes[0] * q as real == startingCash ==>
            TotalReturn(run.position.cash, startingCash) == (closes[n - 1] - closes[0]) / closes[0] * 100.0)
  {
    var n, q := |closes|, Affordable(startingCash, closes[0]);
    BuyAndHoldShape(closes);
    BuyAndHoldExit(dates, closes, SignalColumn(closes, BuyAndHold), startingCash);
    if closes[0] * q as real == startingCash {
      WholeShareReturn(startingCash, closes[0], closes[n - 1], q);
    }
  }

  /**
   * No lookahead, end to end: for an indicator strategy the state after `k`
   * bars (position, trade log and values) is the same whether the backtest
   * sees the whole series or only its first `m` bars.
   */
  lemma NoLookahead(dates: seq<Date>, closes: seq<real>, strategy: Strategy, startingCash: real, k: nat, m: nat)
    requires |dates| == |closes| && (forall i :: 0 <= i < |closes| ==> closes[i] != 0.0)
    requires !strategy.BuyAndHold? && k <= m <= |closes|
    ensures Walk(dates[..m], closes[..m], SignalColumn(closes[..m], strategy), startingCash, k)
         == Walk(dates, closes, SignalColumn(closes, strategy), startingCash, k)
  {
    var signals := SignalColumn(closes, strategy);
    forall i | 0 <= i < m
      ensures SignalColumn(closes[..m], strategy)[i] == signals[..m][i]
    {
      SignalAtCausal(closes, strategy, m, i);
    }
    assert SignalColumn(closes[..m], strategy) == signals[..m];
    WalkCausal(dates, closes, signals, startingCash, k, m);
  }
}
