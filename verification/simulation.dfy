/**
 * The walk-forward simulator: the bars are visited in order, a buy signal is
 * acted on only when no shares are held and a sell signal only when some are,
 * every executed order is logged, and the portfolio is marked to market at
 * each close. An open position is sold at the last close.
 */
module Simulation {
  import opened Wrappers
  import opened Portfolios

  type Date = string

  /** BUY, SELL, and the forced sale at the end of the test. */
  datatype Action = Buy | Sell | SellAtEnd

  datatype Trade = Trade(date: Date, action: Action, price: real, shares: int)

  /** The simulator's state after a prefix of the bars: position, trade log, value series. */
  datatype Run = Run(position: Holdings, trades: seq<Trade>, values: seq<real>)

  /** Inputs the simulator accepts: one date and one signal per close, and no zero close (a buy divides by the price). */
  predicate WellFormed(dates: seq<Date>, closes: seq<real>, signals: seq<int>) {
    |dates| == |closes| == |signals| &&
    forall i :: 0 <= i < |closes| ==> closes[i] != 0.0
  }

  predicate Positive(closes: seq<real>) {
    forall i :: 0 <= i < |closes| ==> closes[i] > 0.0
  }

  /** One bar of the loop: act on the signal if the state allows it, then record the value at the close. */
  function BarStep(r: Run, date: Date, price: real, signal: int): Run
    requires price != 0.0
  {
    if signal == 1 && r.position.shares == 0 then
      var f := BuyFill(r.position, price, None);
      Run(f.after,
          if f.executed != 0 then r.trades + [Trade(date, Buy, price, f.executed)] else r.trades,
          r.values + [Value(f.after, price)])
    else if signal == -1 && r.position.shares > 0 then
      var f := SellFill(r.position, price, None);
      Run(f.after,
          if f.executed != 0 then r.trades + [Trade(date, Sell, price, f.executed)] else r.trades,
          r.values + [Value(f.after, price)])
    else
      Run(r.position, r.trades, r.values + [Value(r.position, price)])
  }

  /** The state after the first `k` bars. */
  function Walk(dates: seq<Date>, closes: seq<real>, signals: seq<int>, startingCash: real, k: nat): Run
    requires WellFormed(dates, closes, signals) && k <= |closes|
  {
    if k == 0 then Run(Holdings(startingCash, 0), [], [])
    else BarStep(Walk(dates, closes, signals, startingCash, k - 1), dates[k - 1], closes[k - 1], signals[k - 1])
  }

  /** Forced liquidation: a position still open is sold at the last close and logged. */
  function CloseOut(r: Run, date: Date, price: real): Run {
    if r.position.shares > 0 then
      var f := SellFill(r.position, price, None);
      Run(f.after, r.trades + [Trade(date, SellAtEnd, price, f.executed)], r.values)
    else r
  }

  /** The whole simulation: every bar, then the forced liquidation. */
  function Outcome(dates: seq<Date>, closes: seq<real>, signals: seq<int>, startingCash: real): Run
    requires WellFormed(dates, closes, signals)
  {
    var n := |closes|;
    var r := Walk(dates, closes, signals, startingCash, n);
    if n == 0 then r else CloseOut(r, dates[n - 1], closes[n - 1])
  }

  /**
   * The simulation loop, on a fresh portfolio object. Returns the trade log,
   * the value at each close and the final position.
   */
  method Simulate(dates: seq<Date>, closes: seq<real>, signals: seq<int>, startingCash: real)
    returns (trades: seq<Trade>, values: seq<real>, final: Holdings)
    requires WellFormed(dates, closes, signals)
    ensures |values| == |closes|
    ensures Run(final, trades, values) == Outcome(dates, closes, signals, startingCash)
  {
    var portfolio := new Portfolio(startingCash);
    trades, values := [], [];
    var i := 0;
    while i < |closes|
      invariant 0 <= i <= |closes|
      invariant |values| == i
      invariant Run(portfolio.Position(), trades, values) == Walk(dates, closes, signals, startingCash, i)
    {
      var signal, price, date := signals[i], closes[i], dates[i];
      if signal == 1 && portfolio.shares == 0 {
        var shares := portfolio.Buy(price, None);
        if shares != 0 {
          trades := trades + [Trade(date, Buy, price, shares)];
        }
      } else if signal == -1 && portfolio.shares > 0 {
        var shares := portfolio.Sell(price, None);
        if shares != 0 {
          trades := trades + [Trade(date, Sell, price, shares)];
        }
      }
      values := values + [portfolio.TotalValue(price)];
      i := i + 1;
    }
    if portfolio.shares > 0 {
      var finalPrice := closes[|closes| - 1];
      var shares := portfolio.Sell(finalPrice, None);
      trades := trades + [Trade(dates[|closes| - 1], SellAtEnd, finalPrice, shares)];
    }
    final := portfolio.Position();
  }

  // ---------------------------------------------------------------- properties

  /** Each bar records exactly one value. */
  lemma {:induction false} WalkLength(dates: seq<Date>, closes: seq<real>, signals: seq<int>, startingCash: real, k: nat)
    requires WellFormed(dates, closes, signals) && k <= |closes|
    ensures |Walk(dates, closes, signals, startingCash, k).values| == k
  {
    if k > 0 {
      WalkLength(dates, closes, signals, startingCash, k - 1);
    }
  }

  /** A run records one value per bar. */
  lemma OutcomeLength(dates: seq<Date>, closes: seq<real>, signals: seq<int>, startingCash: real)
    requires WellFormed(dates, closes, signals)
    ensures |Outcome(dates, closes, signals, startingCash).values| == |closes|
  {
    WalkLength(dates, closes, signals, startingCash, |closes|);
  }

  /** The run's outcome is the last bar's step on the state before it, then the forced liquidation. */
  lemma OutcomeOfLastBar(dates: seq<Date>, closes: seq<real>, signals: seq<int>, startingCash: real)
    requires WellFormed(dates, closes, signals) && |closes| > 0
    ensures var n := |closes|;
      Outcome(dates, closes, signals, startingCash)
        == CloseOut(BarStep(Walk(dates, closes, signals, startingCash, n - 1), dates[n - 1], closes[n - 1], signals[n - 1]),
                    dates[n - 1], closes[n - 1])
  {
  }

  /**
   * The trade log is a list of round trips: entries at even positions are
   * buys, those at odd positions sells of exactly the shares just bought.
   */
  predicate RoundTrips(t: seq<Trade>) {
    forall j :: 0 <= j < |t| ==>
      (t[j].action.Buy? <==> j % 2 == 0) &&
      t[j].shares > 0 &&
      (j % 2 == 1 ==> t[j].shares == t[j - 1].shares)
  }

  /** One more entry keeps the log a list of round trips when it continues the alternation. */
  lemma RoundTripsAppend(t: seq<Trade>, x: Trade)
    requires RoundTrips(t)
    requires (x.action.Buy? <==> |t| % 2 == 0) && x.shares > 0
    requires |t| % 2 == 1 ==> x.shares == t[|t| - 1].shares
    ensures RoundTrips(t + [x])
  {
  }

  /** The position agrees with the log: shares are held exactly when the last round trip is still open, and they are its shares. */
  predicate Ledger(h: Holdings, t: seq<Trade>) {
    h.cash >= 0.0 && h.shares >= 0 &&
    RoundTrips(t) &&
    (forall j :: 0 <= j < |t| ==> !t[j].action.SellAtEnd?) &&
    (h.shares > 0 <==> |t| % 2 == 1) &&
    (h.shares > 0 ==> t[|t| - 1].shares == h.shares)
  }

  /** With money to start with, the portfolio is never worth nothing. */
  predicate Alive(r: Run, startingCash: real) {
    startingCash > 0.0 ==>
      (r.position.cash > 0.0 || r.position.shares > 0) &&
      forall j :: 0 <= j < |r.values| ==> r.values[j] > 0.0
  }

  /** What holds after every bar of a run on positive closes with non-negative starting cash. */
  predicate Invariant(r: Run, startingCash: real) {
    Ledger(r.position, r.trades) && Alive(r, startingCash)
  }

  /** A position with non-negative cash and positive shares is worth something at a positive price. */
  lemma ValuePositive(h: Holdings, price: real)
    requires price > 0.0 && h.cash >= 0.0 && h.shares > 0
    ensures Value(h, price) > 0.0
  {
    MulPositive(h.shares as real, price);
  }

  lemma BarStepKeepsInvariant(r: Run, startingCash: real, date: Date, price: real, signal: int)
    requires price > 0.0 && Invariant(r, startingCash)
    ensures Invariant(BarStep(r, date, price, signal), startingCash)
  {
    if signal == 1 && r.position.shares == 0 {
      BuyKeepsInvariant(r, startingCash, date, price);
    } else if signal == -1 && r.position.shares > 0 {
      SellKeepsInvariant(r, startingCash, date, price);
    } else {
      var r' := BarStep(r, date, price, signal);
      assert r' == Run(r.position, r.trades, r.values + [Value(r.position, price)]);
      if startingCash > 0.0 && r.position.shares > 0 {
        ValuePositive(r.position, price);
      }
      assert Alive(r', startingCash);
    }
  }

  lemma BuyKeepsInvariant(r: Run, startingCash: real, date: Date, price: real)
    requires price > 0.0 && Invariant(r, startingCash) && r.position.shares == 0
    ensures Invariant(BarStep(r, date, price, 1), startingCash)
  {
    var f := BuyFill(r.position, price, None);
    if f.executed != 0 {
      var x := Trade(date, Buy, price, f.executed);
      var r' := Run(f.after, r.trades + [x], r.values + [Value(f.after, price)]);
      assert BarStep(r, date, price, 1) == r';
      RoundTripsAppend(r.trades, x);
      assert Ledger(r'.position, r'.trades);
      ValuePositive(f.after, price);
      assert Alive(r', startingCash);
    } else {
      var r' := Run(r.position, r.trades, r.values + [Value(r.position, price)]);
      assert BarStep(r, date, price, 1) == r';
      assert Alive(r', startingCash);
    }
  }

  lemma SellKeepsInvariant(r: Run, startingCash: real, date: Date, price: real)
    requires price > 0.0 && Invariant(r, startingCash) && r.position.shares > 0
    ensures Invariant(BarStep(r, date, price, -1), startingCash)
  {
    var h := r.position;
    var f := SellFill(h, price, None);
    var x := Trade(date, Sell, price, h.shares);
    var r' := Run(f.after, r.trades + [x], r.values + [Value(f.after, price)]);
    assert BarStep(r, date, price, -1) == r';
    RoundTripsAppend(r.trades, x);
    assert Ledger(r'.position, r'.trades);
    ValuePositive(h, price);
    assert f.after.cash == Value(h, price);
    assert Alive(r', startingCash);
  }

  lemma MulPositive(a: real, b: real)
    requires a > 0.0 && b > 0.0
    ensures a * b > 0.0 && b * a > 0.0
  {
  }

  /** Solvency and the state machine hold after every bar. */
  lemma {:induction false} WalkInvariant(dates: seq<Date>, closes: seq<real>, signals: seq<int>, startingCash: real, k: nat)
    requires WellFormed(dates, closes, signals) && Positive(closes) && startingCash >= 0.0 && k <= |closes|
    ensures |Walk(dates, closes, signals, startingCash, k).values| == k
    ensures Invariant(Walk(dates, closes, signals, startingCash, k), startingCash)
  {
    if k > 0 {
      WalkInvariant(dates, closes, signals, startingCash, k - 1);
      BarStepKeepsInvariant(Walk(dates, closes, signals, startingCash, k - 1), startingCash,
                            dates[k - 1], closes[k - 1], signals[k - 1]);
    }
  }

  /** Each bar records the value of the position it leaves, at that bar's close. */
  lemma BarStepRecordsValue(r: Run, date: Date, price: real, signal: int)
    requires price != 0.0
    ensures var r' := BarStep(r, date, price, signal);
      r'.values == r.values + [Value(r'.position, price)]
  {
  }

  /**
   * The forced liquidation of a run that keeps the invariant leaves it flat,
   * with the position's value at the last close as cash, the values
   * untouched, and a log of complete round trips whose only forced sale is
   * the last entry.
   */
  lemma CloseOutProperties(w: Run, startingCash: real, date: Date, price: real)
    requires price > 0.0 && Invariant(w, startingCash)
    ensures var r := CloseOut(w, date, price);
      && r.position == Holdings(Value(w.position, price), 0)
      && r.values == w.values
      && RoundTrips(r.trades)
      && |r.trades| % 2 == 0
      && (forall j :: 0 <= j < |r.trades| && r.trades[j].action.SellAtEnd? ==> j == |r.trades| - 1)
  {
    if w.position.shares > 0 {
      var x := Trade(date, SellAtEnd, price, w.position.shares);
      assert CloseOut(w, date, price).trades == w.trades + [x];
      RoundTripsAppend(w.trades, x);
    }
  }

  /**
   * Every run ends flat and solvent, with a log of complete round trips (the
   * forced sale, if any, is the last entry), one value per bar, and a last
   * value equal to the final cash.
   */
  lemma OutcomeProperties(dates: seq<Date>, closes: seq<real>, signals: seq<int>, startingCash: real)
    requires WellFormed(dates, closes, signals) && Positive(closes) && startingCash >= 0.0
    ensures var r := Outcome(dates, closes, signals, startingCash);
      && r.position.shares == 0
      && r.position.cash >= 0.0
      && RoundTrips(r.trades)
      && |r.trades| % 2 == 0
      && (forall j :: 0 <= j < |r.trades| && r.trades[j].action.SellAtEnd? ==> j == |r.trades| - 1)
      && |r.values| == |closes|
      && (|closes| > 0 ==> r.values[|closes| - 1] == r.position.cash)
      && (startingCash > 0.0 ==> forall j :: 0 <= j < |r.values| ==> r.values[j] > 0.0)
  {
    var n := |closes|;
    WalkInvariant(dates, closes, signals, startingCash, n);
    if n > 0 {
      var w := Walk(dates, closes, signals, startingCash, n);
      BarStepRecordsValue(Walk(dates, closes, signals, startingCash, n - 1), dates[n - 1], closes[n - 1], signals[n - 1]);
      assert w.values[n - 1] == Value(w.position, closes[n - 1]);
      CloseOutProperties(w, startingCash, dates[n - 1], closes[n - 1]);
      if w.position.shares > 0 {
        ValuePositive(w.position, closes[n - 1]);
      }
    }
  }

  /** Without a buy signal the portfolio never enters the market: no trades, and cash is the value at every close. */
  lemma {:induction false} WalkWithoutBuys(dates: seq<Date>, closes: seq<real>, signals: seq<int>, startingCash: real, k: nat)
    requires WellFormed(dates, closes, signals) && k <= |closes|
    requires forall i :: 0 <= i < |signals| ==> signals[i] != 1
    ensures Walk(dates, closes, signals, startingCash, k) ==
      Run(Holdings(startingCash, 0), [], seq(k, _ => startingCash))
  {
    if k > 0 {
      WalkWithoutBuys(dates, closes, signals, startingCash, k - 1);
    }
  }

  /** No lookahead: the state after `k` bars is the same on any prefix of the inputs that contains those bars. */
  lemma {:induction false} WalkCausal(dates: seq<Date>, closes: seq<real>, signals: seq<int>, startingCash: real, k: nat, m: nat)
    requires WellFormed(dates, closes, signals) && k <= m <= |closes|
    ensures Walk(dates[..m], closes[..m], signals[..m], startingCash, k) == Walk(dates, closes, signals, startingCash, k)
  {
    if k > 0 {
      WalkCausal(dates, closes, signals, startingCash, k - 1, m);
    }
  }
}
