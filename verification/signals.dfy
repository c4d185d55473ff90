/**
 * Signal generation: one signal per bar, 1 (buy), -1 (sell) or 0 (hold), for
 * buy-and-hold and for the SMA-crossover, RSI-threshold and MACD-crossover
 * strategies. A comparison that involves an undefined indicator value is
 * false, so it never fires a signal.
 */
module Signals {
  import opened Wrappers
  import opened Indicators

  /** The strategy names the generator recognises; any other name yields no signals. */
  datatype Strategy = BuyAndHold | SimpleMovingAverage | Rsi | Macd | Unrecognized

  const BUY: int := 1
  const SELL: int := -1
  const HOLD: int := 0

  const OVERSOLD: real := 30.0
  const OVERBOUGHT: real := 70.0
  /** MACD crossings are looked for only from this bar on, while the EMAs settle. */
  const MACD_START: nat := MACD_SLOW + MACD_SIGNAL

  predicate IsSignal(s: int) {
    s == BUY || s == SELL || s == HOLD
  }

  /**
   * A series crossing its reference between two bars: upward when it was at
   * or below and is now above (buy), downward when it was at or above and is
   * now below (sell).
   */
  function Crossover(prev: real, prevRef: Option<real>, cur: real, ref: Option<real>): (s: int)
    ensures IsSignal(s)
    ensures s == BUY <==> prevRef.Some? && ref.Some? && prev <= prevRef.value && cur > ref.value
    ensures s == SELL <==> prevRef.Some? && ref.Some? && prev >= prevRef.value && cur < ref.value
  {
    if prevRef.None? || ref.None? then HOLD
    else if prev <= prevRef.value && cur > ref.value then BUY
    else if prev >= prevRef.value && cur < ref.value then SELL
    else HOLD
  }

  /** RSI threshold crossings: falling below the oversold level buys, rising above the overbought level sells. */
  function ThresholdCrossing(prev: Option<real>, cur: Option<real>): (s: int)
    ensures IsSignal(s)
    ensures s == BUY <==> prev.Some? && cur.Some? && prev.value >= OVERSOLD && cur.value < OVERSOLD
    ensures s == SELL <==> prev.Some? && cur.Some? && prev.value <= OVERBOUGHT && cur.value > OVERBOUGHT
  {
    if prev.None? || cur.None? then HOLD
    else if prev.value >= OVERSOLD && cur.value < OVERSOLD then BUY
    else if prev.value <= OVERBOUGHT && cur.value > OVERBOUGHT then SELL
    else HOLD
  }

  /** The signal of bar `i`. */
  function SignalAt(closes: seq<real>, strategy: Strategy, i: nat): (s: int)
    requires i < |closes|
    ensures IsSignal(s)
    // buy-and-hold: buy on the first bar, sell on the last; one bar only is a sell
    ensures strategy.BuyAndHold? ==>
      (s == SELL <==> i == |closes| - 1) && (s == BUY <==> i == 0 < |closes| - 1)
    // lookback gating
    ensures strategy.SimpleMovingAverage? && i < SMA_WINDOW ==> s == HOLD
    ensures strategy.Rsi? && i <= RSI_PERIOD ==> s == HOLD
    ensures strategy.Macd? && i < MACD_START ==> s == HOLD
    ensures strategy.Unrecognized? ==> s == HOLD
  {
    match strategy
    case BuyAndHold =>
      if i == |closes| - 1 then SELL else if i == 0 then BUY else HOLD
    case SimpleMovingAverage =>
      if i < SMA_WINDOW then HOLD
      else Crossover(closes[i - 1], SmaAt(closes, i - 1), closes[i], SmaAt(closes, i))
    case Rsi =>
      if i < RSI_PERIOD then HOLD
      else ThresholdCrossing(RsiAt(closes, i - 1), RsiAt(closes, i))
    case Macd =>
      if i < MACD_START then HOLD
      else Crossover(MacdAt(closes, i - 1), Some(MacdSignalAt(closes, i - 1)),
                     MacdAt(closes, i), Some(MacdSignalAt(closes, i)))
    case Unrecognized => HOLD
  }

  /** The whole signal column. */
  function SignalColumn(closes: seq<real>, strategy: Strategy): seq<int> {
    seq(|closes|, i requires 0 <= i < |closes| => SignalAt(closes, strategy, i))
  }

  /**
   * Writes the signal column: all holds, then the strategy's buys and sells
   * bar by bar, as the generator writes them into its data frame.
   */
  method GenerateSignals(closes: seq<real>, strategy: Strategy) returns (signals: seq<int>)
    requires strategy.BuyAndHold? ==> |closes| > 0
    ensures |signals| == |closes|
    ensures forall i :: 0 <= i < |closes| ==> IsSignal(signals[i])
    ensures signals == SignalColumn(closes, strategy)
  {
    var n := |closes|;
    var column := new int[n](_ => HOLD);
    match strategy {
      case BuyAndHold =>
        column[0] := BUY;
        column[n - 1] := SELL;
      case SimpleMovingAverage =>
        var i := SMA_WINDOW;
        while i < n
          invariant SMA_WINDOW <= i
          invariant forall k :: 0 <= k < n ==>
            column[k] == if k < i then SignalAt(closes, strategy, k) else HOLD
        {
          var price, sma := closes[i], SmaAt(closes, i);
          var prevPrice, prevSma := closes[i - 1], SmaAt(closes, i - 1);
          if prevSma.Some? && sma.Some? && prevPrice <= prevSma.value && price > sma.value {
            column[i] := BUY;
          } else if prevSma.Some? && sma.Some? && prevPrice >= prevSma.value && price < sma.value {
            column[i] := SELL;
          }
          i := i + 1;
        }
      case Rsi =>
        var i := RSI_PERIOD;
        while i < n
          invariant RSI_PERIOD <= i
          invariant forall k :: 0 <= k < n ==>
            column[k] == if k < i then SignalAt(closes, strategy, k) else HOLD
        {
          var rsi, prevRsi := RsiAt(closes, i), RsiAt(closes, i - 1);
          if prevRsi.Some? && rsi.Some? && prevRsi.value >= OVERSOLD && rsi.value < OVERSOLD {
            column[i] := BUY;
          } else if prevRsi.Some? && rsi.Some? && prevRsi.value <= OVERBOUGHT && rsi.value > OVERBOUGHT {
            column[i] := SELL;
          }
          i := i + 1;
        }
      case Macd =>
        var i := MACD_START;
        while i < n
          invariant MACD_START <= i
          invariant forall k :: 0 <= k < n ==>
            column[k] == if k < i then SignalAt(closes, strategy, k) else HOLD
        {
          var macd, signal := MacdAt(closes, i), MacdSignalAt(closes, i);
          var prevMacd, prevSignal := MacdAt(closes, i - 1), MacdSignalAt(closes, i - 1);
          if prevMacd <= prevSignal && macd > signal {
            column[i] := BUY;
          } else if prevMacd >= prevSignal && macd < signal {
            column[i] := SELL;
          }
          i := i + 1;
        }
      case Unrecognized =>
    }
    signals := column[..];
  }

  /** A constant close series never crosses anything: every indicator strategy holds throughout. */
  lemma QuietOnConstant(closes: seq<real>, strategy: Strategy, i: nat)
    requires i < |closes| && !strategy.BuyAndHold?
    requires forall j :: 0 <= j < |closes| ==> closes[j] == closes[0]
    ensures SignalAt(closes, strategy, i) == HOLD
  {
    match strategy
    case SimpleMovingAverage =>
      if i >= SMA_WINDOW {
        SmaOfConstant(closes, closes[0], i - 1);
        SmaOfConstant(closes, closes[0], i);
      }
    case Rsi =>
      if i >= RSI_PERIOD {
        RsiOfConstant(closes, i);
      }
    case Macd =>
      if i >= MACD_START {
        MacdOfConstant(closes, i - 1);
        MacdOfConstant(closes, i);
      }
    case Unrecognized =>
  }

  /** On a strictly rising series the RSI sits at 100, so the RSI strategy never buys (nor sells). */
  lemma RsiQuietOnRising(closes: seq<real>, i: nat)
    requires i < |closes|
    requires forall j :: 1 <= j < |closes| ==> closes[j - 1] < closes[j]
    ensures SignalAt(closes, Rsi, i) == HOLD
  {
    if i > RSI_PERIOD {
      RsiOfRising(closes, i - 1);
      RsiOfRising(closes, i);
    }
  }

  /**
   * No lookahead: an indicator strategy's signal at bar `i` is the same on
   * any prefix of the closes that contains bar `i`. (Buy-and-hold reads the
   * length of the series, to sell on its last bar.)
   */
  lemma SignalAtCausal(closes: seq<real>, strategy: Strategy, m: nat, i: nat)
    requires i < m <= |closes| && !strategy.BuyAndHold?
    ensures SignalAt(closes[..m], strategy, i) == SignalAt(closes, strategy, i)
  {
    match strategy
    case SimpleMovingAverage =>
      if i >= SMA_WINDOW {
        SmaCausal(closes, m, i - 1);
        SmaCausal(closes, m, i);
      }
    case Rsi =>
      if i >= RSI_PERIOD {
        RsiCausal(closes, m, i - 1);
        RsiCausal(closes, m, i);
      }
    case Macd =>
      if i >= MACD_START {
        MacdCausal(closes, m, i - 1);
        MacdCausal(closes, m, i);
      }
    case Unrecognized =>
  }
}
