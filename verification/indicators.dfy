/**
 * The technical indicators the signal generator reads, as pure functions of
 * the close-price series. A value pandas leaves undefined (NaN) is `None`.
 */
module Indicators {
  import opened Wrappers

  const SMA_WINDOW: nat := 20
  const RSI_PERIOD: nat := 14
  const MACD_FAST: nat := 12
  const MACD_SLOW: nat := 26
  const MACD_SIGNAL: nat := 9

  function Sum(s: seq<real>): real {
    if s == [] then 0.0 else Sum(s[..|s| - 1]) + s[|s| - 1]
  }

  /** A window of equal values sums to its length times that value. */
  lemma {:induction false} SumConstant(s: seq<real>, c: real)
    requires forall j :: 0 <= j < |s| ==> s[j] == c
    ensures Sum(s) == |s| as real * c
  {
    if s != [] {
      SumConstant(s[..|s| - 1], c);
    }
  }

  // ---------------------------------------------------------------- SMA

  /** The trailing mean of the `SMA_WINDOW` closes ending at bar `i`; undefined before a full window exists. */
  function SmaAt(closes: seq<real>, i: nat): (m: Option<real>)
    requires i < |closes|
    ensures m.Some? <==> i + 1 >= SMA_WINDOW
  {
    if i + 1 < SMA_WINDOW then None
    else Some(Sum(closes[i + 1 - SMA_WINDOW .. i + 1]) / SMA_WINDOW as real)
  }

  /** The moving average of a constant series is that constant once it is defined. */
  lemma SmaOfConstant(closes: seq<real>, c: real, i: nat)
    requires i < |closes| && i + 1 >= SMA_WINDOW
    requires forall j :: 0 <= j < |closes| ==> closes[j] == c
    ensures SmaAt(closes, i) == Some(c)
  {
    var window := closes[i + 1 - SMA_WINDOW .. i + 1];
    assert |window| == SMA_WINDOW;
    assert forall j :: 0 <= j < |window| ==> window[j] == closes[i + 1 - SMA_WINDOW + j];
    SumConstant(window, c);
  }

  // ---------------------------------------------------------------- RSI

  /** The upward move into bar j (delta clipped below at 0). */
  function Gain(closes: seq<real>, j: nat): real
    requires 1 <= j < |closes|
  {
    var delta := closes[j] - closes[j - 1];
    if delta > 0.0 then delta else 0.0
  }

  /** The downward move into bar j, as a non-negative amount (minus delta clipped above at 0). */
  function Loss(closes: seq<real>, j: nat): real
    requires 1 <= j < |closes|
  {
    var delta := closes[j] - closes[j - 1];
    if delta < 0.0 then -delta else 0.0
  }

  /** Sum of the gains of bars lo .. hi-1. */
  function SumGains(closes: seq<real>, lo: nat, hi: nat): (r: real)
    requires 1 <= lo <= hi <= |closes|
    ensures r >= 0.0
    decreases hi - lo
  {
    if lo == hi then 0.0 else Gain(closes, lo) + SumGains(closes, lo + 1, hi)
  }

  /** Sum of the losses of bars lo .. hi-1. */
  function SumLosses(closes: seq<real>, lo: nat, hi: nat): (r: real)
    requires 1 <= lo <= hi <= |closes|
    ensures r >= 0.0
    decreases hi - lo
  {
    if lo == hi then 0.0 else Loss(closes, lo) + SumLosses(closes, lo + 1, hi)
  }

  /**
   * The relative strength index at bar `i` with simple (not Wilder-smoothed)
   * averages of the last `RSI_PERIOD` gains and losses. The first delta is
   * undefined, so the index is undefined before bar `RSI_PERIOD`. With no
   * losses it is 100 when there were gains (x/0 is infinite) and undefined
   * when there were none (0/0).
   */
  function RsiAt(closes: seq<real>, i: nat): (r: Option<real>)
    requires i < |closes|
    ensures r.Some? ==> i >= RSI_PERIOD && 0.0 <= r.value <= 100.0
  {
    if i < RSI_PERIOD then None
    else
      var avgGain := SumGains(closes, i + 1 - RSI_PERIOD, i + 1) / RSI_PERIOD as real;
      var avgLoss := SumLosses(closes, i + 1 - RSI_PERIOD, i + 1) / RSI_PERIOD as real;
      if avgLoss == 0.0 then
        (if avgGain == 0.0 then None else Some(100.0))
      else
        var rs := avgGain / avgLoss;
        assert rs >= 0.0;
        assert 100.0 / (1.0 + rs) <= 100.0 by {
          assert 1.0 + rs >= 1.0;
        }
        Some(100.0 - 100.0 / (1.0 + rs))
  }

  lemma {:induction false} SumsOfFlat(closes: seq<real>, lo: nat, hi: nat)
    requires 1 <= lo <= hi <= |closes|
    requires forall j :: 0 <= j < |closes| ==> closes[j] == closes[0]
    ensures SumGains(closes, lo, hi) == 0.0 && SumLosses(closes, lo, hi) == 0.0
    decreases hi - lo
  {
    if lo < hi {
      SumsOfFlat(closes, lo + 1, hi);
    }
  }

  /** A constant series has neither gains nor losses, so its RSI is never defined (0/0). */
  lemma RsiOfConstant(closes: seq<real>, i: nat)
    requires i < |closes|
    requires forall j :: 0 <= j < |closes| ==> closes[j] == closes[0]
    ensures RsiAt(closes, i) == None
  {
    if i >= RSI_PERIOD {
      SumsOfFlat(closes, i + 1 - RSI_PERIOD, i + 1);
    }
  }

  lemma {:induction false} SumsOfRising(closes: seq<real>, lo: nat, hi: nat)
    requires 1 <= lo <= hi <= |closes|
    requires forall j :: 1 <= j < |closes| ==> closes[j - 1] < closes[j]
    ensures SumLosses(closes, lo, hi) == 0.0
    ensures lo < hi ==> SumGains(closes, lo, hi) > 0.0
    decreases hi - lo
  {
    if lo < hi {
      SumsOfRising(closes, lo + 1, hi);
    }
  }

  /** On a strictly rising series the average loss is 0 and the average gain positive, so the RSI is pinned at 100. */
  lemma RsiOfRising(closes: seq<real>, i: nat)
    requires RSI_PERIOD <= i < |closes|
    requires forall j :: 1 <= j < |closes| ==> closes[j - 1] < closes[j]
    ensures RsiAt(closes, i) == Some(100.0)
  {
    SumsOfRising(closes, i + 1 - RSI_PERIOD, i + 1);
  }

  // ---------------------------------------------------------------- EMA / MACD

  /** Smoothing factor 2 / (span + 1) of an exponential moving average. */
  function Alpha(span: nat): (a: real)
    ensures span >= 1 ==> 0.0 < a <= 1.0
  {
    2.0 / (span as real + 1.0)
  }

  /** Recursive exponential moving average seeded with the first value (pandas ewm with adjust=False). */
  function EmaAt(xs: seq<real>, alpha: real, t: nat): real
    requires t < |xs|
  {
    if t == 0 then xs[0] else alpha * xs[t] + (1.0 - alpha) * EmaAt(xs, alpha, t - 1)
  }

  /** With a smoothing factor in [0, 1] the average stays within the range of the values averaged so far. */
  lemma {:induction false} EmaBounded(xs: seq<real>, alpha: real, t: nat, lo: real, hi: real)
    requires t < |xs| && 0.0 <= alpha <= 1.0
    requires forall j :: 0 <= j <= t ==> lo <= xs[j] <= hi
    ensures lo <= EmaAt(xs, alpha, t) <= hi
  {
    if t > 0 {
      EmaBounded(xs, alpha, t - 1, lo, hi);
      Convex(alpha, xs[t], EmaAt(xs, alpha, t - 1), lo, hi);
    }
  }

  /** A weighted average of two values within bounds stays within them. */
  lemma Convex(alpha: real, x: real, y: real, lo: real, hi: real)
    requires 0.0 <= alpha <= 1.0 && lo <= x <= hi && lo <= y <= hi
    ensures lo <= alpha * x + (1.0 - alpha) * y <= hi
  {
    MulNonNegative(alpha, x - lo);
    MulNonNegative(1.0 - alpha, y - lo);
    MulNonNegative(alpha, hi - x);
    MulNonNegative(1.0 - alpha, hi - y);
    assert alpha * x + (1.0 - alpha) * y - lo == alpha * (x - lo) + (1.0 - alpha) * (y - lo);
    assert hi - (alpha * x + (1.0 - alpha) * y) == alpha * (hi - x) + (1.0 - alpha) * (hi - y);
  }

  lemma MulNonNegative(a: real, b: real)
    requires a >= 0.0 && b >= 0.0
    ensures a * b >= 0.0
  {
  }

  /** The MACD line: fast EMA minus slow EMA of the closes. */
  function MacdAt(closes: seq<real>, t: nat): real
    requires t < |closes|
  {
    EmaAt(closes, Alpha(MACD_FAST), t) - EmaAt(closes, Alpha(MACD_SLOW), t)
  }

  function MacdSeries(closes: seq<real>): (m: seq<real>)
    ensures |m| == |closes|
  {
    seq(|closes|, t requires 0 <= t < |closes| => MacdAt(closes, t))
  }

  /** The MACD signal line: the EMA of the MACD line. */
  function MacdSignalAt(closes: seq<real>, t: nat): real
    requires t < |closes|
  {
    EmaAt(MacdSeries(closes), Alpha(MACD_SIGNAL), t)
  }

  /** On a constant series both EMAs equal the constant, so the MACD line and its signal line are both 0. */
  lemma MacdOfConstant(closes: seq<real>, t: nat)
    requires t < |closes|
    requires forall j :: 0 <= j < |closes| ==> closes[j] == closes[0]
    ensures MacdAt(closes, t) == 0.0 && MacdSignalAt(closes, t) == 0.0
  {
    var c := closes[0];
    forall j | 0 <= j < |closes|
      ensures MacdAt(closes, j) == 0.0
    {
      EmaBounded(closes, Alpha(MACD_FAST), j, c, c);
      EmaBounded(closes, Alpha(MACD_SLOW), j, c, c);
    }
    EmaBounded(MacdSeries(closes), Alpha(MACD_SIGNAL), t, 0.0, 0.0);
  }

  // ---------------------------------------------------------------- no lookahead

  /** The moving average at bar `i` reads no close after bar `i`. */
  lemma SmaCausal(closes: seq<real>, m: nat, i: nat)
    requires i < m <= |closes|
    ensures SmaAt(closes[..m], i) == SmaAt(closes, i)
  {
    if i + 1 >= SMA_WINDOW {
      assert closes[..m][i + 1 - SMA_WINDOW .. i + 1] == closes[i + 1 - SMA_WINDOW .. i + 1];
    }
  }

  /** Gains and losses of bars lo .. hi-1 depend only on the closes before bar `hi`. */
  lemma {:induction false} SumsAgree(a: seq<real>, b: seq<real>, lo: nat, hi: nat)
    requires 1 <= lo <= hi <= |a| && hi <= |b|
    requires forall j :: 0 <= j < hi ==> a[j] == b[j]
    ensures SumGains(a, lo, hi) == SumGains(b, lo, hi)
    ensures SumLosses(a, lo, hi) == SumLosses(b, lo, hi)
    decreases hi - lo
  {
    if lo < hi {
      SumsAgree(a, b, lo + 1, hi);
    }
  }

  /** The RSI at bar `i` reads no close after bar `i`. */
  lemma RsiCausal(closes: seq<real>, m: nat, i: nat)
    requires i < m <= |closes|
    ensures RsiAt(closes[..m], i) == RsiAt(closes, i)
  {
    if i >= RSI_PERIOD {
      SumsAgree(closes[..m], closes, i + 1 - RSI_PERIOD, i + 1);
    }
  }

  /** Two series that agree up to `t` have the same exponential average at `t`. */
  lemma {:induction false} EmaAgree(xs: seq<real>, ys: seq<real>, alpha: real, t: nat)
    requires t < |xs| && t < |ys|
    requires forall j :: 0 <= j <= t ==> xs[j] == ys[j]
    ensures EmaAt(xs, alpha, t) == EmaAt(ys, alpha, t)
  {
    if t > 0 {
      EmaAgree(xs, ys, alpha, t - 1);
    }
  }

  /** The MACD line and its signal line at bar `t` read no close after bar `t`. */
  lemma MacdCausal(closes: seq<real>, m: nat, t: nat)
    requires t < m <= |closes|
    ensures MacdAt(closes[..m], t) == MacdAt(closes, t)
    ensures MacdSignalAt(closes[..m], t) == MacdSignalAt(closes, t)
  {
    forall j | 0 <= j <= t
      ensures MacdSeries(closes[..m])[j] == MacdSeries(closes)[j]
    {
      EmaAgree(closes[..m], closes, Alpha(MACD_FAST), j);
      EmaAgree(closes[..m], closes, Alpha(MACD_SLOW), j);
    }
    EmaAgree(MacdSeries(closes[..m]), MacdSeries(closes), Alpha(MACD_SIGNAL), t);
  }
}
