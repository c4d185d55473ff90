/**
 * Performance statistics of a simulated run: total and annualised return,
 * maximum drawdown against the running peak, and the win rate of the trade
 * log taken two entries at a time.
 */
module Metrics {
  import opened Wrappers
  import opened Simulation

  const TRADING_DAYS_PER_YEAR: nat := 252

  /** Percentage gain of the final cash over the starting cash. */
  function TotalReturn(finalCash: real, startingCash: real): real
    requires startingCash != 0.0
  {
    (finalCash - startingCash) / startingCash * 100.0
  }

  /**
   * The starting cash grown by the total return is the final cash; the
   * return is 0 exactly when the cash is unchanged, positive exactly when it
   * grew, and never below -100 while the final cash is not negative.
   */
  lemma TotalReturnGrowth(finalCash: real, startingCash: real)
    requires startingCash != 0.0
    ensures var pct := TotalReturn(finalCash, startingCash);
      && finalCash == startingCash * (1.0 + pct / 100.0)
      && (pct == 0.0 <==> finalCash == startingCash)
      && (startingCash > 0.0 ==> (pct > 0.0 <==> finalCash > startingCash))
      && (startingCash > 0.0 && finalCash >= 0.0 ==> pct >= -100.0)
  {
    var pct := TotalReturn(finalCash, startingCash);
    assert startingCash * (1.0 + pct / 100.0) == startingCash + (finalCash - startingCash);
  }

  /**
   * Annualised return over `bars` trading days, `pow` being real
   * exponentiation. A loss of 100% or more is reported as -100, so the
   * power is only taken of a positive base.
   */
  function AnnualReturn(totalReturn: real, bars: nat, pow: (real, real) -> real): real
    requires totalReturn > -100.0 ==> bars > 0
  {
    if totalReturn > -100.0 then
      var years := bars as real / TRADING_DAYS_PER_YEAR as real;
      (pow(1.0 + totalReturn / 100.0, 1.0 / years) - 1.0) * 100.0
    else
      -100.0
  }

  /**
   * A total loss or worse annualises to -100; otherwise the power is taken
   * of a positive base, the result is at least -100 when powers of positive
   * bases are positive, and a zero total return annualises to 0 when every
   * power of 1 is 1.
   */
  lemma AnnualReturnProperties(totalReturn: real, bars: nat, pow: (real, real) -> real)
    requires totalReturn > -100.0 ==> bars > 0
    ensures var pct := AnnualReturn(totalReturn, bars, pow);
      && (totalReturn <= -100.0 ==> pct == -100.0)
      && (totalReturn > -100.0 ==> 1.0 + totalReturn / 100.0 > 0.0)
      && ((forall b, e :: b > 0.0 ==> pow(b, e) > 0.0) ==> pct >= -100.0)
      && ((forall e :: pow(1.0, e) == 1.0) && totalReturn == 0.0 ==> pct == 0.0)
  {
  }

  // ---------------------------------------------------------------- drawdown

  /** The running maximum of the value series up to bar `t`. */
  function Peak(values: seq<real>, t: nat): (p: real)
    requires t < |values|
    ensures forall j :: 0 <= j <= t ==> values[j] <= p
    ensures exists j :: 0 <= j <= t && p == values[j]
  {
    if t == 0 then values[0]
    else
      var prev := Peak(values, t - 1);
      if values[t] > prev then values[t] else prev
  }

  /**
   * The percentage by which the value at `t` lies below the running peak.
   * A zero peak makes the division non-finite (NaN or minus infinity): undefined.
   */
  function DrawdownAt(values: seq<real>, t: nat): Option<real>
    requires t < |values|
  {
    var p := Peak(values, t);
    if p == 0.0 then None else Some((values[t] - p) / p * 100.0)
  }

  /** The lowest drawdown of bars 0 .. t; undefined as soon as one of them is. */
  function LowestDrawdown(values: seq<real>, t: nat): Option<real>
    requires t < |values|
  {
    var d := DrawdownAt(values, t);
    if t == 0 then d
    else
      var m := LowestDrawdown(values, t - 1);
      if m.None? || d.None? then None
      else Some(if d.value < m.value then d.value else m.value)
  }

  /** The maximum drawdown: the minimum of the drawdown series (which must not be empty). */
  function MaxDrawdown(values: seq<real>): Option<real>
    requires |values| > 0
  {
    LowestDrawdown(values, |values| - 1)
  }

  /**
   * The lowest drawdown of bars 0 .. t is their minimum: defined exactly when
   * each of them is, then at most every one of them and equal to one of them.
   */
  lemma {:induction false} LowestDrawdownIsMinimum(values: seq<real>, t: nat)
    requires t < |values|
    ensures var m := LowestDrawdown(values, t);
      && (m.Some? <==> forall j :: 0 <= j <= t ==> DrawdownAt(values, j).Some?)
      && (m.Some? ==> forall j :: 0 <= j <= t ==> m.value <= DrawdownAt(values, j).value)
      && (m.Some? ==> exists j :: 0 <= j <= t && m.value == DrawdownAt(values, j).value)
  {
    if t > 0 {
      LowestDrawdownIsMinimum(values, t - 1);
    }
  }

  /** The maximum drawdown is the minimum of the whole drawdown series, defined exactly when every drawdown is. */
  lemma MaxDrawdownIsMinimum(values: seq<real>)
    requires |values| > 0
    ensures var m := MaxDrawdown(values);
      && (m.Some? <==> forall j :: 0 <= j < |values| ==> DrawdownAt(values, j).Some?)
      && (m.Some? ==> forall j :: 0 <= j < |values| ==> m.value <= DrawdownAt(values, j).value)
      && (m.Some? ==> exists j :: 0 <= j < |values| && m.value == DrawdownAt(values, j).value)
  {
    LowestDrawdownIsMinimum(values, |values| - 1);
  }

  predicate AllPositive(values: seq<real>) {
    forall j :: 0 <= j < |values| ==> values[j] > 0.0
  }

  predicate NonDecreasingUpTo(values: seq<real>, t: nat)
    requires t < |values|
  {
    forall j :: 0 < j <= t ==> values[j - 1] <= values[j]
  }

  /** On positive values each drawdown lies in (-100, 0], and is 0 exactly at a new peak. */
  lemma DrawdownAtRange(values: seq<real>, t: nat)
    requires t < |values| && AllPositive(values)
    ensures DrawdownAt(values, t).Some?
    ensures -100.0 < DrawdownAt(values, t).value <= 0.0
    ensures DrawdownAt(values, t).value == 0.0 <==> values[t] == Peak(values, t)
  {
    BelowPeak(values[t], Peak(values, t));
  }

  lemma BelowPeak(v: real, p: real)
    requires 0.0 < v <= p
    ensures -100.0 < (v - p) / p * 100.0 <= 0.0
    ensures (v - p) / p * 100.0 == 0.0 <==> v == p
  {
    var q := v / p;
    assert q * p == v;
    assert (q - 1.0) * p == v - p;
    Quotient(v - p, p, q - 1.0);
    Ratio(v, p);
  }

  lemma Quotient(x: real, d: real, y: real)
    requires d != 0.0 && y * d == x
    ensures x / d == y
  {
  }

  /** A ratio of positive numbers, the first at most the second, lies in (0, 1]. */
  lemma Ratio(a: real, b: real)
    requires 0.0 < a <= b
    ensures 0.0 < a / b <= 1.0
  {
  }

  lemma {:induction false} LowestDrawdownRange(values: seq<real>, t: nat)
    requires t < |values| && AllPositive(values)
    ensures LowestDrawdown(values, t).Some?
    ensures -100.0 < LowestDrawdown(values, t).value <= 0.0
  {
    DrawdownAtRange(values, t);
    if t > 0 {
      LowestDrawdownRange(values, t - 1);
    }
  }

  lemma {:induction false} PeakOfNonDecreasing(values: seq<real>, t: nat)
    requires t < |values| && NonDecreasingUpTo(values, t)
    ensures Peak(values, t) == values[t]
  {
    if t > 0 {
      PeakOfNonDecreasing(values, t - 1);
    }
  }

  lemma {:induction false} LowestDrawdownZero(values: seq<real>, t: nat)
    requires t < |values| && AllPositive(values)
    ensures LowestDrawdown(values, t) == Some(0.0) <==> NonDecreasingUpTo(values, t)
  {
    DrawdownAtRange(values, t);
    LowestDrawdownRange(values, t);
    if t > 0 {
      LowestDrawdownZero(values, t - 1);
      LowestDrawdownRange(values, t - 1);
      if NonDecreasingUpTo(values, t - 1) {
        PeakOfNonDecreasing(values, t - 1);
        assert Peak(values, t) == (if values[t] > values[t - 1] then values[t] else values[t - 1]);
      }
    }
  }

  /**
   * On a positive value series the maximum drawdown is defined, lies in
   * (-100, 0], and is 0 exactly when the series never decreases.
   */
  lemma MaxDrawdownProperties(values: seq<real>)
    requires |values| > 0 && AllPositive(values)
    ensures MaxDrawdown(values).Some?
    ensures -100.0 < MaxDrawdown(values).value <= 0.0
    ensures MaxDrawdown(values).value == 0.0 <==>
      forall j :: 0 < j < |values| ==> values[j - 1] <= values[j]
  {
    LowestDrawdownRange(values, |values| - 1);
    LowestDrawdownZero(values, |values| - 1);
  }

  // ---------------------------------------------------------------- win rate

  /** Whether each (entry, exit) pair of the log, taken at positions (0,1), (2,3), ..., exited above its entry. */
  function PairOutcomes(trades: seq<Trade>): (profits: seq<bool>)
    ensures |profits| == |trades| / 2
  {
    seq(|trades| / 2, k requires 0 <= k < |trades| / 2 => trades[2 * k + 1].price > trades[2 * k].price)
  }

  function CountTrue(s: seq<bool>): (n: nat)
    ensures n <= |s|
  {
    if s == [] then 0 else CountTrue(s[..|s| - 1]) + (if s[|s| - 1] then 1 else 0)
  }

  /** Percentage of winning pairs; 0 when the log holds fewer than two trades. An unpaired last trade is ignored. */
  function WinRateOf(trades: seq<Trade>): real {
    if |trades| >= 2 then
      var profits := PairOutcomes(trades);
      CountTrue(profits) as real / |profits| as real * 100.0
    else 0.0
  }

  /** The win-rate loop: collects the pair outcomes, then averages them. */
  method WinRate(trades: seq<Trade>) returns (rate: real)
    ensures rate == WinRateOf(trades)
    ensures 0.0 <= rate <= 100.0
    ensures |trades| < 2 ==> rate == 0.0
  {
    if |trades| >= 2 {
      var profits: seq<bool> := [];
      var i := 0;
      while i < |trades| - 1
        invariant i == 2 * |profits| && i <= |trades|
        invariant profits == PairOutcomes(trades)[..|profits|]
      {
        profits := profits + [trades[i + 1].price > trades[i].price];
        i := i + 2;
      }
      assert profits == PairOutcomes(trades);
      var wins, pairs := CountTrue(profits) as real, |profits| as real;
      assert 0.0 <= wins <= pairs && pairs > 0.0;
      if wins > 0.0 {
        Ratio(wins, pairs);
      }
      rate := wins / pairs * 100.0;
    } else {
      rate := 0.0;
    }
  }
}
