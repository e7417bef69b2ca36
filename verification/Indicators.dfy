/** Batch exponential moving averages (`forecast_engine/indicators.py`). */
module Indicators {
  import opened Arithmetic
  import opened Wrappers

  function Sum(xs: seq<real>): real {
    if xs == [] then 0.0 else Sum(xs[..|xs| - 1]) + xs[|xs| - 1]
  }

  function Alpha(period: nat): real {
    Ratio(2.0, (period + 1) as real)
  }

  function Blend(alpha: real, price: real, before: real): real {
    Times(alpha, price) + Times(1.0 - alpha, before)
  }

  /**
   The average after the last of `closes`: the mean of the first `period` closes, then one
   blend for every later close.
   */
  function Ema(closes: seq<real>, period: nat): (r: Option<real>)
    requires period >= 1
    ensures r.Some? <==> |closes| >= period
  {
    if |closes| < period then None
    else if |closes| == period then Some(Ratio(Sum(closes), period as real))
    else Some(Blend(Alpha(period), closes[|closes| - 1], Ema(closes[..|closes| - 1], period).value))
  }

  /** The average in numbers: a mean first, then two parts of the close and `period - 1` parts of the average before. */
  lemma EmaInNumbers(closes: seq<real>, period: nat)
    requires period >= 1 && |closes| >= period
    ensures |closes| == period ==> Times(period as real, Ema(closes, period).value) == Sum(closes)
    ensures |closes| > period ==>
              Times((period + 1) as real, Ema(closes, period).value) ==
              2.0 * closes[|closes| - 1] + Times((period - 1) as real, Ema(closes[..|closes| - 1], period).value)
  {
    hide Times, Ratio, Sum;
    var n := period as real;
    if |closes| == period {
      Quotient(Sum(closes), n);
      Commute(n, Ema(closes, period).value);
    } else {
      var price, before := closes[|closes| - 1], Ema(closes[..|closes| - 1], period).value;
      Quotient(2.0, n + 1.0);
      BlendInNumbers(Alpha(period), n, price, before);
    }
  }

  lemma BlendInNumbers(alpha: real, n: real, price: real, before: real)
    requires Times(alpha, n + 1.0) == 2.0
    ensures Times(n + 1.0, Blend(alpha, price, before)) == 2.0 * price + Times(n - 1.0, before)
  {
    var x, y := alpha * price, (1.0 - alpha) * before;
    assert (n + 1.0) * x == ((n + 1.0) * alpha) * price;
    assert (n + 1.0) * y == ((n + 1.0) - (n + 1.0) * alpha) * before;
    assert (n + 1.0) * (x + y) == (n + 1.0) * x + (n + 1.0) * y;
  }

  method EmaBatch(closes: seq<real>, period: int) returns (r: Option<real>)
    ensures r == if period < 1 then None else Ema(closes, period)
  {
    hide Times, Ratio;
    if period < 1 || |closes| < period {
      return None;
    }
    var alpha := Alpha(period);
    var value := Ratio(Sum(closes[..period]), period as real);
    for i := period to |closes|
      invariant Ema(closes[..i], period) == Some(value)
    {
      assert closes[..i + 1][..i] == closes[..i];
      value := Blend(alpha, closes[i], value);
    }
    assert closes[..|closes|] == closes;
    return Some(value);
  }

  method EmaSeries(closes: seq<real>, period: int) returns (r: seq<Option<real>>)
    ensures |r| == |closes|
    ensures forall i :: 0 <= i < |r| ==> r[i] == if period < 1 then None else Ema(closes[..i + 1], period)
  {
    hide Times, Ratio;
    if period < 1 || |closes| < period {
      return seq(|closes|, _ => None);
    }
    var alpha := Alpha(period);
    r := seq(period - 1, _ => None);
    var value := Ratio(Sum(closes[..period]), period as real);
    r := r + [Some(value)];
    for i := period to |closes|
      invariant |r| == i
      invariant Ema(closes[..i], period) == Some(value)
      invariant forall k :: 0 <= k < i ==> r[k] == Ema(closes[..k + 1], period)
    {
      assert closes[..i + 1][..i] == closes[..i];
      value := Blend(alpha, closes[i], value);
      r := r + [Some(value)];
    }
  }
}
