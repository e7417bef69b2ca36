/** Equity curve and drawdown (`paper_trading/metrics.py`). */
module Metrics {
  import opened Indicators

  /** The curve starts at `start` and its k-th point adds the first k results. */
  ghost predicate IsEquityCurve(points: seq<real>, pnls: seq<real>, start: real) {
    |points| == |pnls| + 1 && forall k :: 0 <= k <= |pnls| ==> points[k] == start + Sum(pnls[..k])
  }

  method EquityCurve(pnls: seq<real>, start: real) returns (points: seq<real>)
    ensures IsEquityCurve(points, pnls, start)
  {
    var running := start;
    points := [running];
    for i := 0 to |pnls|
      invariant |points| == i + 1 && running == points[i]
      invariant forall k :: 0 <= k <= i ==> points[k] == start + Sum(pnls[..k])
    {
      assert pnls[..i + 1][..i] == pnls[..i];
      running := running + pnls[i];
      points := points + [running];
    }
  }

  predicate Falls(equity: seq<real>, i: int, j: int, drop: real) {
    0 <= i <= j < |equity| && equity[i] - equity[j] == drop
  }

  /** `worst` is the largest fall from any point of the curve to the same or a later one; 0 without points. */
  ghost predicate IsMaxDrawdown(equity: seq<real>, worst: real) {
    && (forall i, j :: 0 <= i <= j < |equity| ==> equity[i] - equity[j] <= worst)
    && if equity == [] then worst == 0.0 else exists i, j :: Falls(equity, i, j, worst)
  }

  method MaxDrawdown(equity: seq<real>) returns (worst: real)
    ensures IsMaxDrawdown(equity, worst)
  {
    if |equity| == 0 {
      return 0.0;
    }
    var peak := equity[0];
    worst := 0.0;
    ghost var top := 0;
    ghost var from, to := 0, 0;
    for n := 0 to |equity|
      invariant 0 <= top < |equity| && (top < n || top == n == 0) && peak == equity[top]
      invariant forall i :: 0 <= i < n ==> equity[i] <= peak
      invariant Falls(equity, from, to, worst)
      invariant forall i, j :: 0 <= i <= j < n ==> equity[i] - equity[j] <= worst
    {
      var value := equity[n];
      if value > peak {
        peak := value;
        top := n;
      }
      var dd := peak - value;
      if dd > worst {
        worst := dd;
        from, to := top, n;
      }
    }
  }

  predicate Loses(pnls: seq<real>, i: int, j: int, loss: real) {
    0 <= i <= j <= |pnls| && -Sum(pnls[i..j]) == loss
  }

  /** `worst` is the largest loss over any contiguous run of results, the empty run losing nothing. */
  ghost predicate IsWorstRun(pnls: seq<real>, worst: real) {
    && (forall i, j :: 0 <= i <= j <= |pnls| ==> -Sum(pnls[i..j]) <= worst)
    && exists i, j :: Loses(pnls, i, j, worst)
  }

  lemma {:induction false} SumOfRun(xs: seq<real>, i: nat, j: nat)
    requires i <= j <= |xs|
    ensures Sum(xs[..j]) == Sum(xs[..i]) + Sum(xs[i..j])
    decreases j
  {
    if i < j {
      SumOfRun(xs, i, j - 1);
      assert xs[..j][..j - 1] == xs[..j - 1];
      assert xs[i..j][..j - i - 1] == xs[i..j - 1];
    }
  }

  /** The drawdown of an equity curve is exactly the worst contiguous run of its results. */
  lemma DrawdownIsWorstRun(points: seq<real>, pnls: seq<real>, start: real, worst: real)
    requires IsEquityCurve(points, pnls, start)
    ensures IsMaxDrawdown(points, worst) <==> IsWorstRun(pnls, worst)
  {
    forall i, j | 0 <= i <= j <= |pnls|
      ensures points[i] - points[j] == -Sum(pnls[i..j])
    {
      SumOfRun(pnls, i, j);
    }
    if IsMaxDrawdown(points, worst) {
      var i, j :| Falls(points, i, j, worst);
      assert Loses(pnls, i, j, worst);
    }
    if IsWorstRun(pnls, worst) {
      var i, j :| Loses(pnls, i, j, worst);
      assert Falls(points, i, j, worst);
    }
  }
}
