/**
 Isotonic regression by pool-adjacent-violators, as `forecast_engine/calibration.py`
 runs it on a stack of blocks, proved to return the weighted least-squares optimum.

 Every sum below is a sum of named terms.  The inductive proofs hide the body of a term,
 so that its products stay out of the solver's way, and use a one-term lemma instead.
 */
module Isotonic {
  import opened Arithmetic
  import opened Wrappers

  /** One observation the fit keeps: a target and its positive weight. */
  datatype Obs = Obs(y: real, w: real)

  /** The points that enter the fit: a point of non-positive weight is skipped. */
  function Kept(y: seq<real>, w: seq<real>, n: nat): seq<Obs>
    requires n <= |y| <= |w|
  {
    if n == 0 then []
    else if w[n - 1] <= 0.0 then Kept(y, w, n - 1)
    else Kept(y, w, n - 1) + [Obs(y[n - 1], w[n - 1])]
  }

  /** The weights a caller gets by giving none. */
  function WeightsOrOnes(n: nat, w: Option<seq<real>>): seq<real> {
    if w.Some? then w.value else seq(n, _ => 1.0)
  }

  ghost predicate Positive(pts: seq<Obs>) {
    forall i :: 0 <= i < |pts| ==> pts[i].w > 0.0
  }

  ghost predicate NonDecreasing(x: seq<real>) {
    forall i, j :: 0 <= i <= j < |x| ==> x[i] <= x[j]
  }

  function ErrorTerm(p: Obs, a: real): real { Times(p.w, Square(p.y - a)) }

  /** Weighted squared error of `z` on the first `n` points. */
  function ErrorTo(pts: seq<Obs>, z: seq<real>, n: nat): real
    requires n <= |pts| && n <= |z|
  {
    if n == 0 then 0.0 else ErrorTo(pts, z, n - 1) + ErrorTerm(pts[n - 1], z[n - 1])
  }

  function SquaredError(pts: seq<Obs>, z: seq<real>): real
    requires |z| == |pts|
  {
    ErrorTo(pts, z, |pts|)
  }

  function DistanceTerm(p: Obs, a: real, b: real): real { Times(p.w, Square(a - b)) }

  /** Weighted squared distance of two fits on the first `n` points. */
  function DistanceTo(pts: seq<Obs>, x: seq<real>, z: seq<real>, n: nat): real
    requires n <= |pts| && n <= |x| && n <= |z|
  {
    if n == 0 then 0.0 else DistanceTo(pts, x, z, n - 1) + DistanceTerm(pts[n - 1], x[n - 1], z[n - 1])
  }

  /** `x` is a non-decreasing fit no worse than any other. */
  ghost predicate OptimalFit(pts: seq<Obs>, x: seq<real>) {
    && |x| == |pts|
    && NonDecreasing(x)
    && forall z: seq<real> | |z| == |pts| && NonDecreasing(z) :: SquaredError(pts, x) <= SquaredError(pts, z)
  }

  // ---------------------------------------------------------------------------
  // Optimality certificate
  // ---------------------------------------------------------------------------

  /** Weighted residual of one point under the value `a`. */
  function Pull(p: Obs, a: real): real { Times(p.w, p.y - a) }

  /** Weighted residual of the fit `x` accumulated over the first `n` points. */
  function Residual(pts: seq<Obs>, x: seq<real>, n: nat): real
    requires n <= |pts| && n <= |x|
  {
    if n == 0 then 0.0 else Residual(pts, x, n - 1) + Pull(pts[n - 1], x[n - 1])
  }

  /**
   Prefix residuals never go negative and return to zero at the end of `x`, and the fit
   rises only where the residual is zero.
   */
  ghost predicate Certified(pts: seq<Obs>, x: seq<real>) {
    && |x| <= |pts|
    && NonDecreasing(x)
    && (forall k :: 0 <= k <= |x| ==> Residual(pts, x, k) >= 0.0)
    && Residual(pts, x, |x|) == 0.0
    && (forall k :: 0 < k < |x| ==> Residual(pts, x, k) == 0.0 || x[k] == x[k - 1])
  }

  function CrossTerm(p: Obs, a: real, b: real): real { Times(Pull(p, a), b - a) }

  function CrossTo(pts: seq<Obs>, x: seq<real>, z: seq<real>, n: nat): real
    requires n <= |pts| && n <= |x| && n <= |z|
  {
    if n == 0 then 0.0 else CrossTo(pts, x, z, n - 1) + CrossTerm(pts[n - 1], x[n - 1], z[n - 1])
  }

  lemma CrossStep(cross: real, r: real, before: real, p: Obs, a: real, b: real)
    requires r >= 0.0 && cross <= Times(r, before) && (r == 0.0 || before <= b - a)
    ensures cross + CrossTerm(p, a, b) <= Times(r + Pull(p, a), b - a)
  {
    hide Pull, Times;
    Distribute(b - a, r, Pull(p, a));
    if r == 0.0 {
      TimesZero(r, before);
      TimesZero(r, b - a);
    } else {
      TimesMono(r, before, b - a);
    }
  }

  /** Summation by parts: the cross term is bounded by the last residual. */
  lemma {:induction false} CrossBound(pts: seq<Obs>, x: seq<real>, z: seq<real>, n: nat)
    requires Certified(pts, x) && |z| == |x| && NonDecreasing(z)
    requires 0 < n <= |x|
    ensures CrossTo(pts, x, z, n) <= Times(Residual(pts, x, n), z[n - 1] - x[n - 1])
  {
    hide Pull, CrossTerm, Times;
    var r := Residual(pts, x, n - 1);
    if n == 1 {
      TimesZero(r, 0.0);
      CrossStep(CrossTo(pts, x, z, 0), r, 0.0, pts[0], x[0], z[0]);
    } else {
      CrossBound(pts, x, z, n - 1);
      assert z[n - 2] <= z[n - 1];
      CrossStep(CrossTo(pts, x, z, n - 1), r, z[n - 2] - x[n - 2], pts[n - 1], x[n - 1], z[n - 1]);
    }
  }

  lemma ErrorTermSplit(p: Obs, a: real, b: real)
    ensures ErrorTerm(p, b) == ErrorTerm(p, a) + DistanceTerm(p, a, b) - 2.0 * CrossTerm(p, a, b)
  {
    hide Times, Square;
    var e, g := p.y - a, b - a;
    SquareOfDifference(e, g);
    SquareEven(g);
    assert p.y - b == e - g && a - b == -g;
    WeightedDifference(p.w, Square(e - g), Square(e), Times(e, g), Square(g));
    Associate(p.w, e, g);
  }

  lemma WeightedDifference(w: real, d: real, s: real, t: real, u: real)
    requires d == s - 2.0 * t + u
    ensures Times(w, d) == Times(w, s) - 2.0 * Times(w, t) + Times(w, u)
  {
  }

  lemma {:induction false} ErrorSplit(pts: seq<Obs>, x: seq<real>, z: seq<real>, n: nat)
    requires n <= |pts| && n <= |x| && n <= |z|
    ensures ErrorTo(pts, z, n) == ErrorTo(pts, x, n) + DistanceTo(pts, x, z, n) - 2.0 * CrossTo(pts, x, z, n)
  {
    hide ErrorTerm, DistanceTerm, CrossTerm;
    if n > 0 {
      ErrorSplit(pts, x, z, n - 1);
      ErrorTermSplit(pts[n - 1], x[n - 1], z[n - 1]);
    }
  }

  lemma DistanceTermSign(p: Obs, a: real, b: real)
    requires p.w > 0.0
    ensures DistanceTerm(p, a, b) >= 0.0
    ensures DistanceTerm(p, a, b) == 0.0 ==> a == b
  {
    hide Times, Square;
    SquareSign(a - b);
    TimesSign(p.w, Square(a - b));
    if a != b {
      TimesPositive(p.w, Square(a - b));
    }
  }

  lemma {:induction false} DistanceNonNegative(pts: seq<Obs>, x: seq<real>, z: seq<real>, n: nat)
    requires Positive(pts) && n <= |pts| && n <= |x| && n <= |z|
    ensures DistanceTo(pts, x, z, n) >= 0.0
    ensures DistanceTo(pts, x, z, n) == 0.0 ==> x[..n] == z[..n]
  {
    hide DistanceTerm;
    if n > 0 {
      DistanceNonNegative(pts, x, z, n - 1);
      DistanceTermSign(pts[n - 1], x[n - 1], z[n - 1]);
      assert x[..n] == x[..n - 1] + [x[n - 1]];
      assert z[..n] == z[..n - 1] + [z[n - 1]];
    }
  }

  /** A certified fit beats every non-decreasing `z` by at least their weighted distance. */
  lemma CertifiedIsOptimal(pts: seq<Obs>, x: seq<real>)
    requires Positive(pts) && Certified(pts, x) && |x| == |pts|
    ensures OptimalFit(pts, x)
    ensures forall z: seq<real> | |z| == |pts| && NonDecreasing(z) ::
              SquaredError(pts, z) >= SquaredError(pts, x) + DistanceTo(pts, x, z, |pts|)
  {
    hide Times, Pull, ErrorTerm, DistanceTerm, CrossTerm;
    forall z: seq<real> | |z| == |pts| && NonDecreasing(z)
      ensures SquaredError(pts, z) >= SquaredError(pts, x) + DistanceTo(pts, x, z, |pts|)
      ensures SquaredError(pts, x) <= SquaredError(pts, z)
    {
      ErrorSplit(pts, x, z, |pts|);
      if |pts| > 0 {
        CrossBound(pts, x, z, |pts|);
        TimesZero(Residual(pts, x, |pts|), z[|pts| - 1] - x[|pts| - 1]);
      }
      DistanceNonNegative(pts, x, z, |pts|);
    }
  }

  // ---------------------------------------------------------------------------
  // What optimality alone implies
  // ---------------------------------------------------------------------------

  function Midpoint(x: seq<real>, z: seq<real>): seq<real>
    requires |x| == |z|
  {
    seq(|x|, i requires 0 <= i < |x| => (x[i] + z[i]) / 2.0)
  }

  lemma MidpointTerm(p: Obs, a: real, b: real)
    ensures 4.0 * ErrorTerm(p, (a + b) / 2.0) ==
            2.0 * ErrorTerm(p, a) + 2.0 * ErrorTerm(p, b) - DistanceTerm(p, a, b)
  {
    hide Times, Square;
    var e, f := p.y - a, p.y - b;
    var m := p.y - (a + b) / 2.0;
    assert m == (e + f) / 2.0 && a - b == f - e;
    Parallelogram(e, f);
    WeightedParallelogram(p.w, Square(m), Square(e), Square(f), Square(f - e));
  }

  lemma Parallelogram(e: real, f: real)
    ensures 4.0 * Square((e + f) / 2.0) == 2.0 * Square(e) + 2.0 * Square(f) - Square(f - e)
  {
    var m := (e + f) / 2.0;
    assert 4.0 * (m * m) == (e + f) * (e + f) by {
      assert (2.0 * m) * (2.0 * m) == 4.0 * (m * m);
    }
  }

  lemma WeightedParallelogram(w: real, m: real, s: real, t: real, d: real)
    requires 4.0 * m == 2.0 * s + 2.0 * t - d
    ensures 4.0 * Times(w, m) == 2.0 * Times(w, s) + 2.0 * Times(w, t) - Times(w, d)
  {
    assert w * (4.0 * m) == w * (2.0 * s + 2.0 * t - d);
  }

  lemma {:induction false} MidpointError(pts: seq<Obs>, x: seq<real>, z: seq<real>, n: nat)
    requires n <= |pts| && |x| == |z| && n <= |x|
    ensures 4.0 * ErrorTo(pts, Midpoint(x, z), n) ==
            2.0 * ErrorTo(pts, x, n) + 2.0 * ErrorTo(pts, z, n) - DistanceTo(pts, x, z, n)
  {
    hide ErrorTerm, DistanceTerm;
    if n > 0 {
      MidpointError(pts, x, z, n - 1);
      MidpointTerm(pts[n - 1], x[n - 1], z[n - 1]);
    }
  }

  /** The least-squares non-decreasing fit is unique. */
  lemma OptimalFitUnique(pts: seq<Obs>, x: seq<real>, z: seq<real>)
    requires Positive(pts) && OptimalFit(pts, x) && OptimalFit(pts, z)
    ensures x == z
  {
    var m := Midpoint(x, z);
    assert NonDecreasing(m);
    MidpointError(pts, x, z, |pts|);
    DistanceNonNegative(pts, x, z, |pts|);
    assert SquaredError(pts, x) <= SquaredError(pts, m) && SquaredError(pts, z) <= SquaredError(pts, m);
    assert x[..|pts|] == x && z[..|pts|] == z;
  }

  function Targets(pts: seq<Obs>): seq<real> {
    seq(|pts|, i requires 0 <= i < |pts| => pts[i].y)
  }

  lemma ErrorTermSign(p: Obs, a: real)
    requires p.w > 0.0
    ensures ErrorTerm(p, a) >= 0.0
    ensures a == p.y ==> ErrorTerm(p, a) == 0.0
  {
    hide Times, Square;
    SquareSign(p.y - a);
    TimesSign(p.w, Square(p.y - a));
    if a == p.y {
      assert Square(p.y - a) == 0.0 by {
        assert Square(0.0) == 0.0 by { SquareOfZero(); }
      }
      TimesZero(Square(p.y - a), p.w);
    }
  }

  lemma SquareOfZero()
    ensures Square(0.0) == 0.0
  {
  }

  lemma {:induction false} TargetsHaveNoError(pts: seq<Obs>, n: nat)
    requires Positive(pts) && n <= |pts|
    ensures ErrorTo(pts, Targets(pts), n) == 0.0
  {
    hide ErrorTerm;
    if n > 0 {
      TargetsHaveNoError(pts, n - 1);
      ErrorTermSign(pts[n - 1], Targets(pts)[n - 1]);
    }
  }

  lemma {:induction false} ErrorNonNegative(pts: seq<Obs>, z: seq<real>, n: nat)
    requires Positive(pts) && n <= |pts| && n <= |z|
    ensures ErrorTo(pts, z, n) >= 0.0
  {
    hide ErrorTerm;
    if n > 0 {
      ErrorNonNegative(pts, z, n - 1);
      ErrorTermSign(pts[n - 1], z[n - 1]);
    }
  }

  /** Input that is already non-decreasing is its own fit, so fitting twice changes nothing. */
  lemma FitKeepsNonDecreasing(pts: seq<Obs>, x: seq<real>)
    requires Positive(pts) && OptimalFit(pts, x) && NonDecreasing(Targets(pts))
    ensures x == Targets(pts)
  {
    var t := Targets(pts);
    TargetsHaveNoError(pts, |pts|);
    forall z: seq<real> | |z| == |pts| && NonDecreasing(z)
      ensures SquaredError(pts, t) <= SquaredError(pts, z)
    {
      ErrorNonNegative(pts, z, |pts|);
    }
    OptimalFitUnique(pts, x, t);
  }

  function Clip(a: real, lo: real, hi: real): real {
    if a < lo then lo else if a > hi then hi else a
  }

  function ClipAll(x: seq<real>, lo: real, hi: real): seq<real> {
    seq(|x|, i requires 0 <= i < |x| => Clip(x[i], lo, hi))
  }

  lemma ClipTerm(p: Obs, a: real, lo: real, hi: real)
    requires p.w > 0.0 && lo <= p.y <= hi
    ensures ErrorTerm(p, Clip(a, lo, hi)) <= ErrorTerm(p, a)
  {
    hide Times, Square;
    var c := Clip(a, lo, hi);
    SquareMono(p.y - c, p.y - a);
    TimesMono(p.w, Square(p.y - c), Square(p.y - a));
  }

  lemma {:induction false} ClipError(pts: seq<Obs>, x: seq<real>, lo: real, hi: real, n: nat)
    requires Positive(pts) && |x| == |pts| && n <= |pts|
    requires forall i :: 0 <= i < |pts| ==> lo <= pts[i].y <= hi
    ensures ErrorTo(pts, ClipAll(x, lo, hi), n) <= ErrorTo(pts, x, n)
  {
    hide ErrorTerm;
    if n > 0 {
      ClipError(pts, x, lo, hi, n - 1);
      ClipTerm(pts[n - 1], x[n - 1], lo, hi);
    }
  }

  /** The fit never leaves the range of the targets. */
  lemma FitWithinRange(pts: seq<Obs>, x: seq<real>, lo: real, hi: real)
    requires Positive(pts) && OptimalFit(pts, x) && lo <= hi
    requires forall i :: 0 <= i < |pts| ==> lo <= pts[i].y <= hi
    ensures forall i :: 0 <= i < |x| ==> lo <= x[i] <= hi
  {
    var c := ClipAll(x, lo, hi);
    assert NonDecreasing(c);
    ClipError(pts, x, lo, hi, |pts|);
    assert OptimalFit(pts, c);
    OptimalFitUnique(pts, x, c);
    forall i | 0 <= i < |x|
      ensures lo <= x[i] <= hi
    {
      assert x[i] == c[i];
    }
  }

  function WeightTo(pts: seq<Obs>, n: nat): real
    requires n <= |pts|
  {
    if n == 0 then 0.0 else WeightTo(pts, n - 1) + pts[n - 1].w
  }

  lemma {:induction false} WeightPositive(pts: seq<Obs>, a: nat, b: nat)
    requires Positive(pts) && a <= b <= |pts|
    ensures WeightTo(pts, a) <= WeightTo(pts, b)
    ensures a < b ==> WeightTo(pts, a) < WeightTo(pts, b)
    decreases b
  {
    if a < b {
      WeightPositive(pts, a, b - 1);
    }
  }

  function Shift(x: seq<real>, t: real): seq<real> {
    seq(|x|, i requires 0 <= i < |x| => x[i] + t)
  }

  lemma ShiftTerm(p: Obs, a: real, t: real)
    ensures ErrorTerm(p, a + t) == ErrorTerm(p, a) - 2.0 * Times(t, Pull(p, a)) + Times(Square(t), p.w)
  {
    ErrorTermSplit(p, a, a + t);
    hide Pull, ErrorTerm, Square, Times;
    assert a + t - a == t && a - (a + t) == -t;
    SquareEven(t);
    Commute(Pull(p, a), t);
    Commute(p.w, Square(t));
  }

  lemma {:induction false} ShiftError(pts: seq<Obs>, x: seq<real>, t: real, n: nat)
    requires n <= |pts| && n <= |x|
    ensures ErrorTo(pts, Shift(x, t), n) ==
            ErrorTo(pts, x, n) - 2.0 * Times(t, Residual(pts, x, n)) + Times(Square(t), WeightTo(pts, n))
  {
    hide ErrorTerm, Pull, Times, Square;
    if n == 0 {
      TimesZero(0.0, t);
      TimesZero(0.0, Square(t));
    } else {
      ShiftError(pts, x, t, n - 1);
      var p := pts[n - 1];
      ShiftTerm(p, x[n - 1], t);
      Distribute(t, Residual(pts, x, n - 1), Pull(p, x[n - 1]));
      Distribute(Square(t), WeightTo(pts, n - 1), p.w);
    }
  }

  lemma NoGainByShift(r: real, w: real, t: real)
    requires w > 0.0 && t == Ratio(r, w)
    requires 0.0 <= Times(Square(t), w) - 2.0 * Times(t, r)
    ensures r == 0.0
  {
    Quotient(r, w);
    hide Times;
    Associate(t, t, w);
    SquareSign(t);
    if t != 0.0 {
      TimesPositive(Square(t), w);
      assert false;
    } else {
      TimesZero(t, w);
    }
  }

  function WeightedTotal(pts: seq<Obs>, x: seq<real>, n: nat): real
    requires n <= |pts| && n <= |x|
  {
    if n == 0 then 0.0 else WeightedTotal(pts, x, n - 1) + Times(pts[n - 1].w, x[n - 1])
  }

  lemma {:induction false} ResidualIsTotalGap(pts: seq<Obs>, x: seq<real>, n: nat)
    requires n <= |pts| && n <= |x|
    ensures Residual(pts, x, n) == WeightedTotal(pts, Targets(pts), n) - WeightedTotal(pts, x, n)
  {
    hide Times;
    if n > 0 {
      ResidualIsTotalGap(pts, x, n - 1);
      DistributeMinus(pts[n - 1].w, pts[n - 1].y, x[n - 1]);
    }
  }

  lemma FitHasNoResidual(pts: seq<Obs>, x: seq<real>)
    requires Positive(pts) && OptimalFit(pts, x)
    ensures Residual(pts, x, |pts|) == 0.0
  {
    hide ErrorTerm, Pull, Times, Square;
    var n := |pts|;
    if n > 0 {
      WeightPositive(pts, 0, n);
      var r, w := Residual(pts, x, n), WeightTo(pts, n);
      var t := Ratio(r, w);
      ShiftError(pts, x, t, n);
      assert NonDecreasing(Shift(x, t));
      assert SquaredError(pts, x) <= SquaredError(pts, Shift(x, t));
      NoGainByShift(r, w, t);
    }
  }

  /** The fit preserves the weighted total of the targets. */
  lemma FitKeepsTotal(pts: seq<Obs>, x: seq<real>)
    requires Positive(pts) && OptimalFit(pts, x)
    ensures WeightedTotal(pts, x, |pts|) == WeightedTotal(pts, Targets(pts), |pts|)
  {
    FitHasNoResidual(pts, x);
    ResidualIsTotalGap(pts, x, |pts|);
  }

  // ---------------------------------------------------------------------------
  // Blocks
  // ---------------------------------------------------------------------------

  /** Weighted residual of the points `[a, k)` under the constant value `v`. */
  function Lean(pts: seq<Obs>, a: nat, k: nat, v: real): real
    requires a <= k <= |pts|
    decreases k
  {
    if a == k then 0.0 else Lean(pts, a, k - 1, v) + Pull(pts[k - 1], v)
  }

  function TotalTo(pts: seq<Obs>, n: nat): real
    requires n <= |pts|
  {
    if n == 0 then 0.0 else TotalTo(pts, n - 1) + Times(pts[n - 1].y, pts[n - 1].w)
  }

  /**
   Points `[a, b)` pooled into one block: its value is their weighted mean, and every
   prefix of the block has a weighted mean of at least that value.
   */
  ghost predicate BlockOk(pts: seq<Obs>, a: nat, b: nat, sum: real, weight: real, value: real) {
    && a < b <= |pts|
    && weight == WeightTo(pts, b) - WeightTo(pts, a)
    && sum == TotalTo(pts, b) - TotalTo(pts, a)
    && Times(value, weight) == sum
    && Lean(pts, a, b, value) == 0.0
    && forall k :: a <= k <= b ==> Lean(pts, a, k, value) >= 0.0
  }

  lemma PullShift(p: Obs, u: real, v: real)
    ensures Pull(p, v) == Pull(p, u) + Times(u - v, p.w)
  {
    hide Times;
    assert p.y - v == (p.y - u) + (u - v);
    Distribute(p.w, p.y - u, u - v);
    Commute(p.w, u - v);
  }

  lemma {:induction false} LeanShift(pts: seq<Obs>, a: nat, k: nat, u: real, v: real)
    requires a <= k <= |pts|
    ensures Lean(pts, a, k, v) == Lean(pts, a, k, u) + Times(u - v, WeightTo(pts, k) - WeightTo(pts, a))
    decreases k
  {
    hide Pull, Times;
    if a == k {
      TimesZero(0.0, u - v);
    } else {
      LeanShift(pts, a, k - 1, u, v);
      PullShift(pts[k - 1], u, v);
      Distribute(u - v, WeightTo(pts, k - 1) - WeightTo(pts, a), pts[k - 1].w);
      assert WeightTo(pts, k) - WeightTo(pts, a) == WeightTo(pts, k - 1) - WeightTo(pts, a) + pts[k - 1].w;
    }
  }

  lemma {:induction false} LeanJoin(pts: seq<Obs>, a: nat, b: nat, k: nat, v: real)
    requires a <= b <= k <= |pts|
    ensures Lean(pts, a, k, v) == Lean(pts, a, b, v) + Lean(pts, b, k, v)
    decreases k
  {
    hide Pull;
    if b < k {
      LeanJoin(pts, a, b, k - 1, v);
    }
  }

  lemma MeanBetween(v: real, v1: real, v2: real, w1: real, w2: real)
    requires w1 > 0.0 && w2 > 0.0 && v1 > v2
    requires Times(v, w1 + w2) == Times(v1, w1) + Times(v2, w2)
    ensures v2 <= v <= v1
    ensures Times(v1 - v, w1) == Times(v - v2, w2)
  {
    hide Times;
    Distribute(v, w1, w2);
    DistributeMinus(w1, v1, v);
    DistributeMinus(w2, v, v2);
    if v > v1 {
      TimesPositive(v - v1, w1);
      TimesPositive(v - v2, w2);
      DistributeMinus(w1, v, v1);
      assert false;
    }
    if v < v2 {
      TimesPositive(v2 - v, w2);
      TimesPositive(v1 - v, w1);
      DistributeMinus(w2, v2, v);
      assert false;
    }
  }

  lemma TailLean(lean: real, v1: real, v2: real, v: real, w1: real, w2: real, u: real)
    requires lean >= 0.0 && v2 <= v && u <= w2
    requires Times(v1 - v, w1) == Times(v - v2, w2)
    ensures Times(v1 - v, w1) + lean + Times(v2 - v, u) >= 0.0
    ensures u == w2 && lean == 0.0 ==> Times(v1 - v, w1) + lean + Times(v2 - v, u) == 0.0
  {
    hide Times;
    Negate(v - v2, u);
    assert v2 - v == -(v - v2);
    TimesMono(v - v2, u, w2);
  }

  lemma MergedPrefix(pts: seq<Obs>, a: nat, b: nat, c: nat, v1: real, v2: real, v: real, k: nat)
    requires Positive(pts) && a < b < c <= |pts| && a <= k <= c
    requires v2 <= v <= v1
    requires Times(v1 - v, WeightTo(pts, b) - WeightTo(pts, a)) == Times(v - v2, WeightTo(pts, c) - WeightTo(pts, b))
    requires Lean(pts, a, b, v1) == 0.0 && Lean(pts, b, c, v2) == 0.0
    requires k <= b ==> Lean(pts, a, k, v1) >= 0.0
    requires k >= b ==> Lean(pts, b, k, v2) >= 0.0
    ensures Lean(pts, a, k, v) >= 0.0
    ensures k == c ==> Lean(pts, a, k, v) == 0.0
  {
    hide Pull, Lean, WeightTo, Times;
    if k <= b {
      WeightPositive(pts, a, k);
      LeanShift(pts, a, k, v1, v);
      TimesSign(v1 - v, WeightTo(pts, k) - WeightTo(pts, a));
    } else {
      WeightPositive(pts, k, c);
      LeanJoin(pts, a, b, k, v);
      LeanShift(pts, a, b, v1, v);
      LeanShift(pts, b, k, v2, v);
      TailLean(Lean(pts, b, k, v2), v1, v2, v, WeightTo(pts, b) - WeightTo(pts, a), WeightTo(pts, c) - WeightTo(pts, b),
               WeightTo(pts, k) - WeightTo(pts, b));
    }
  }

  lemma MergeBlocks(pts: seq<Obs>, a: nat, b: nat, c: nat, s1: real, w1: real, v1: real, s2: real, w2: real, v2: real)
    requires Positive(pts)
    requires BlockOk(pts, a, b, s1, w1, v1) && BlockOk(pts, b, c, s2, w2, v2) && v1 > v2
    ensures w1 + w2 > 0.0
    ensures BlockOk(pts, a, c, s1 + s2, w1 + w2, Ratio(s1 + s2, w1 + w2))
    ensures v2 <= Ratio(s1 + s2, w1 + w2) <= v1
  {
    hide Pull, Times;
    WeightPositive(pts, a, b);
    WeightPositive(pts, b, c);
    var v := Ratio(s1 + s2, w1 + w2);
    Quotient(s1 + s2, w1 + w2);
    MeanBetween(v, v1, v2, w1, w2);
    forall k | a <= k <= c
      ensures Lean(pts, a, k, v) >= 0.0 && (k == c ==> Lean(pts, a, k, v) == 0.0)
    {
      MergedPrefix(pts, a, b, c, v1, v2, v, k);
    }
  }

  /** The four parallel stacks describe consecutive blocks that cover the first `m` points. */
  ghost predicate StackOk(pts: seq<Obs>, m: nat, bounds: seq<nat>, sums: seq<real>, weights: seq<real>, values: seq<real>,
                          counts: seq<nat>)
  {
    && |bounds| == |values| + 1
    && |sums| == |weights| == |counts| == |values|
    && bounds[0] == 0 && bounds[|values|] == m
    && forall j :: 0 <= j < |values| ==>
         bounds[j + 1] == bounds[j] + counts[j] && BlockOk(pts, bounds[j], bounds[j + 1], sums[j], weights[j], values[j])
  }

  /** The parts of `StackOk` that speak of lengths and block ends. */
  lemma StackShape(pts: seq<Obs>, m: nat, bounds: seq<nat>, sums: seq<real>, weights: seq<real>, values: seq<real>,
                   counts: seq<nat>)
    requires StackOk(pts, m, bounds, sums, weights, values, counts)
    ensures |bounds| == |values| + 1 && |sums| == |weights| == |counts| == |values|
    ensures bounds[0] == 0 && bounds[|values|] == m
    ensures forall j :: 0 <= j < |values| ==> bounds[j + 1] == bounds[j] + counts[j]
  {
  }

  lemma EmptyCertified(pts: seq<Obs>)
    ensures Certified(pts, [])
    ensures StackOk(pts, 0, [0], [], [], [], [])
  {
  }

  /** Pushing the next point as a block of its own. */
  lemma PushOk(pts: seq<Obs>, m: nat, bounds: seq<nat>, sums: seq<real>, weights: seq<real>, values: seq<real>,
               counts: seq<nat>)
    requires StackOk(pts, m, bounds, sums, weights, values, counts) && m < |pts|
    ensures StackOk(pts, m + 1, bounds + [m + 1], sums + [Times(pts[m].y, pts[m].w)], weights + [pts[m].w], values + [pts[m].y],
                    counts + [1])
  {
    var y, w := pts[m].y, pts[m].w;
    hide Times;
    assert Pull(pts[m], y) == 0.0 by { TimesZero(0.0, w); }
    assert Lean(pts, m, m + 1, y) == Lean(pts, m, m, y) + Pull(pts[m], y);
    assert BlockOk(pts, m, m + 1, Times(y, w), w, y);
    hide BlockOk;
  }

  /** Pooling the two topmost blocks when they are out of order. */
  lemma PoolOk(pts: seq<Obs>, m: nat, bounds: seq<nat>, sums: seq<real>, weights: seq<real>, values: seq<real>,
               counts: seq<nat>, top: nat)
    requires Positive(pts) && StackOk(pts, m, bounds, sums, weights, values, counts)
    requires top == |values| - 1 && top > 0 && values[top - 1] > values[top]
    ensures weights[top - 1] + weights[top] > 0.0
    ensures StackOk(pts, m, bounds[..top] + [m],
                    sums[..top - 1] + [sums[top - 1] + sums[top]],
                    weights[..top - 1] + [weights[top - 1] + weights[top]],
                    values[..top - 1] + [Ratio(sums[top - 1] + sums[top], weights[top - 1] + weights[top])],
                    counts[..top - 1] + [counts[top - 1] + counts[top]])
  {
    MergeBlocks(pts, bounds[top - 1], bounds[top], bounds[top + 1], sums[top - 1], weights[top - 1], values[top - 1],
                sums[top], weights[top], values[top]);
    hide BlockOk;
  }

  // ---------------------------------------------------------------------------
  // Expansion of the blocks
  // ---------------------------------------------------------------------------

  lemma {:induction false} ResidualPrefix(pts: seq<Obs>, x: seq<real>, tail: seq<real>, k: nat)
    requires k <= |x| && k <= |pts|
    ensures Residual(pts, x + tail, k) == Residual(pts, x, k)
  {
    hide Pull;
    if k > 0 {
      ResidualPrefix(pts, x, tail, k - 1);
    }
  }

  lemma {:induction false} ResidualConstant(pts: seq<Obs>, x: seq<real>, a: nat, k: nat, v: real)
    requires a <= k <= |x| && k <= |pts|
    requires forall i :: a <= i < k ==> x[i] == v
    ensures Residual(pts, x, k) == Residual(pts, x, a) + Lean(pts, a, k, v)
    decreases k
  {
    hide Pull;
    if a < k {
      ResidualConstant(pts, x, a, k - 1, v);
    }
  }

  /** Appending a block no lower than the last value keeps the certificate. */
  lemma ExtendCertificate(pts: seq<Obs>, x: seq<real>, b: nat, sum: real, weight: real, v: real)
    requires Certified(pts, x) && BlockOk(pts, |x|, b, sum, weight, v)
    requires x == [] || x[|x| - 1] <= v
    ensures Certified(pts, x + seq(b - |x|, _ => v))
  {
    hide Pull;
    var a := |x|;
    var tail := seq(b - a, _ => v);
    var z := x + tail;
    forall k | 0 <= k <= b
      ensures Residual(pts, z, k) >= 0.0
      ensures k <= a ==> Residual(pts, z, k) == Residual(pts, x, k)
      ensures k == b ==> Residual(pts, z, k) == 0.0
    {
      ResidualPrefix(pts, x, tail, if k <= a then k else a);
      if k > a {
        ResidualConstant(pts, z, a, k, v);
      }
    }
  }

  lemma ExtendByBlock(pts: seq<Obs>, x: seq<real>, j: nat, m: nat, bounds: seq<nat>, sums: seq<real>, weights: seq<real>,
                      values: seq<real>, counts: seq<nat>)
    requires StackOk(pts, m, bounds, sums, weights, values, counts) && j < |values|
    requires Certified(pts, x) && |x| == bounds[j]
    requires x == [] || x[|x| - 1] <= values[j]
    ensures counts[j] > 0 && Certified(pts, x + seq(counts[j], _ => values[j]))
  {
    ExtendCertificate(pts, x, bounds[j + 1], sums[j], weights[j], values[j]);
  }

  /**
   Pool adjacent violators.  Whatever the weights, the result is the optimal fit of the points of
   positive weight.  `merges` counts the pooled pairs of the whole run: one for each kept point after
   the first at most, less one for each jump left in the result.
   */
  method IsotonicRegression(y: seq<real>, weightsGiven: Option<seq<real>>) returns (out: seq<real>, ghost merges: nat)
    requires weightsGiven.Some? ==> |y| <= |weightsGiven.value|
    ensures var pts := Kept(y, WeightsOrOnes(|y|, weightsGiven), |y|);
            && OptimalFit(pts, out)
            && (forall z: seq<real> | |z| == |pts| && NonDecreasing(z) ::
                  SquaredError(pts, z) >= SquaredError(pts, out) + DistanceTo(pts, out, z, |pts|))
    ensures var pts := Kept(y, WeightsOrOnes(|y|, weightsGiven), |y|);
            if pts == [] then merges == 0 else merges + Jumps(out) <= |pts| - 1
  {
    hide Times, Ratio, Kept, StackOk, Certified, OptimalFit, SquaredError, DistanceTo, Jumps, NonDecreasing;
    merges := 0;
    var n := |y|;
    if n == 0 {
      KeptOfNone(y, WeightsOrOnes(0, weightsGiven));
      EmptyCertified([]);
      CertifiedIsOptimal([], []);
      return [], 0;
    }
    var w := if weightsGiven.Some? then weightsGiven.value else seq(n, _ => 1.0);
    ghost var pts := Kept(y, w, n);
    KeptPositive(y, w, n);
    KeptStep(y, w, 0);
    var sums: seq<real>, weights: seq<real>, values: seq<real>, counts: seq<nat> := [], [], [], [];
    ghost var bounds: seq<nat>, m: nat := [0], 0;
    EmptyCertified(pts);
    NothingInOrder();
    for i := 0 to n
      invariant m == |Kept(y, w, i)| <= |pts|
      invariant StackOk(pts, m, bounds, sums, weights, values, counts)
      invariant NonDecreasing(values)
      invariant merges + |values| == m
      invariant m > 0 ==> |values| > 0
    {
      var wi := w[i];
      KeptStep(y, w, i);
      if wi <= 0.0 {
        continue;
      }
      KeptNext(y, w, i, n);
      PushOk(pts, m, bounds, sums, weights, values, counts);
      FrontInOrder(values, values + [y[i]], |values|);
      sums := sums + [Times(y[i], wi)];
      weights := weights + [wi];
      values := values + [y[i]];
      counts := counts + [1];
      m := m + 1;
      bounds := bounds + [m];
      while |values| > 1 && values[|values| - 2] > values[|values| - 1]
        invariant |values| > 0
        invariant StackOk(pts, m, bounds, sums, weights, values, counts)
        invariant NonDecreasing(values[..|values| - 1])
        invariant merges + |values| == m
      {
        StackShape(pts, m, bounds, sums, weights, values, counts);
        var top := |values| - 1;
        var s2, w2, v2, c2 := sums[top], weights[top], values[top], counts[top];
        var s1, w1, v1, c1 := sums[top - 1], weights[top - 1], values[top - 1], counts[top - 1];
        PoolOk(pts, m, bounds, sums, weights, values, counts, top);
        FrontInOrder(values[..top], values[..top - 1] + [Ratio(s1 + s2, w1 + w2)], top - 1);
        sums := sums[..top - 1] + [s1 + s2];
        weights := weights[..top - 1] + [w1 + w2];
        values := values[..top - 1] + [Ratio(s1 + s2, w1 + w2)];
        counts := counts[..top - 1] + [c1 + c2];
        bounds := bounds[..top] + [m];
        merges := merges + 1;
      }
      LastInOrder(values);
    }
    out := ExpandBlocks(values, counts, pts, bounds, sums, weights);
    CertifiedIsOptimal(pts, out);
  }

  /** The blocks of the stack, each value as often as it counts points. */
  method ExpandBlocks(values: seq<real>, counts: seq<nat>, ghost pts: seq<Obs>, ghost bounds: seq<nat>, ghost sums: seq<real>,
                      ghost weights: seq<real>)
    returns (out: seq<real>)
    requires StackOk(pts, |pts|, bounds, sums, weights, values, counts) && NonDecreasing(values)
    ensures Certified(pts, out) && |out| == |pts|
    ensures Jumps(out) <= if |values| == 0 then 0 else |values| - 1
  {
    hide Times, Ratio, StackOk, Certified, Jumps, NonDecreasing;
    out := [];
    NoJumps();
    EmptyCertified(pts);
    StackShape(pts, |pts|, bounds, sums, weights, values, counts);
    for j := 0 to |values|
      invariant Certified(pts, out)
      invariant |out| == bounds[j]
      invariant out != [] ==> j > 0 && out[|out| - 1] == values[j - 1]
      invariant Jumps(out) <= if j == 0 then 0 else j - 1
    {
      NeighboursInOrder(values, j);
      JumpsOfBlock(out, counts[j], values[j]);
      ExtendByBlock(pts, out, j, |pts|, bounds, sums, weights, values, counts);
      out := out + seq(counts[j], _ => values[j]);
    }
  }

  lemma NothingInOrder()
    ensures NonDecreasing([])
  {
  }

  /** What two sequences have in common at the front is in order in both. */
  lemma FrontInOrder(x: seq<real>, z: seq<real>, n: nat)
    requires NonDecreasing(x) && n <= |x| && n <= |z| && x[..n] == z[..n]
    ensures NonDecreasing(z[..n])
  {
    forall i, j | 0 <= i < j < n ensures z[..n][i] <= z[..n][j] {
      assert x[..n][i] == x[i] && x[..n][j] == x[j];
    }
  }

  lemma NeighboursInOrder(x: seq<real>, j: nat)
    requires NonDecreasing(x) && j < |x|
    ensures j > 0 ==> x[j - 1] <= x[j]
  {
  }

  /** How often the sequence changes its value. */
  function Jumps(x: seq<real>): nat {
    if |x| <= 1 then 0 else Jumps(x[..|x| - 1]) + if x[|x| - 1] == x[|x| - 2] then 0 else 1
  }

  lemma NoJumps()
    ensures Jumps([]) == 0
  {
  }

  /** A block adds at most one jump, and none at the beginning. */
  lemma {:induction false} JumpsOfBlock(x: seq<real>, n: nat, v: real)
    ensures Jumps(x + seq(n, _ => v)) <= Jumps(x) + if x == [] then 0 else 1
    ensures n > 0 && x != [] && x[|x| - 1] == v ==> Jumps(x + seq(n, _ => v)) == Jumps(x)
    decreases n
  {
    if n == 0 {
      assert x + seq(n, _ => v) == x;
    } else {
      var all := x + seq(n, _ => v);
      assert all[..|all| - 1] == x + seq((n - 1) as nat, _ => v);
      JumpsOfBlock(x, n - 1, v);
      assert n == 1 ==> x + seq((n - 1) as nat, _ => v) == x;
    }
  }

  lemma LastInOrder(values: seq<real>)
    requires |values| > 0 && NonDecreasing(values[..|values| - 1])
    requires |values| > 1 ==> values[|values| - 2] <= values[|values| - 1]
    ensures NonDecreasing(values)
  {
    forall i, j | 0 <= i <= j < |values|
      ensures values[i] <= values[j]
    {
      var init := values[..|values| - 1];
      if j < |init| {
        assert init[i] <= init[j];
      } else if i < j {
        assert init[i] <= init[|init| - 1];
      }
    }
  }

  lemma {:induction false} KeptPrefix(y: seq<real>, w: seq<real>, i: nat, n: nat)
    requires i <= n <= |y| <= |w|
    ensures Kept(y, w, i) <= Kept(y, w, n)
    decreases n
  {
    if i < n {
      KeptPrefix(y, w, i, n - 1);
    }
  }

  lemma KeptOfNone(y: seq<real>, w: seq<real>)
    requires |y| == 0
    ensures Kept(y, w, 0) == []
  {
  }

  lemma KeptStep(y: seq<real>, w: seq<real>, i: nat)
    requires i < |y| <= |w|
    ensures Kept(y, w, 0) == []
    ensures Kept(y, w, i + 1) == if w[i] <= 0.0 then Kept(y, w, i) else Kept(y, w, i) + [Obs(y[i], w[i])]
  {
  }

  /** A kept point follows the points kept before it. */
  lemma KeptNext(y: seq<real>, w: seq<real>, i: nat, n: nat)
    requires i < n <= |y| <= |w| && w[i] > 0.0
    ensures |Kept(y, w, i)| < |Kept(y, w, n)| && Kept(y, w, n)[|Kept(y, w, i)|] == Obs(y[i], w[i])
  {
    KeptPrefix(y, w, i + 1, n);
    assert Kept(y, w, i + 1)[|Kept(y, w, i)|] == Obs(y[i], w[i]);
  }

  lemma {:induction false} KeptPositive(y: seq<real>, w: seq<real>, n: nat)
    requires n <= |y| <= |w|
    ensures Positive(Kept(y, w, n))
  {
    if n > 0 {
      KeptPositive(y, w, n - 1);
    }
  }

  /** The result is as long as `y` exactly when no weight is zero or negative. */
  lemma {:induction false} KeptAllIffPositive(y: seq<real>, w: seq<real>, n: nat)
    requires n <= |y| <= |w|
    ensures |Kept(y, w, n)| <= n
    ensures |Kept(y, w, n)| == n <==> forall i :: 0 <= i < n ==> w[i] > 0.0
    ensures (forall i :: 0 <= i < n ==> w[i] > 0.0) ==> forall i :: 0 <= i < n ==> Kept(y, w, n)[i] == Obs(y[i], w[i])
  {
    if n > 0 {
      KeptAllIffPositive(y, w, n - 1);
    }
  }
}
