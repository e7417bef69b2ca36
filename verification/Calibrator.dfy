/**
 The sliding-window probability calibrator of `forecast_engine/calibration.py`: a bounded
 buffer of labelled scores, a cached isotonic fit and a step-function lookup.
 */
module Calibrator {
  import opened Arithmetic
  import opened Isotonic
  import opened Wrappers

  datatype Sample = Sample(score: real, outcome: real)

  // ---------------------------------------------------------------------------
  // Buckets of equal scores
  // ---------------------------------------------------------------------------

  /** How many samples carry the score `s`. */
  function Hits(b: seq<Sample>, s: real): nat {
    if b == [] then 0 else Hits(b[..|b| - 1], s) + if b[|b| - 1].score == s then 1 else 0
  }

  /** Sum of the labels of the samples with score `s`. */
  function Ups(b: seq<Sample>, s: real): real {
    if b == [] then 0.0 else Ups(b[..|b| - 1], s) + if b[|b| - 1].score == s then b[|b| - 1].outcome else 0.0
  }

  lemma {:induction false} BucketAppend(a: seq<Sample>, b: seq<Sample>, s: real)
    ensures Hits(a + b, s) == Hits(a, s) + Hits(b, s)
    ensures Ups(a + b, s) == Ups(a, s) + Ups(b, s)
  {
    if b == [] {
      assert a + b == a;
    } else {
      assert (a + b)[..|a + b| - 1] == a + b[..|b| - 1];
      BucketAppend(a, b[..|b| - 1], s);
    }
  }

  lemma {:induction false} BucketAbsent(b: seq<Sample>, s: real)
    requires forall i :: 0 <= i < |b| ==> b[i].score != s
    ensures Hits(b, s) == 0 && Ups(b, s) == 0.0
  {
    if b != [] {
      BucketAbsent(b[..|b| - 1], s);
    }
  }

  lemma {:induction false} BucketPresent(b: seq<Sample>, s: real, i: nat)
    requires i < |b| && b[i].score == s
    ensures Hits(b, s) > 0
  {
    if i < |b| - 1 {
      BucketPresent(b[..|b| - 1], s, i);
    }
  }

  lemma {:induction false} BucketWitness(b: seq<Sample>, s: real)
    requires Hits(b, s) > 0
    ensures exists i :: 0 <= i < |b| && b[i].score == s
  {
    if b[|b| - 1].score != s {
      BucketWitness(b[..|b| - 1], s);
      var i :| 0 <= i < |b| - 1 && b[..|b| - 1][i].score == s;
      assert b[i].score == s;
    }
  }

  ghost predicate BinaryLabels(b: seq<Sample>) {
    forall i :: 0 <= i < |b| ==> b[i].outcome == 0.0 || b[i].outcome == 1.0
  }

  lemma {:induction false} UpsBounded(b: seq<Sample>, s: real)
    requires BinaryLabels(b)
    ensures 0.0 <= Ups(b, s) <= Hits(b, s) as real
  {
    if b != [] {
      UpsBounded(b[..|b| - 1], s);
    }
  }

  ghost predicate Increasing(xs: seq<real>) {
    forall i, j :: 0 <= i < j < |xs| ==> xs[i] < xs[j]
  }

  /** `xs` lists the distinct scores of the buffer in increasing order. */
  ghost predicate Breakpoints(b: seq<Sample>, xs: seq<real>) {
    && Increasing(xs)
    && (forall i :: 0 <= i < |b| ==> b[i].score in xs)
    && (forall k :: 0 <= k < |xs| ==> Hits(b, xs[k]) > 0)
  }

  /** The mean of `count` outcomes that add up to `total`. */
  function Mean(total: real, count: nat): real
    requires count > 0
  {
    Ratio(total, count as real)
  }

  lemma MeanTimes(total: real, count: nat)
    requires count > 0
    ensures Times(Mean(total, count), count as real) == total
  {
    Quotient(total, count as real);
  }

  /** One point per distinct score: the mean outcome, weighted by how often the score was seen. */
  function Buckets(b: seq<Sample>, xs: seq<real>): (pts: seq<Obs>)
    requires forall k :: 0 <= k < |xs| ==> Hits(b, xs[k]) > 0
  {
    seq(|xs|, k requires 0 <= k < |xs| => Obs(Mean(Ups(b, xs[k]), Hits(b, xs[k])), Hits(b, xs[k]) as real))
  }

  /** The fit of the present buffer. */
  ghost predicate FreshFit(b: seq<Sample>, xs: seq<real>, ys: seq<real>) {
    Breakpoints(b, xs) && OptimalFit(Buckets(b, xs), ys)
  }

  lemma {:induction false} SameElementsSameOrder(xs: seq<real>, zs: seq<real>)
    requires Increasing(xs) && Increasing(zs)
    requires forall s :: s in xs <==> s in zs
    ensures xs == zs
  {
    assert xs != [] ==> xs[0] in xs && xs[0] in zs;
    assert zs != [] ==> zs[0] in zs && zs[0] in xs;
    if xs != [] {
      var x, z := xs[|xs| - 1], zs[|zs| - 1];
      assert x in zs && z in xs;
      assert x == z;
      var xs', zs' := xs[..|xs| - 1], zs[..|zs| - 1];
      forall s
        ensures s in xs' <==> s in zs'
      {
        assert xs == xs' + [x] && zs == zs' + [z];
        assert s in xs' ==> s in xs && s != x;
        assert s in zs' ==> s in zs && s != z;
      }
      SameElementsSameOrder(xs', zs');
      assert xs == xs' + [x] && zs == zs' + [z];
    }
  }

  /** A buffer has one fit: whenever the cache is clean it is the fit a refit would compute. */
  lemma FreshFitUnique(b: seq<Sample>, xs: seq<real>, ys: seq<real>, xs': seq<real>, ys': seq<real>)
    requires FreshFit(b, xs, ys) && FreshFit(b, xs', ys')
    ensures xs == xs' && ys == ys'
  {
    forall s
      ensures s in xs <==> s in xs'
    {
      if s in xs || s in xs' {
        BucketWitness(b, s);
      }
    }
    SameElementsSameOrder(xs, xs');
    BucketsPositive(b, xs);
    OptimalFitUnique(Buckets(b, xs), ys, ys');
  }

  lemma BucketsPositive(b: seq<Sample>, xs: seq<real>)
    requires forall k :: 0 <= k < |xs| ==> Hits(b, xs[k]) > 0
    ensures Positive(Buckets(b, xs))
  {
  }

  lemma MeanInUnit(total: real, count: nat)
    requires count > 0 && 0.0 <= total <= count as real
    ensures 0.0 <= Mean(total, count) <= 1.0
  {
    RatioInUnit(total, count as real);
  }

  /** Fitted values are probabilities. */
  lemma FitIsProbability(b: seq<Sample>, xs: seq<real>, ys: seq<real>)
    requires BinaryLabels(b) && FreshFit(b, xs, ys)
    ensures |ys| == |xs| && forall k :: 0 <= k < |ys| ==> 0.0 <= ys[k] <= 1.0
  {
    var pts := Buckets(b, xs);
    forall k | 0 <= k < |pts|
      ensures 0.0 <= pts[k].y <= 1.0
    {
      UpsBounded(b, xs[k]);
      MeanInUnit(Ups(b, xs[k]), Hits(b, xs[k]));
    }
    BucketsPositive(b, xs);
    FitWithinRange(pts, ys, 0.0, 1.0);
  }

  // ---------------------------------------------------------------------------
  // Lookup
  // ---------------------------------------------------------------------------

  function Clamp(a: real): real {
    if (if 1.0 <= a then 1.0 else a) <= 0.0 then 0.0 else if 1.0 <= a then 1.0 else a
  }

  /** The first index whose breakpoint is at or above `s`, or the length when there is none. */
  function FirstAtOrAbove(xs: seq<real>, s: real): (k: nat)
    ensures k <= |xs|
    ensures forall i :: 0 <= i < k ==> xs[i] < s
    ensures k < |xs| ==> xs[k] >= s
  {
    if xs == [] then 0
    else if xs[0] >= s then 0
    else 1 + FirstAtOrAbove(xs[1..], s)
  }

  lemma {:induction false} FirstIs(xs: seq<real>, s: real, k: nat)
    requires k < |xs| && xs[k] >= s && forall i :: 0 <= i < k ==> xs[i] < s
    ensures FirstAtOrAbove(xs, s) == k
  {
    if k > 0 {
      assert xs[0] < s;
      FirstIs(xs[1..], s, k - 1);
    }
  }

  /** The step function through the fit: the value at the first breakpoint at or above `s`. */
  function StepValue(xs: seq<real>, ys: seq<real>, s: real): real
    requires |xs| == |ys| > 0
  {
    var k := FirstAtOrAbove(xs, s);
    if k < |ys| then ys[k] else ys[|ys| - 1]
  }

  function CalibrationMap(xs: seq<real>, ys: seq<real>): real -> real
    requires |xs| == |ys| > 0
  {
    (s: real) => Clamp(StepValue(xs, ys, s))
  }

  ghost predicate Monotone(g: real -> real) {
    forall s, t :: s <= t ==> g(s) <= g(t)
  }

  lemma CalibrationIsMonotone(b: seq<Sample>, xs: seq<real>, ys: seq<real>)
    requires BinaryLabels(b) && b != [] && FreshFit(b, xs, ys)
    ensures |xs| == |ys| > 0 && Monotone(CalibrationMap(xs, ys))
    ensures forall s :: 0.0 <= CalibrationMap(xs, ys)(s) <= 1.0
  {
    FitIsProbability(b, xs, ys);
    assert b[0].score in xs;
    forall s, t: real | s <= t
      ensures CalibrationMap(xs, ys)(s) <= CalibrationMap(xs, ys)(t)
    {
      var i, j := FirstAtOrAbove(xs, s), FirstAtOrAbove(xs, t);
      assert i <= j;
      assert StepValue(xs, ys, s) <= StepValue(xs, ys, t);
    }
  }

  lemma LookupHitsBreakpoints(b: seq<Sample>, xs: seq<real>, ys: seq<real>, k: nat)
    requires BinaryLabels(b) && FreshFit(b, xs, ys) && k < |xs|
    ensures |ys| == |xs| && CalibrationMap(xs, ys)(xs[k]) == ys[k]
  {
    FitIsProbability(b, xs, ys);
    var i := FirstAtOrAbove(xs, xs[k]);
    assert i == k;
  }

  // ---------------------------------------------------------------------------
  // Brier optimality
  // ---------------------------------------------------------------------------

  /** Sum of squared gaps between the labels and what `g` says of their scores. */
  function Brier(b: seq<Sample>, g: real -> real): real {
    if b == [] then 0.0
    else Brier(b[..|b| - 1], g) + Square(b[|b| - 1].outcome - g(b[|b| - 1].score))
  }

  /** The part of a weighted squared gap that depends on the prediction `z`. */
  function Cost(z: real, ups: real, hits: real): real { Times(Square(z), hits) - 2.0 * Times(z, ups) }

  lemma CostAdds(z: real, u: real, n: real, u': real, n': real)
    ensures Cost(z, u + u', n + n') == Cost(z, u, n) + Cost(z, u', n')
  {
    hide Times, Square;
    Distribute(Square(z), n, n');
    Distribute(z, u, u');
  }

  lemma CostOfNothing(z: real)
    ensures Cost(z, 0.0, 0.0) == 0.0
  {
    hide Times, Square;
    TimesZero(0.0, Square(z));
    TimesZero(0.0, z);
  }

  lemma GapAsCost(outcome: real, z: real)
    ensures Square(outcome - z) == Square(outcome) + Cost(z, outcome, 1.0)
  {
    hide Times, Square;
    SquareOfDifference(outcome, z);
    TimesOne(Square(z));
    Commute(outcome, z);
  }

  lemma WeightedGapAsCost(w: real, m: real, z: real)
    ensures Times(w, Square(m - z)) == Times(w, Square(m)) + Cost(z, Times(m, w), w)
  {
    hide Times, Square;
    SquareOfDifference(m, z);
    WeightedDifference(w, Square(m - z), Square(m), Times(m, z), Square(z));
    Commute(w, Square(z));
    Commute(m, z);
    Scale(z, w, m);
    Commute(w, m);
  }

  function LabelEnergy(b: seq<Sample>): real {
    if b == [] then 0.0 else LabelEnergy(b[..|b| - 1]) + Square(b[|b| - 1].outcome)
  }

  /** Cost of predicting `g` in every bucket, over the first `n` breakpoints. */
  function BucketCost(b: seq<Sample>, xs: seq<real>, g: real -> real, n: nat): real
    requires n <= |xs|
  {
    if n == 0 then 0.0
    else BucketCost(b, xs, g, n - 1) + Cost(g(xs[n - 1]), Ups(b, xs[n - 1]), Hits(b, xs[n - 1]) as real)
  }

  lemma BucketSnoc(b: seq<Sample>, p: Sample, s: real)
    ensures Hits(b + [p], s) == Hits(b, s) + if p.score == s then 1 else 0
    ensures Ups(b + [p], s) == Ups(b, s) + if p.score == s then p.outcome else 0.0
  {
    assert (b + [p])[..|b|] == b;
  }

  /** Adding a sample changes the cost of its own bucket only. */
  lemma {:induction false} BucketCostAdd(b: seq<Sample>, p: Sample, xs: seq<real>, g: real -> real, k: nat, n: nat)
    requires Increasing(xs) && k < |xs| && xs[k] == p.score && n <= |xs|
    ensures BucketCost(b + [p], xs, g, n) ==
            BucketCost(b, xs, g, n) + if k < n then Cost(g(p.score), p.outcome, 1.0) else 0.0
  {
    hide Cost, Hits, Ups;
    if n > 0 {
      BucketCostAdd(b, p, xs, g, k, n - 1);
      var s := xs[n - 1];
      BucketSnoc(b, p, s);
      if n - 1 == k {
        CostAdds(g(s), Ups(b, s), Hits(b, s) as real, p.outcome, 1.0);
      }
    }
  }

  lemma {:induction false} BucketCostOfNothing(xs: seq<real>, g: real -> real, n: nat)
    requires n <= |xs|
    ensures BucketCost([], xs, g, n) == 0.0
  {
    hide Cost;
    if n > 0 {
      BucketCostOfNothing(xs, g, n - 1);
      CostOfNothing(g(xs[n - 1]));
    }
  }

  lemma {:induction false} BrierByBucket(b: seq<Sample>, xs: seq<real>, g: real -> real)
    requires Increasing(xs) && forall i :: 0 <= i < |b| ==> b[i].score in xs
    ensures Brier(b, g) == LabelEnergy(b) + BucketCost(b, xs, g, |xs|)
  {
    hide Cost, Square;
    if b == [] {
      BucketCostOfNothing(xs, g, |xs|);
    } else {
      var p := b[|b| - 1];
      BrierByBucket(b[..|b| - 1], xs, g);
      assert b == b[..|b| - 1] + [p];
      var k :| 0 <= k < |xs| && xs[k] == p.score;
      BucketCostAdd(b[..|b| - 1], p, xs, g, k, |xs|);
      GapAsCost(p.outcome, g(p.score));
    }
  }

  function BucketEnergy(pts: seq<Obs>, n: nat): real
    requires n <= |pts|
  {
    if n == 0 then 0.0 else BucketEnergy(pts, n - 1) + Times(pts[n - 1].w, Square(pts[n - 1].y))
  }

  function Image(g: real -> real, xs: seq<real>): seq<real> {
    seq(|xs|, k requires 0 <= k < |xs| => g(xs[k]))
  }

  lemma {:induction false} ErrorByBucket(b: seq<Sample>, xs: seq<real>, g: real -> real, n: nat)
    requires n <= |xs| && forall k :: 0 <= k < |xs| ==> Hits(b, xs[k]) > 0
    ensures ErrorTo(Buckets(b, xs), Image(g, xs), n) == BucketEnergy(Buckets(b, xs), n) + BucketCost(b, xs, g, n)
  {
    hide Cost, Square, Times, Mean;
    if n > 0 {
      ErrorByBucket(b, xs, g, n - 1);
      var s := xs[n - 1];
      var p := Buckets(b, xs)[n - 1];
      MeanTimes(Ups(b, s), Hits(b, s));
      WeightedGapAsCost(p.w, p.y, g(s));
    }
  }

  /**
   On its own buffer the calibrator has the least Brier score of all monotone maps of the score.
   */
  lemma CalibrationIsBrierOptimal(b: seq<Sample>, xs: seq<real>, ys: seq<real>, g: real -> real)
    requires BinaryLabels(b) && b != [] && FreshFit(b, xs, ys) && Monotone(g)
    ensures |xs| == |ys| > 0 && Brier(b, CalibrationMap(xs, ys)) <= Brier(b, g)
  {
    hide Cost, Square, Times, Clamp, StepValue;
    FitIsProbability(b, xs, ys);
    assert b[0].score in xs;
    var cal := CalibrationMap(xs, ys);
    var pts := Buckets(b, xs);
    forall k | 0 <= k < |xs|
      ensures cal(xs[k]) == ys[k]
    {
      LookupHitsBreakpoints(b, xs, ys, k);
    }
    assert Image(cal, xs) == ys;
    assert NonDecreasing(Image(g, xs));
    BrierByBucket(b, xs, cal);
    BrierByBucket(b, xs, g);
    ErrorByBucket(b, xs, cal, |xs|);
    ErrorByBucket(b, xs, g, |xs|);
    assert SquaredError(pts, ys) <= SquaredError(pts, Image(g, xs));
  }

  // ---------------------------------------------------------------------------
  // Sorting by score
  // ---------------------------------------------------------------------------

  ghost predicate SortedByScore(b: seq<Sample>) {
    forall i, j :: 0 <= i <= j < |b| ==> b[i].score <= b[j].score
  }

  function Insert(p: Sample, b: seq<Sample>): seq<Sample> {
    if b == [] then [p]
    else if p.score < b[|b| - 1].score then Insert(p, b[..|b| - 1]) + [b[|b| - 1]]
    else b + [p]
  }

  /** The stable sort by score. */
  function SortByScore(b: seq<Sample>): seq<Sample> {
    if b == [] then [] else Insert(b[|b| - 1], SortByScore(b[..|b| - 1]))
  }

  lemma {:induction false} InsertSorted(p: Sample, b: seq<Sample>, bound: real)
    requires SortedByScore(b) && p.score <= bound && forall i :: 0 <= i < |b| ==> b[i].score <= bound
    ensures SortedByScore(Insert(p, b)) && forall i :: 0 <= i < |Insert(p, b)| ==> Insert(p, b)[i].score <= bound
  {
    if b != [] && p.score < b[|b| - 1].score {
      InsertSorted(p, b[..|b| - 1], b[|b| - 1].score);
    }
  }

  lemma {:induction false} InsertBuckets(p: Sample, b: seq<Sample>, s: real)
    ensures Hits(Insert(p, b), s) == Hits(b + [p], s) && Ups(Insert(p, b), s) == Ups(b + [p], s)
  {
    BucketAppend(b, [p], s);
    if b != [] && p.score < b[|b| - 1].score {
      var init, last := b[..|b| - 1], b[|b| - 1];
      InsertBuckets(p, init, s);
      BucketAppend(init, [p], s);
      BucketAppend(Insert(p, init), [last], s);
      assert b == init + [last];
      BucketAppend(init, [last], s);
    } else {
      assert Insert(p, b) == b + [p];
    }
  }

  lemma {:induction false} SortIsSorted(b: seq<Sample>)
    ensures SortedByScore(SortByScore(b))
  {
    if b != [] {
      var t, p := SortByScore(b[..|b| - 1]), b[|b| - 1];
      SortIsSorted(b[..|b| - 1]);
      var bound := if t == [] || t[|t| - 1].score < p.score then p.score else t[|t| - 1].score;
      InsertSorted(p, t, bound);
    }
  }

  /** Sorting moves samples and nothing else: every bucket keeps its size and its outcome total. */
  lemma {:induction false} SortKeepsBuckets(b: seq<Sample>, s: real)
    ensures Hits(SortByScore(b), s) == Hits(b, s) && Ups(SortByScore(b), s) == Ups(b, s)
  {
    if b != [] {
      var init, p := b[..|b| - 1], b[|b| - 1];
      SortKeepsBuckets(init, s);
      InsertBuckets(p, SortByScore(init), s);
      BucketAppend(SortByScore(init), [p], s);
      assert b == init + [p];
      BucketAppend(init, [p], s);
    }
  }

  function OutcomeSum(b: seq<Sample>): real {
    if b == [] then 0.0 else OutcomeSum(b[..|b| - 1]) + b[|b| - 1].outcome
  }

  lemma {:induction false} BucketOfRun(run: seq<Sample>, s: real)
    requires forall i :: 0 <= i < |run| ==> run[i].score == s
    ensures Hits(run, s) == |run| && Ups(run, s) == OutcomeSum(run)
  {
    if run != [] {
      BucketOfRun(run[..|run| - 1], s);
    }
  }

  /** In a sorted buffer a bucket is one run. */
  lemma RunIsBucket(pts: seq<Sample>, i: nat, j: nat, s: real)
    requires i <= j <= |pts|
    requires forall t :: 0 <= t < i ==> pts[t].score < s
    requires forall t :: i <= t < j ==> pts[t].score == s
    requires forall t :: j <= t < |pts| ==> pts[t].score > s
    ensures Hits(pts, s) == j - i && Ups(pts, s) == OutcomeSum(pts[i..j])
  {
    var a, run, c := pts[..i], pts[i..j], pts[j..];
    assert pts == (a + run) + c;
    BucketAppend(a + run, c, s);
    BucketAppend(a, run, s);
    BucketAbsent(a, s);
    BucketAbsent(c, s);
    BucketOfRun(run, s);
  }

  // ---------------------------------------------------------------------------
  // The calibrator
  // ---------------------------------------------------------------------------

  /** The runs of the first `i` sorted samples, aggregated. */
  ghost predicate Aggregated(pts: seq<Sample>, i: nat, xs: seq<real>, means: seq<real>, weights: seq<real>) {
    && i <= |pts|
    && |xs| == |means| == |weights| && Increasing(xs)
    && (forall k :: 0 <= k < |xs| ==> Hits(pts, xs[k]) > 0 && weights[k] == Hits(pts, xs[k]) as real)
    && (forall k :: 0 <= k < |xs| ==> Hits(pts, xs[k]) > 0 && means[k] == Mean(Ups(pts, xs[k]), Hits(pts, xs[k])))
    && (forall t :: 0 <= t < i ==> pts[t].score in xs)
    && (xs != [] ==> i > 0 && xs[|xs| - 1] == pts[i - 1].score)
    && (0 < i < |pts| ==> pts[i - 1].score < pts[i].score)
  }

  lemma NothingAggregated(pts: seq<Sample>)
    ensures Aggregated(pts, 0, [], [], [])
  {
  }

  /** One more run of equal scores, `[i, j)`, joins the aggregates. */
  lemma AggregateRun(pts: seq<Sample>, i: nat, j: nat, total: real, xs: seq<real>, means: seq<real>, weights: seq<real>)
    requires SortedByScore(pts) && Aggregated(pts, i, xs, means, weights) && i < j <= |pts|
    requires forall t :: i <= t < j ==> pts[t].score == pts[i].score
    requires j < |pts| ==> pts[j].score != pts[i].score
    requires total == OutcomeSum(pts[i..j])
    ensures Aggregated(pts, j, xs + [pts[i].score], means + [Mean(total, j - i)], weights + [(j - i) as real])
  {
    hide Mean, Hits, Ups, OutcomeSum;
    var s := pts[i].score;
    forall t | 0 <= t < i
      ensures pts[t].score < s
    {
      assert pts[t].score <= pts[i - 1].score;
    }
    RunIsBucket(pts, i, j, s);
    assert Increasing(xs + [s]) by {
      forall a | 0 <= a < |xs|
        ensures xs[a] < s
      {
        assert xs[a] <= xs[|xs| - 1];
      }
    }
    forall t | 0 <= t < j
      ensures pts[t].score in xs + [s]
    {
      assert t >= i ==> pts[t].score == (xs + [s])[|xs|];
    }
  }

  /** The aggregated scores are the breakpoints of the buffer. */
  lemma BreakpointsOfAggregates(b: seq<Sample>, xs: seq<real>)
    requires Increasing(xs)
    requires forall k :: 0 <= k < |xs| ==> Hits(SortByScore(b), xs[k]) > 0
    requires forall t :: 0 <= t < |SortByScore(b)| ==> SortByScore(b)[t].score in xs
    ensures Breakpoints(b, xs)
  {
    hide Hits, Ups, SortByScore;
    forall k | 0 <= k < |xs|
      ensures Hits(b, xs[k]) > 0
    {
      SortKeepsBuckets(b, xs[k]);
    }
    forall i | 0 <= i < |b|
      ensures b[i].score in xs
    {
      BucketPresent(b, b[i].score, i);
      SortKeepsBuckets(b, b[i].score);
      BucketWitness(SortByScore(b), b[i].score);
    }
  }

  /** The aggregated means and weights are the buckets of the buffer. */
  lemma BucketsOfAggregates(b: seq<Sample>, xs: seq<real>, means: seq<real>, weights: seq<real>)
    requires |xs| == |means| == |weights|
    requires forall k :: 0 <= k < |xs| ==> Hits(b, xs[k]) > 0
    requires forall k :: 0 <= k < |xs| ==> weights[k] == Hits(SortByScore(b), xs[k]) as real
    requires forall k :: 0 <= k < |xs| ==>
               Hits(SortByScore(b), xs[k]) > 0 && means[k] == Mean(Ups(SortByScore(b), xs[k]), Hits(SortByScore(b), xs[k]))
    ensures Kept(means, weights, |means|) == Buckets(b, xs)
  {
    hide Hits, Ups, SortByScore, Mean, Kept;
    KeptAllIffPositive(means, weights, |means|);
    forall k | 0 <= k < |xs|
      ensures Kept(means, weights, |means|)[k] == Buckets(b, xs)[k]
    {
      SortKeepsBuckets(b, xs[k]);
    }
  }

  lemma FitOfAggregates(b: seq<Sample>, xs: seq<real>, means: seq<real>, weights: seq<real>)
    requires Aggregated(SortByScore(b), |SortByScore(b)|, xs, means, weights)
    ensures Breakpoints(b, xs) && |means| == |weights|
    ensures Kept(means, weights, |means|) == Buckets(b, xs)
  {
    hide Hits, Ups, SortByScore, Mean;
    BreakpointsOfAggregates(b, xs);
    BucketsOfAggregates(b, xs, means, weights);
  }

  function LastN(b: seq<Sample>, n: nat): seq<Sample> {
    if |b| <= n then b else b[|b| - n..]
  }

  /** The buffer is the end of all that was added, as far as the window reaches. */
  ghost predicate Latest(buffer: seq<Sample>, added: seq<Sample>, window: nat) {
    && |buffer| == (if |added| < window then |added| else window)
    && buffer == added[|added| - |buffer|..]
  }

  lemma LatestOn(buffer: seq<Sample>, added: seq<Sample>, x: Sample, window: nat)
    requires window >= 1 && Latest(buffer, added, window)
    ensures Latest(LastN(buffer + [x], window), added + [x], window)
  {
    var later := added + [x];
    assert buffer + [x] == later[|later| - |buffer| - 1..];
  }

  lemma OneBinary(x: Sample)
    requires x.outcome == 0.0 || x.outcome == 1.0
    ensures BinaryLabels([x])
  {
  }

  lemma LastNBinary(b: seq<Sample>, x: Sample, n: nat)
    requires BinaryLabels(b) && BinaryLabels([x])
    ensures BinaryLabels(LastN(b + [x], n))
  {
    assert x == [x][0];
  }

  class IsotonicCalibrator {
    const window: nat
    const minPoints: nat
    var buffer: seq<Sample>
    var dirty: bool
    var fitX: seq<real>
    var fitY: seq<real>
    /** Everything ever added. */
    ghost var added: seq<Sample>

    /** The buffer holds the latest samples, and a clean cache holds the fit of the present buffer. */
    ghost predicate Valid()
      reads this
    {
      && window >= 1 && minPoints >= 2
      && Latest(buffer, added, window)
      && BinaryLabels(buffer)
      && (!dirty ==> FreshFit(buffer, fitX, fitY))
    }

    constructor (window: nat, minPoints: nat)
      requires window >= 1 && minPoints >= 2
      ensures Valid() && buffer == added == [] && this.window == window && this.minPoints == minPoints
    {
      this.window := window;
      this.minPoints := minPoints;
      buffer, dirty, fitX, fitY := [], true, [], [];
      added := [];
    }

    /** Bad arguments are refused before anything is built. */
    static method Create(window: int, minPoints: int) returns (r: Result<IsotonicCalibrator>)
      ensures r.Ok? <==> window >= 1 && minPoints >= 2
      ensures r.Ok? ==> fresh(r.value) && r.value.Valid() && r.value.added == []
                        && r.value.window == window && r.value.minPoints == minPoints
    {
      if window < 1 {
        return Err("window must be >= 1");
      }
      if minPoints < 2 {
        return Err("min_points must be >= 2");
      }
      var c := new IsotonicCalibrator(window, minPoints);
      return Ok(c);
    }

    predicate Ready()
      reads this
    {
      |buffer| >= minPoints
    }

    method Add(rawScore: real, outcome: real)
      requires Valid()
      modifies this
      ensures Valid() && dirty
      ensures added == old(added) + [Sample(rawScore, if outcome >= 0.5 then 1.0 else 0.0)]
    {
      hide Latest, LastN, FreshFit, BinaryLabels;
      var y := if outcome >= 0.5 then 1.0 else 0.0;
      OneBinary(Sample(rawScore, y));
      LastNBinary(buffer, Sample(rawScore, y), window);
      LatestOn(buffer, added, Sample(rawScore, y), window);
      added := added + [Sample(rawScore, y)];
      buffer := LastN(buffer + [Sample(rawScore, y)], window);
      dirty := true;
    }

    method Refit()
      requires Valid()
      modifies `dirty, `fitX, `fitY
      ensures Valid() && !dirty
    {
      hide Mean, Aggregated, OptimalFit, SquaredError, DistanceTo, SortByScore, Latest;
      if !dirty {
        return;
      }
      var pts := SortByScore(buffer);
      SortIsSorted(buffer);
      var xs: seq<real>, means: seq<real>, weights: seq<real> := [], [], [];
      var i, n := 0, |pts|;
      NothingAggregated(pts);
      while i < n
        invariant 0 <= i <= n
        invariant Aggregated(pts, i, xs, means, weights)
      {
        var j, total := i, 0.0;
        while j < n && pts[j].score == pts[i].score
          invariant i <= j <= n
          invariant forall t :: i <= t < j ==> pts[t].score == pts[i].score
          invariant total == OutcomeSum(pts[i..j])
        {
          assert pts[i..j + 1][..j - i] == pts[i..j];
          total := total + pts[j].outcome;
          j := j + 1;
        }
        AggregateRun(pts, i, j, total, xs, means, weights);
        var count := j - i;
        xs := xs + [pts[i].score];
        means := means + [Mean(total, count)];
        weights := weights + [count as real];
        i := j;
      }
      FitOfAggregates(buffer, xs, means, weights);
      ghost var merges;
      fitX := xs;
      fitY, merges := IsotonicRegression(means, Some(weights));
      dirty := false;
    }

    /** A calibrated probability, or the clamped raw score while the sample is too small. */
    method Calibrate(rawScore: real) returns (r: real)
      requires Valid()
      modifies `dirty, `fitX, `fitY
      ensures Valid()
      ensures 0.0 <= r <= 1.0
      ensures |buffer| < minPoints ==> unchanged(this) && (0.0 <= rawScore <= 1.0 ==> r == rawScore)
      ensures |buffer| < minPoints ==> (rawScore < 0.0 ==> r == 0.0) && (rawScore > 1.0 ==> r == 1.0)
      ensures |buffer| >= minPoints ==>
                |fitX| == |fitY| > 0 && FreshFit(buffer, fitX, fitY) && r == CalibrationMap(fitX, fitY)(rawScore)
      ensures |buffer| >= minPoints ==>
                exists k :: 0 <= k < |fitX| && r == fitY[k] && (forall i :: 0 <= i < k ==> fitX[i] < rawScore)
                            && (rawScore <= fitX[k] || k == |fitX| - 1)
    {
      hide OptimalFit, Buckets, Hits, Ups, NonDecreasing, Latest;
      if !Ready() {
        return Clamp(rawScore);
      }
      Refit();
      var s, xs, ys := rawScore, fitX, fitY;
      FitIsProbability(buffer, xs, ys);
      assert buffer[0].score in xs;
      var out;
      if s <= xs[0] {
        out := ys[0];
      } else if s >= xs[|xs| - 1] {
        out := ys[|xs| - 1];
      } else {
        var lo, hi := 0, |xs|;
        while lo < hi
          invariant 0 <= lo <= hi <= |xs|
          invariant forall k :: 0 <= k < lo ==> xs[k] < s
          invariant forall k :: hi <= k < |xs| ==> xs[k] >= s
        {
          var mid := (lo + hi) / 2;
          if xs[mid] < s {
            lo := mid + 1;
          } else {
            hi := mid;
          }
        }
        assert xs[|xs| - 1] >= s;
        FirstIs(xs, s, lo);
        out := ys[lo];
      }
      assert out == StepValue(xs, ys, s);
      ghost var k := FirstAtOrAbove(xs, s);
      assert out == ys[if k < |ys| then k else |ys| - 1];
      return Clamp(out);
    }
  }
}
