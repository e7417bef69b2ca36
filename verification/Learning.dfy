/** The purged and embargoed split by time (`paper_trading/learning.py`). */
module Learning {
  import opened Arithmetic

  /** A closed trade: its instrument and the seconds it was entered and exited at. */
  datatype Episode = Episode(instrument: string, entry: real, exit: real)

  datatype SplitConfig = SplitConfig(split: real, lookbackMinutes: int, holdMinutes: int, barMinutes: int, embargoBars: int,
                                     tolerance: real)

  function Purge(cfg: SplitConfig): real { (cfg.lookbackMinutes + cfg.holdMinutes) as real * 60.0 }

  function Embargo(cfg: SplitConfig): real {
    (cfg.barMinutes * (if cfg.embargoBars < 1 then 1 else cfg.embargoBars)) as real * 60.0
  }

  function LastExit(eps: seq<Episode>): (r: real)
    requires eps != []
    ensures forall i :: 0 <= i < |eps| ==> eps[i].exit <= r
    ensures exists i :: 0 <= i < |eps| && eps[i].exit == r
  {
    if |eps| == 1 then eps[0].exit else Larger(eps[0].exit, LastExit(eps[1..]))
  }

  /** The cut is `split` of the way from the first entry to the last exit. */
  function Cut(eps: seq<Episode>, cfg: SplitConfig): real
    requires eps != []
  {
    eps[0].entry + Times(LastExit(eps) - eps[0].entry, cfg.split)
  }

  predicate BeforeCut(e: Episode, cut: real, cfg: SplitConfig) {
    e.exit <= cut - Purge(cfg)
  }

  predicate AfterCut(e: Episode, cut: real, cfg: SplitConfig) {
    !BeforeCut(e, cut, cfg) && e.entry >= cut + Embargo(cfg)
  }

  /** `part` is a subsequence of `whole`, taken at the rising positions `at`. */
  ghost predicate TakenAt(part: seq<Episode>, whole: seq<Episode>, at: seq<int>) {
    && |at| == |part|
    && (forall k :: 0 <= k < |at| ==> 0 <= at[k] < |whole| && part[k] == whole[at[k]])
    && forall k, m :: 0 <= k < m < |at| ==> at[k] < at[m]
  }

  /** Two disjoint, order-preserving halves: everything well before the cut, everything well after it, nothing else. */
  ghost predicate IsSplit(eps: seq<Episode>, replay: seq<Episode>, holdout: seq<Episode>, early: seq<int>, late: seq<int>,
                          cut: real, cfg: SplitConfig)
  {
    && TakenAt(replay, eps, early) && TakenAt(holdout, eps, late)
    && (forall i :: 0 <= i < |eps| ==> (i in early <==> BeforeCut(eps[i], cut, cfg)))
    && forall i :: 0 <= i < |eps| ==> (i in late <==> AfterCut(eps[i], cut, cfg))
  }

  lemma SplitStep(eps: seq<Episode>, n: nat, replay: seq<Episode>, holdout: seq<Episode>, early: seq<int>, late: seq<int>,
                  cut: real, cfg: SplitConfig)
    requires n < |eps| && IsSplit(eps[..n], replay, holdout, early, late, cut, cfg)
    ensures var e := eps[n];
            if BeforeCut(e, cut, cfg) then IsSplit(eps[..n + 1], replay + [e], holdout, early + [n], late, cut, cfg)
            else if AfterCut(e, cut, cfg) then IsSplit(eps[..n + 1], replay, holdout + [e], early, late + [n], cut, cfg)
            else IsSplit(eps[..n + 1], replay, holdout, early, late, cut, cfg)
  {
    hide BeforeCut, AfterCut;
    assert !(BeforeCut(eps[n], cut, cfg) && AfterCut(eps[n], cut, cfg)) by {
      OneSide(eps[n], cut, cfg);
    }
    forall i | 0 <= i < n ensures eps[..n][i] == eps[..n + 1][i] == eps[i] {}
    forall k | 0 <= k < |early| ensures early[k] < n {}
    forall k | 0 <= k < |late| ensures late[k] < n {}
  }

  lemma OneSide(e: Episode, cut: real, cfg: SplitConfig)
    ensures !(BeforeCut(e, cut, cfg) && AfterCut(e, cut, cfg))
  {
  }

  method TemporalSplit(eps: seq<Episode>, cfg: SplitConfig) returns (replay: seq<Episode>, holdout: seq<Episode>)
    ensures eps == [] ==> replay == holdout == []
    ensures eps != [] ==> exists early, late :: IsSplit(eps, replay, holdout, early, late, Cut(eps, cfg), cfg)
  {
    if |eps| == 0 {
      return [], [];
    }
    var start, end := eps[0].entry, LastExit(eps);
    var cut := start + Times(end - start, cfg.split);
    replay, holdout := [], [];
    ghost var early, late: seq<int> := [], [];
    for n := 0 to |eps|
      invariant IsSplit(eps[..n], replay, holdout, early, late, cut, cfg)
    {
      SplitStep(eps, n, replay, holdout, early, late, cut, cfg);
      var e := eps[n];
      if e.exit <= cut - Purge(cfg) {
        replay := replay + [e];
        early := early + [n];
      } else if e.entry >= cut + Embargo(cfg) {
        holdout := holdout + [e];
        late := late + [n];
      }
    }
    assert eps[..|eps|] == eps;
    assert IsSplit(eps, replay, holdout, early, late, Cut(eps, cfg), cfg);
  }

  /** Minutes between the two sides: look-back, hold, and the embargo's bars, one at least. */
  function GapMinutes(cfg: SplitConfig): int {
    cfg.lookbackMinutes + cfg.holdMinutes + cfg.barMinutes * if cfg.embargoBars > 1 then cfg.embargoBars else 1
  }

  lemma GapInMinutes(cfg: SplitConfig)
    ensures Purge(cfg) + Embargo(cfg) == 60.0 * GapMinutes(cfg) as real
  {
  }

  /** The sides of the cut in seconds: what must lie between an episode and the cut on either side. */
  lemma SidesInSeconds(eps: seq<Episode>, cfg: SplitConfig, e: Episode)
    requires eps != []
    ensures var cut := eps[0].entry + Times(cfg.split, LastExit(eps) - eps[0].entry);
            var bars := if cfg.embargoBars > 1 then cfg.embargoBars else 1;
            && (BeforeCut(e, Cut(eps, cfg), cfg) <==>
                cut - e.exit >= 60.0 * (cfg.lookbackMinutes + cfg.holdMinutes) as real)
            && (AfterCut(e, Cut(eps, cfg), cfg) <==>
                e.entry - cut >= 60.0 * (cfg.barMinutes * bars) as real
                && cut - e.exit < 60.0 * (cfg.lookbackMinutes + cfg.holdMinutes) as real)
  {
    hide Times;
    Commute(cfg.split, LastExit(eps) - eps[0].entry);
  }

  // ---------------------------------------------------------------------------
  // Two comparable sets
  // ---------------------------------------------------------------------------

  function Instruments(eps: seq<Episode>): set<string> {
    set i | 0 <= i < |eps| :: eps[i].instrument
  }

  function Span(eps: seq<Episode>): real
    requires eps != []
  {
    LastExit(eps) - eps[0].entry
  }

  function CommonSpan(c: seq<Episode>, b: seq<Episode>): (r: real)
    requires c != [] && b != []
    ensures r >= 1.0
  {
    Larger(Larger(Span(c), Span(b)), 1.0)
  }

  /** Same instruments, and starts and ends that differ by at most `tolerance` of the longer span. */
  predicate Comparable(c: seq<Episode>, b: seq<Episode>, cfg: SplitConfig)
    requires c != [] && b != []
  {
    && Instruments(c) == Instruments(b)
    && var span := CommonSpan(c, b);
       && Ratio(Abs(c[0].entry - b[0].entry), span) <= cfg.tolerance
       && Ratio(Abs(LastExit(c) - LastExit(b)), span) <= cfg.tolerance
  }

  lemma RatioBound(x: real, n: real, t: real)
    requires n > 0.0 && Ratio(x, n) <= t
    ensures x <= Times(t, n)
  {
    Quotient(x, n);
    hide Times, Ratio;
    TimesMono(n, Ratio(x, n), t);
    Commute(n, Ratio(x, n));
    Commute(n, t);
  }

  /** How far a cut can move when both ends of a span move by at most `gap`. */
  function Sway(split: real, gap: real): real {
    Times(Abs(1.0 - split), gap) + Times(Abs(split), gap)
  }

  lemma SwayWithinUnit(split: real, gap: real)
    requires 0.0 <= split <= 1.0
    ensures Sway(split, gap) == gap
  {
    hide Times;
    Distribute(gap, 1.0 - split, split);
    TimesOne(gap);
  }

  lemma WeightedGap(w: real, d: real, gap: real)
    requires Abs(d) <= gap
    ensures Times(w, d) <= Times(Abs(w), gap)
  {
    hide Times;
    if w >= 0.0 {
      TimesMono(w, d, gap);
    } else {
      TimesMono(-w, -d, gap);
      Negate(w, d);
      Negate(w, -d);
      Negate(-w, -d);
    }
  }

  lemma CutsClose(c: seq<Episode>, b: seq<Episode>, cfg: SplitConfig)
    requires c != [] && b != [] && Comparable(c, b, cfg)
    ensures Cut(c, cfg) - Cut(b, cfg) <= Sway(cfg.split, Times(cfg.tolerance, CommonSpan(c, b)))
  {
    hide Times, Ratio, LastExit, CommonSpan;
    var gap, f := Times(cfg.tolerance, CommonSpan(c, b)), cfg.split;
    var s, t := c[0].entry - b[0].entry, LastExit(c) - LastExit(b);
    RatioBound(Abs(s), CommonSpan(c, b), cfg.tolerance);
    RatioBound(Abs(t), CommonSpan(c, b), cfg.tolerance);
    WeightedGap(1.0 - f, s, gap);
    WeightedGap(f, t, gap);
    // cut(c) - cut(b) == s + (t - s) f == (1 - f) s + f t
    DistributeMinus(f, LastExit(c) - c[0].entry, LastExit(b) - b[0].entry);
    DistributeMinus(f, t, s);
    DistributeMinus(s, 1.0, f);
    TimesOne(s);
    Commute(s, f);
    Commute(t, f);
  }

  /** Two sets are comparable exactly if they trade the same instruments over nearly the same time. */
  lemma ComparableExactly(c: seq<Episode>, b: seq<Episode>, cfg: SplitConfig)
    requires c != [] && b != []
    ensures var longest := Larger(LastExit(c) - c[0].entry, LastExit(b) - b[0].entry);
            var slack := Times(cfg.tolerance, if longest < 1.0 then 1.0 else longest);
            Comparable(c, b, cfg) <==>
            && (forall i :: 0 <= i < |c| ==> c[i].instrument in Instruments(b))
            && (forall i :: 0 <= i < |b| ==> b[i].instrument in Instruments(c))
            && -slack <= c[0].entry - b[0].entry <= slack && -slack <= LastExit(c) - LastExit(b) <= slack
  {
    hide Times, Ratio, LastExit;
    var span := CommonSpan(c, b);
    AtMostTimes(Abs(c[0].entry - b[0].entry), span, cfg.tolerance);
    AtMostTimes(Abs(LastExit(c) - LastExit(b)), span, cfg.tolerance);
    if (forall i :: 0 <= i < |c| ==> c[i].instrument in Instruments(b))
       && forall i :: 0 <= i < |b| ==> b[i].instrument in Instruments(c) {
      assert Instruments(c) == Instruments(b);
    }
  }

  lemma ComparableSymmetric(c: seq<Episode>, b: seq<Episode>, cfg: SplitConfig)
    requires c != [] && b != [] && Comparable(c, b, cfg)
    ensures Comparable(b, c, cfg) && CommonSpan(b, c) == CommonSpan(c, b)
  {
  }

  /** Within one set the whole purge and embargo lie between any replay exit and any holdout entry. */
  lemma GapWithinSet(cut: real, cfg: SplitConfig, r: Episode, h: Episode)
    requires BeforeCut(r, cut, cfg) && AfterCut(h, cut, cfg)
    ensures h.entry - r.exit >= 60.0 * GapMinutes(cfg) as real
  {
  }

  /** Across two comparable sets at most the sway of the cut is lost. */
  lemma GapAcrossSets(c: seq<Episode>, b: seq<Episode>, cfg: SplitConfig, r: Episode, h: Episode)
    requires c != [] && b != [] && Comparable(c, b, cfg)
    requires (BeforeCut(r, Cut(c, cfg), cfg) && AfterCut(h, Cut(b, cfg), cfg))
          || (BeforeCut(r, Cut(b, cfg), cfg) && AfterCut(h, Cut(c, cfg), cfg))
    ensures h.entry - r.exit >= 60.0 * GapMinutes(cfg) as real - Sway(cfg.split, Times(cfg.tolerance, CommonSpan(c, b)))
    ensures 0.0 <= cfg.split <= 1.0 ==>
              h.entry - r.exit >= 60.0 * GapMinutes(cfg) as real - Times(cfg.tolerance, CommonSpan(c, b))
  {
    GapInMinutes(cfg);
    CutsClose(c, b, cfg);
    ComparableSymmetric(c, b, cfg);
    CutsClose(b, c, cfg);
    hide Times, Cut, CommonSpan, Comparable, Purge, Embargo, Sway, GapMinutes;
    if 0.0 <= cfg.split <= 1.0 {
      SwayWithinUnit(cfg.split, Times(cfg.tolerance, CommonSpan(c, b)));
    }
  }

  /** What the split promises of one half: every episode in it is on its side of the cut. */
  lemma SidesOfSplit(eps: seq<Episode>, replay: seq<Episode>, holdout: seq<Episode>, early: seq<int>, late: seq<int>,
                     cut: real, cfg: SplitConfig)
    requires IsSplit(eps, replay, holdout, early, late, cut, cfg)
    ensures forall e :: e in replay ==> BeforeCut(e, cut, cfg)
    ensures forall e :: e in holdout ==> AfterCut(e, cut, cfg)
  {
    hide BeforeCut, AfterCut;
    forall k | 0 <= k < |replay| ensures BeforeCut(replay[k], cut, cfg) {
      assert early[k] in early;
    }
    forall k | 0 <= k < |holdout| ensures AfterCut(holdout[k], cut, cfg) {
      assert late[k] in late;
    }
  }

  /**
   When two sets are comparable, no replay episode of either ends within purge plus embargo,
   less the tolerated part of the span, of any holdout episode of either.
   */
  lemma NoLeak(c: seq<Episode>, b: seq<Episode>, cfg: SplitConfig,
               rc: seq<Episode>, hc: seq<Episode>, ec: seq<int>, lc: seq<int>,
               rb: seq<Episode>, hb: seq<Episode>, eb: seq<int>, lb: seq<int>)
    requires c != [] && b != [] && Comparable(c, b, cfg) && 0.0 <= cfg.split <= 1.0
    requires IsSplit(c, rc, hc, ec, lc, Cut(c, cfg), cfg) && IsSplit(b, rb, hb, eb, lb, Cut(b, cfg), cfg)
    ensures forall r, h :: r in rc + rb && h in hc + hb ==>
              h.entry - r.exit >= 60.0 * GapMinutes(cfg) as real - Times(cfg.tolerance, CommonSpan(c, b))
  {
    GapInMinutes(cfg);
    SidesOfSplit(c, rc, hc, ec, lc, Cut(c, cfg), cfg);
    SidesOfSplit(b, rb, hb, eb, lb, Cut(b, cfg), cfg);
    RatioBound(Abs(c[0].entry - b[0].entry), CommonSpan(c, b), cfg.tolerance);
    hide BeforeCut, AfterCut, IsSplit, Cut, CommonSpan, Times, Purge, Embargo, Comparable, GapMinutes;
    forall r, h | r in rc + rb && h in hc + hb
      ensures h.entry - r.exit >= Purge(cfg) + Embargo(cfg) - Times(cfg.tolerance, CommonSpan(c, b))
    {
      if r in rc && h in hc {
        GapWithinSet(Cut(c, cfg), cfg, r, h);
      } else if r in rb && h in hb {
        GapWithinSet(Cut(b, cfg), cfg, r, h);
      } else {
        GapAcrossSets(c, b, cfg, r, h);
      }
    }
  }
}
