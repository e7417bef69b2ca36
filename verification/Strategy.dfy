/**
 The streaming side of `paper_trading/strategy.py`: indicators fed bar by bar from windows
 that overlap, and the entry trigger that compares two bars with their own averages.
 */
module Strategy {
  import opened Arithmetic
  import opened Indicators
  import opened Market
  import opened Wrappers

  datatype Bar = Bar(ts: int, open: real, high: real, low: real, close: real)

  function Closes(bars: seq<Bar>): seq<real> {
    seq(|bars|, i requires 0 <= i < |bars| => bars[i].close)
  }

  class EMA {
    const period: nat
    const alpha: real
    var value: Option<real>
    var prevValue: Option<real>
    var seedBuf: seq<real>
    var seeded: bool
    /** Every price fed since the last reset. */
    ghost var fed: seq<real>

    /** The current value is the batch average of everything fed; the previous one lacks the last price. */
    ghost predicate Valid()
      reads this
    {
      && period >= 1 && alpha == Alpha(period)
      && value == Ema(fed, period)
      && prevValue == (if fed == [] then None else Ema(fed[..|fed| - 1], period))
      && seeded == (|fed| >= period)
      && seedBuf == if seeded then [] else fed
    }

    constructor (period: nat)
      requires period >= 1
      ensures Valid() && fed == [] && this.period == period
    {
      this.period := period;
      alpha := Alpha(period);
      value, prevValue, seedBuf, seeded := None, None, [], false;
      fed := [];
    }

    method Update(price: real) returns (r: Option<real>)
      requires Valid()
      modifies this
      ensures Valid() && fed == old(fed) + [price] && r == value
    {
      hide Times, Ratio;
      fed := fed + [price];
      assert fed[..|fed| - 1] == old(fed);
      if !seeded {
        seedBuf := seedBuf + [price];
        if |seedBuf| < period {
          value, prevValue := None, None;
          return value;
        }
        value := Some(Ratio(Sum(seedBuf), period as real));
        prevValue := None;
        seeded := true;
        seedBuf := [];
        return value;
      }
      var previous := value.value;
      prevValue := Some(previous);
      value := Some(Blend(alpha, price, previous));
      return value;
    }

    method Reset()
      requires Valid()
      modifies this
      ensures Valid() && fed == []
    {
      value, prevValue, seedBuf, seeded := None, None, [], false;
      fed := [];
    }
  }

  // ---------------------------------------------------------------------------
  // Average true range
  // ---------------------------------------------------------------------------

  /** True range of the last bar: its own range, widened to reach the close before it. */
  function TrueRange(bars: seq<Bar>): real
    requires bars != []
  {
    var b := bars[|bars| - 1];
    if |bars| == 1 then b.high - b.low
    else
      var before := bars[|bars| - 2].close;
      Larger(Larger(b.high - b.low, Abs(b.high - before)), Abs(b.low - before))
  }

  function TrueRanges(bars: seq<Bar>): (r: seq<real>)
    ensures |r| == |bars|
  {
    if bars == [] then [] else TrueRanges(bars[..|bars| - 1]) + [TrueRange(bars)]
  }

  /** Wilder's average: the mean of the first `period` true ranges, then one smoothing a bar. */
  function Atr(bars: seq<Bar>, period: nat): (r: Option<real>)
    requires period >= 1
    ensures r.Some? <==> |bars| >= period
  {
    if |bars| < period then None
    else if |bars| == period then Some(Ratio(Sum(TrueRanges(bars)), period as real))
    else
      var before := Atr(bars[..|bars| - 1], period).value;
      Some(Ratio(Times(before, period as real - 1.0) + TrueRange(bars), period as real))
  }

  /** The true range is the span of the last bar and the close before it. */
  lemma TrueRangeSpan(bars: seq<Bar>)
    requires |bars| >= 2 && bars[|bars| - 1].low <= bars[|bars| - 1].high
    ensures var b, before := bars[|bars| - 1], bars[|bars| - 2].close;
            TrueRange(bars) == Larger(b.high, before) - if b.low < before then b.low else before
  {
  }

  /** Wilder's average in numbers: a mean first, then `period - 1` parts of the average before and one of the range. */
  lemma AtrInNumbers(bars: seq<Bar>, period: nat)
    requires period >= 1 && |bars| >= period
    ensures |bars| == period ==> Times(period as real, Atr(bars, period).value) == Sum(TrueRanges(bars))
    ensures |bars| > period ==>
              Times(period as real, Atr(bars, period).value) ==
              Times(period as real - 1.0, Atr(bars[..|bars| - 1], period).value) + TrueRange(bars)
  {
    hide Times, Ratio, TrueRange, TrueRanges, Sum;
    var n := period as real;
    if |bars| == period {
      Quotient(Sum(TrueRanges(bars)), n);
      Commute(n, Atr(bars, period).value);
    } else {
      var before := Atr(bars[..|bars| - 1], period).value;
      Quotient(Times(before, n - 1.0) + TrueRange(bars), n);
      Commute(n, Atr(bars, period).value);
      Commute(before, n - 1.0);
    }
  }

  class ATR14 {
    const period: nat
    var value: Option<real>
    var trBuf: seq<real>
    var prevClose: Option<real>
    var seeded: bool
    ghost var fed: seq<Bar>

    ghost predicate Valid()
      reads this
    {
      && period >= 1
      && value == Atr(fed, period)
      && prevClose == (if fed == [] then None else Some(fed[|fed| - 1].close))
      && seeded == (|fed| >= period)
      && trBuf == if seeded then [] else TrueRanges(fed)
    }

    constructor (period: nat)
      requires period >= 1
      ensures Valid() && fed == [] && this.period == period
    {
      this.period := period;
      value, trBuf, prevClose, seeded := None, [], None, false;
      fed := [];
    }

    method Update(b: Bar) returns (r: Option<real>)
      requires Valid()
      modifies this
      ensures Valid() && fed == old(fed) + [b] && r == value
    {
      hide Times, Ratio;
      var tr;
      if prevClose.None? {
        tr := b.high - b.low;
      } else {
        tr := Larger(Larger(b.high - b.low, Abs(b.high - prevClose.value)), Abs(b.low - prevClose.value));
      }
      fed := fed + [b];
      assert fed[..|fed| - 1] == old(fed);
      assert tr == TrueRange(fed);
      if !seeded {
        trBuf := trBuf + [tr];
        prevClose := Some(b.close);
        if |trBuf| < period {
          value := None;
          return value;
        }
        value := Some(Ratio(Sum(trBuf), period as real));
        seeded := true;
        trBuf := [];
        return value;
      }
      var previous := value.value;
      value := Some(Ratio(Times(previous, period as real - 1.0) + tr, period as real));
      prevClose := Some(b.close);
      return value;
    }

    method Reset()
      requires Valid()
      modifies this
      ensures Valid() && fed == []
    {
      value, trBuf, prevClose, seeded := None, [], None, false;
      fed := [];
    }
  }

  // ---------------------------------------------------------------------------
  // Overlapping windows
  // ---------------------------------------------------------------------------

  function LastTs(bars: seq<Bar>): Option<int> {
    if bars == [] then None else Some(bars[|bars| - 1].ts)
  }

  /** What is consumed once a window is offered: only bars newer than everything before them are taken. */
  function Consumed(seen: seq<Bar>, window: seq<Bar>): seq<Bar>
    decreases |window|
  {
    if window == [] then seen
    else if LastTs(seen).Some? && window[0].ts <= LastTs(seen).value then Consumed(seen, window[1..])
    else Consumed(seen + [window[0]], window[1..])
  }

  lemma ConsumeStep(seen: seq<Bar>, window: seq<Bar>, i: nat)
    requires i < |window|
    ensures var b := window[i];
            Consumed(seen, window[i..]) ==
            Consumed(if LastTs(seen).Some? && b.ts <= LastTs(seen).value then seen else seen + [b], window[i + 1..])
  {
    assert window[i..][1..] == window[i + 1..];
  }

  lemma ConsumeDone(seen: seq<Bar>, window: seq<Bar>)
    ensures Consumed(seen, window[|window|..]) == seen
  {
  }

  lemma Snoc(seen: seq<Bar>, b: Bar)
    ensures Closes(seen + [b]) == Closes(seen) + [b.close] && LastTs(seen + [b]) == Some(b.ts)
  {
  }

  ghost predicate TimeOrdered(bars: seq<Bar>) {
    forall i, j :: 0 <= i < j < |bars| ==> bars[i].ts < bars[j].ts
  }

  function Later(a: nat, b: nat): nat { if a < b then b else a }

  /** A window `[a, b)` of an ordered stream that starts no later than the consumed part extends it to `b`. */
  lemma {:induction false} WindowExtends(stream: seq<Bar>, n: nat, a: nat, b: nat)
    requires TimeOrdered(stream) && n <= |stream| && a <= b <= |stream| && a <= n
    ensures Consumed(stream[..n], stream[a..b]) == stream[..Later(n, b)]
    decreases b - a
  {
    var w := stream[a..b];
    if a < b {
      ConsumeStep(stream[..n], w, 0);
      assert w[0..] == w && w[1..] == stream[a + 1..b];
      if a < n {
        assert stream[a].ts <= stream[n - 1].ts;
        WindowExtends(stream, n, a + 1, b);
      } else {
        assert n > 0 ==> stream[n - 1].ts < stream[a].ts;
        WindowExtends(stream, n + 1, a + 1, b);
        assert stream[..n + 1] == stream[..n] + [stream[a]];
      }
    }
  }

  /** A window of a stream, by its ends. */
  datatype Span = Span(start: nat, end: nat)

  /** Each window starts no later than what the earlier ones consumed. */
  ghost predicate GapFree(spans: seq<Span>, n: nat, length: nat)
    decreases |spans|
  {
    spans == [] || (spans[0].start <= spans[0].end <= length && spans[0].start <= n
                    && GapFree(spans[1..], Later(n, spans[0].end), length))
  }

  function Reach(spans: seq<Span>, n: nat): nat
    decreases |spans|
  {
    if spans == [] then n else Reach(spans[1..], Later(n, spans[0].end))
  }

  lemma {:induction false} ReachWithin(spans: seq<Span>, n: nat, length: nat)
    requires n <= length && GapFree(spans, n, length)
    ensures n <= Reach(spans, n) <= length
    decreases |spans|
  {
    if spans != [] {
      ReachWithin(spans[1..], Later(n, spans[0].end), length);
    }
  }

  datatype TriggerMode = Breakout | EmaCross | TrendSide | EmaOnly

  datatype Config = Config(
    emaFast: nat, emaSlow: nat, atrPeriod: nat, mode: TriggerMode, enableLong: bool, enableShort: bool,
    slLookback: nat, slFraction: real, tpRr: real, entryFraction: real, feeRate: real, minNetRr: real)

  /** The one-minute trigger: bar before and last bar, each against its own average. */
  predicate MinuteTrigger(mode: TriggerMode, side: Side, prev: Bar, last: Bar, prevEma: real, lastEma: real) {
    match mode
    case TrendSide | EmaOnly => if side.Long? then last.close > lastEma else last.close < lastEma
    case EmaCross =>
      if side.Long? then prev.close <= prevEma && last.close > lastEma
      else prev.close >= prevEma && last.close < lastEma
    case Breakout =>
      if side.Long? then prev.low <= prevEma && last.close > lastEma && last.close > prev.high
      else prev.high >= prevEma && last.close < lastEma && last.close < prev.low
  }

  /** One-hour regime and fifteen-minute confirmation agree with the side. */
  predicate HigherAgree(mode: TriggerMode, side: Side, fast1h: Option<real>, slow1h: Option<real>, ema15m: Option<real>,
                        close15m: Option<real>)
  {
    || mode == EmaOnly
    || (fast1h.Some? && slow1h.Some?
        && (if side.Long? then fast1h.value > slow1h.value else fast1h.value < slow1h.value)
        && (close15m.None?
            || (ema15m.Some?
                && if side.Long? then close15m.value > ema15m.value else close15m.value < ema15m.value)))
  }

  /** The side to enter, from batch averages of the bars consumed on each timeframe. */
  function Decision(cfg: Config, prev: Bar, last: Bar, bars1m: seq<Bar>, bars15m: seq<Bar>, bars1h: seq<Bar>,
                    close15m: Option<real>): (r: Option<Side>)
    requires cfg.emaFast >= 1 && cfg.emaSlow >= 1 && cfg.atrPeriod >= 1
    ensures r.Some? ==> Ema(Closes(bars1m), cfg.emaFast).Some? && Atr(bars1m, cfg.atrPeriod).Some?
  {
    var now := Ema(Closes(bars1m), cfg.emaFast);
    var before := if bars1m == [] then None else Ema(Closes(bars1m[..|bars1m| - 1]), cfg.emaFast);
    var atr := Atr(bars1m, cfg.atrPeriod);
    if now.None? || atr.None? || atr.value <= 0.0 || before.None? then None
    else
      var fast1h, slow1h := Ema(Closes(bars1h), cfg.emaFast), Ema(Closes(bars1h), cfg.emaSlow);
      var ema15m := Ema(Closes(bars15m), cfg.emaFast);
      if cfg.enableLong && HigherAgree(cfg.mode, Long, fast1h, slow1h, ema15m, close15m)
         && MinuteTrigger(cfg.mode, Long, prev, last, before.value, now.value) then Some(Long)
      else if cfg.enableShort && HigherAgree(cfg.mode, Short, fast1h, slow1h, ema15m, close15m)
              && MinuteTrigger(cfg.mode, Short, prev, last, before.value, now.value) then Some(Short)
      else None
  }

  // ---------------------------------------------------------------------------
  // What a decision means
  // ---------------------------------------------------------------------------

  /** The latest average of closes; there must be enough of them. */
  ghost function Average(bars: seq<Bar>, period: nat): real
    requires period >= 1 && Ema(Closes(bars), period).Some?
  {
    Ema(Closes(bars), period).value
  }

  ghost predicate Warm(bars: seq<Bar>, period: nat)
    requires period >= 1
  {
    Ema(Closes(bars), period).Some?
  }

  /** What every long entry needs: a close above its average and, but in one mode, rising higher timeframes. */
  ghost predicate Rising(cfg: Config, last: Bar, bars1m: seq<Bar>, bars15m: seq<Bar>, bars1h: seq<Bar>, close15m: Option<real>)
    requires cfg.emaFast >= 1 && cfg.emaSlow >= 1 && Warm(bars1m, cfg.emaFast)
  {
    && last.close > Average(bars1m, cfg.emaFast)
    && (!cfg.mode.EmaOnly? ==>
          && Warm(bars1h, cfg.emaFast) && Warm(bars1h, cfg.emaSlow)
          && Average(bars1h, cfg.emaFast) > Average(bars1h, cfg.emaSlow)
          && (close15m.Some? ==> Warm(bars15m, cfg.emaFast) && close15m.value > Average(bars15m, cfg.emaFast)))
  }

  ghost predicate Falling(cfg: Config, last: Bar, bars1m: seq<Bar>, bars15m: seq<Bar>, bars1h: seq<Bar>, close15m: Option<real>)
    requires cfg.emaFast >= 1 && cfg.emaSlow >= 1 && Warm(bars1m, cfg.emaFast)
  {
    && last.close < Average(bars1m, cfg.emaFast)
    && (!cfg.mode.EmaOnly? ==>
          && Warm(bars1h, cfg.emaFast) && Warm(bars1h, cfg.emaSlow)
          && Average(bars1h, cfg.emaFast) < Average(bars1h, cfg.emaSlow)
          && (close15m.Some? ==> Warm(bars15m, cfg.emaFast) && close15m.value < Average(bars15m, cfg.emaFast)))
  }

  /** The bar before was on the other side of its own average, and a breakout also goes beyond it. */
  ghost predicate CrossedUp(mode: TriggerMode, prev: Bar, last: Bar, average: real) {
    && (mode.EmaCross? ==> prev.close <= average)
    && (mode.Breakout? ==> prev.low <= average && last.close > prev.high)
  }

  ghost predicate CrossedDown(mode: TriggerMode, prev: Bar, last: Bar, average: real) {
    && (mode.EmaCross? ==> prev.close >= average)
    && (mode.Breakout? ==> prev.high >= average && last.close < prev.low)
  }

  /** There are bars enough for the averages of the last two, and the average range is not zero. */
  ghost predicate Prepared(cfg: Config, bars1m: seq<Bar>)
    requires cfg.emaFast >= 1 && cfg.atrPeriod >= 1
  {
    && bars1m != [] && Warm(bars1m, cfg.emaFast) && Warm(bars1m[..|bars1m| - 1], cfg.emaFast)
    && Atr(bars1m, cfg.atrPeriod).Some? && Atr(bars1m, cfg.atrPeriod).value > 0.0
  }

  /**
   Long is decided exactly when it is enabled and the market rises and crossed up, short exactly when it is
   enabled and the market falls and crossed down; the two never meet.
   */
  lemma DecisionExactly(cfg: Config, prev: Bar, last: Bar, bars1m: seq<Bar>, bars15m: seq<Bar>, bars1h: seq<Bar>,
                        close15m: Option<real>)
    requires cfg.emaFast >= 1 && cfg.emaSlow >= 1 && cfg.atrPeriod >= 1
    ensures var d := Decision(cfg, prev, last, bars1m, bars15m, bars1h, close15m);
            && (d == Some(Long) <==>
                cfg.enableLong && Prepared(cfg, bars1m) && Rising(cfg, last, bars1m, bars15m, bars1h, close15m)
                && CrossedUp(cfg.mode, prev, last, Average(bars1m[..|bars1m| - 1], cfg.emaFast)))
            && (d == Some(Short) <==>
                cfg.enableShort && Prepared(cfg, bars1m) && Falling(cfg, last, bars1m, bars15m, bars1h, close15m)
                && CrossedDown(cfg.mode, prev, last, Average(bars1m[..|bars1m| - 1], cfg.emaFast)))
  {
    hide Ema, Atr;
  }

  // ---------------------------------------------------------------------------
  // The signal
  // ---------------------------------------------------------------------------

  datatype Signal = Signal(
    side: Side, close: real, ts: int, ema: real, atr: real, stopLoss: real, takeProfit: real, zoneLow: real,
    zoneHigh: real, netRr: real)

  /** The last `n` bars, or all of them when there are fewer; a count of zero asks for all. */
  function Lookback(bars: seq<Bar>, n: nat): seq<Bar> {
    if n > 0 && |bars| >= n then bars[|bars| - n..] else bars
  }

  function LowestLow(bars: seq<Bar>): (r: real)
    requires bars != []
    ensures forall b :: b in bars ==> r <= b.low
    ensures exists b :: b in bars && b.low == r
  {
    if |bars| == 1 then bars[0].low
    else
      var rest := LowestLow(bars[1..]);
      assert forall b :: b in bars ==> b == bars[0] || b in bars[1..];
      if bars[0].low <= rest then bars[0].low else rest
  }

  function HighestHigh(bars: seq<Bar>): (r: real)
    requires bars != []
    ensures forall b :: b in bars ==> b.high <= r
    ensures exists b :: b in bars && b.high == r
  {
    if |bars| == 1 then bars[0].high
    else
      var rest := HighestHigh(bars[1..]);
      assert forall b :: b in bars ==> b == bars[0] || b in bars[1..];
      if bars[0].high >= rest then bars[0].high else rest
  }

  /** The stop: beyond the extreme of the bars looked back on, by a share of the average range. */
  function StopLoss(cfg: Config, side: Side, bars: seq<Bar>, atr: real): real
    requires bars != []
  {
    var recent := Lookback(bars, cfg.slLookback);
    if side.Long? then LowestLow(recent) - Times(cfg.slFraction, atr)
    else HighestHigh(recent) + Times(cfg.slFraction, atr)
  }

  /** Where the bars looked back on begin. */
  function LookedFrom(bars: seq<Bar>, n: nat): nat { if |bars| > n then |bars| - n else 0 }

  /** The stop lies a share of the average range beyond the extreme of the last `slLookback` bars. */
  lemma StopExactly(cfg: Config, side: Side, bars: seq<Bar>, atr: real) returns (i: nat)
    requires bars != [] && cfg.slLookback >= 1
    ensures LookedFrom(bars, cfg.slLookback) <= i < |bars|
    ensures side.Long? ==>
              && StopLoss(cfg, side, bars, atr) == bars[i].low - Times(cfg.slFraction, atr)
              && forall k :: LookedFrom(bars, cfg.slLookback) <= k < |bars| ==> bars[i].low <= bars[k].low
    ensures side.Short? ==>
              && StopLoss(cfg, side, bars, atr) == bars[i].high + Times(cfg.slFraction, atr)
              && forall k :: LookedFrom(bars, cfg.slLookback) <= k < |bars| ==> bars[k].high <= bars[i].high
  {
    hide Times, LowestLow, HighestHigh;
    var first, recent := LookedFrom(bars, cfg.slLookback), Lookback(bars, cfg.slLookback);
    assert recent == bars[first..];
    var j := if side.Long? then LowestAt(recent) else HighestAt(recent);
    i := first + j;
    forall k | first <= k < |bars| ensures bars[k] == recent[k - first] {}
    if side.Long? {
      forall k | first <= k < |bars| ensures bars[i].low <= bars[k].low {
        assert recent[j].low <= recent[k - first].low;
      }
    } else {
      forall k | first <= k < |bars| ensures bars[k].high <= bars[i].high {
        assert recent[k - first].high <= recent[j].high;
      }
    }
  }

  ghost function LowestAt(bars: seq<Bar>): (j: nat)
    requires bars != []
    ensures j < |bars| && bars[j].low == LowestLow(bars) && forall k :: 0 <= k < |bars| ==> bars[j].low <= bars[k].low
  {
    var j :| 0 <= j < |bars| && bars[j].low == LowestLow(bars);
    assert forall k :: 0 <= k < |bars| ==> bars[k] in bars;
    j
  }

  ghost function HighestAt(bars: seq<Bar>): (j: nat)
    requires bars != []
    ensures j < |bars| && bars[j].high == HighestHigh(bars) && forall k :: 0 <= k < |bars| ==> bars[k].high <= bars[j].high
  {
    var j :| 0 <= j < |bars| && bars[j].high == HighestHigh(bars);
    assert forall k :: 0 <= k < |bars| ==> bars[k] in bars;
    j
  }

  /** Distance from one price to another in the direction of the side. */
  function Ahead(side: Side, from: real, to: real): real { if side.Long? then to - from else from - to }

  function BuildSignal(cfg: Config, side: Side, bars: seq<Bar>, ema: real, atr: real): Option<Signal>
    requires bars != []
  {
    var bar := bars[|bars| - 1];
    var stop := StopLoss(cfg, side, bars, atr);
    var risk := Ahead(side, stop, bar.close);
    if risk <= 0.0 then None
    else
      var reward := Times(cfg.tpRr, risk);
      var target := if side.Long? then bar.close + reward else bar.close - reward;
      var fees := Times(Times(bar.close, cfg.feeRate), 2.0);
      var netRr := Ratio(Ahead(side, bar.close, target) - fees, risk);
      if netRr < cfg.minNetRr then None
      else
        var zone := Times(cfg.entryFraction, atr);
        Some(Signal(side, bar.close, bar.ts, ema, atr, stop, target, bar.close - zone, bar.close + zone, netRr))
  }

  /**
   A signal is built exactly when the close is on the right side of the stop and what the target adds
   over the least ratio pays both fees.  Its stop is then beyond every bar looked back on, its target
   is a fixed multiple of the risk ahead of the close, and after fees it earns the least ratio.
   */
  lemma SignalExactly(cfg: Config, side: Side, bars: seq<Bar>, ema: real, atr: real)
    requires bars != []
    ensures var close := bars[|bars| - 1].close;
            var risk := Ahead(side, StopLoss(cfg, side, bars, atr), close);
            var fees := Times(Times(close, cfg.feeRate), 2.0);
            var built := BuildSignal(cfg, side, bars, ema, atr);
            && (built.Some? <==> risk > 0.0 && fees <= Times(cfg.tpRr - cfg.minNetRr, risk))
            && (built.Some? ==>
                  var s := built.value;
                  && s.side == side && s.ts == bars[|bars| - 1].ts && s.close == close
                  && Ahead(side, s.stopLoss, close) == risk && Ahead(side, close, s.takeProfit) == Times(cfg.tpRr, risk)
                  && (Ahead(side, close, s.takeProfit) > 0.0 <==> cfg.tpRr > 0.0)
                  && Times(cfg.minNetRr, risk) <= Ahead(side, close, s.takeProfit) - fees
                  && (Times(cfg.slFraction, atr) >= 0.0 ==>
                        forall b :: b in Lookback(bars, cfg.slLookback) ==>
                          if side.Long? then s.stopLoss <= b.low else s.stopLoss >= b.high))
  {
    hide Times, Ratio, LowestLow, HighestHigh;
    var close := bars[|bars| - 1].close;
    var risk := Ahead(side, StopLoss(cfg, side, bars, atr), close);
    var fees := Times(Times(close, cfg.feeRate), 2.0);
    if risk > 0.0 {
      var net := Times(cfg.tpRr, risk) - fees;
      AtLeastTimes(net, risk, cfg.minNetRr);
      DistributeMinus(risk, cfg.tpRr, cfg.minNetRr);
      PositiveFactor(cfg.tpRr, risk);
    }
  }

  lemma PositiveFactor(a: real, b: real)
    requires b > 0.0
    ensures Times(a, b) > 0.0 <==> a > 0.0
  {
    hide Times;
    if a > 0.0 {
      TimesPositive(a, b);
    } else {
      TimesSign(-a, b);
      Negate(a, b);
    }
  }

  lemma SignalSide(cfg: Config, bars: seq<Bar>)
    requires bars != []
    ensures forall side, ema, atr :: BuildSignal(cfg, side, bars, ema, atr).Some? ==>
              BuildSignal(cfg, side, bars, ema, atr).value.side == side
              && BuildSignal(cfg, side, bars, ema, atr).value.close == bars[|bars| - 1].close
  {
    hide Times, Ratio, StopLoss;
  }

  /** The signal of the decided side. */
  function Candidate(cfg: Config, bars: seq<Bar>, bars1m: seq<Bar>, bars15m: seq<Bar>, bars1h: seq<Bar>,
                     close15m: Option<real>): Option<Signal>
    requires cfg.emaFast >= 1 && cfg.emaSlow >= 1 && cfg.atrPeriod >= 1 && |bars| >= 2
  {
    match Decision(cfg, bars[|bars| - 2], bars[|bars| - 1], bars1m, bars15m, bars1h, close15m)
    case None => None
    case Some(side) =>
      BuildSignal(cfg, side, bars, Ema(Closes(bars1m), cfg.emaFast).value, Atr(bars1m, cfg.atrPeriod).value)
  }

  // ---------------------------------------------------------------------------
  // Dropping repeated signals
  // ---------------------------------------------------------------------------

  /** What a signal is remembered by; no context is the empty one. */
  datatype Key = Key(account: string, ts: int, side: Side, context: string)

  function KeyOf(s: Option<Signal>, account: string, context: string): Option<Key> {
    if s.Some? then Some(Key(account, s.value.ts, s.value.side, context)) else None
  }

  /** The key of the last signal that was built. */
  function LastKey(keys: seq<Option<Key>>): Option<Key> {
    if keys == [] then None
    else if keys[|keys| - 1].Some? then keys[|keys| - 1]
    else LastKey(keys[..|keys| - 1])
  }

  lemma LastKeySnoc(keys: seq<Option<Key>>, key: Option<Key>)
    ensures LastKey(keys + [key]) == if key.Some? then key else LastKey(keys)
    ensures Emitted(keys + [key], |keys|) <==> key.Some? && key != LastKey(keys)
  {
    assert (keys + [key])[..|keys|] == keys;
  }

  /** The signal built at turn `i` is passed on. */
  predicate Emitted(keys: seq<Option<Key>>, i: nat)
    requires i < |keys|
  {
    keys[i].Some? && keys[i] != LastKey(keys[..i])
  }

  lemma {:induction false} LastKeyIs(keys: seq<Option<Key>>, i: nat, n: nat)
    requires i < n <= |keys| && keys[i].Some? && forall m :: i < m < n ==> keys[m].None?
    ensures LastKey(keys[..n]) == keys[i]
    decreases n
  {
    assert keys[..n][..n - 1] == keys[..n - 1];
    if i < n - 1 {
      LastKeyIs(keys, i, n - 1);
    }
  }

  /**
   Only the last key is remembered: a signal is passed on a second time exactly when a signal of another
   account, bar, side or context was built in between.
   */
  lemma RepeatedExactly(keys: seq<Option<Key>>, i: nat, j: nat)
    requires i < j < |keys| && keys[i].Some? && keys[j] == keys[i] && forall m :: i < m < j ==> keys[m] != keys[i]
    ensures Emitted(keys, j) <==> exists m :: i < m < j && keys[m].Some?
  {
    if exists m :: i < m < j && keys[m].Some? {
      var m := LastBuilt(keys, i, j);
      LastKeyIs(keys, m, j);
    } else {
      LastKeyIs(keys, i, j);
    }
  }

  lemma {:induction false} LastBuilt(keys: seq<Option<Key>>, i: nat, j: nat) returns (m: nat)
    requires i < j <= |keys| && exists k :: i < k < j && keys[k].Some?
    ensures i < m < j && keys[m].Some? && forall k :: m < k < j ==> keys[k].None?
    decreases j
  {
    m := j - 1;
    if keys[m].None? {
      m := LastBuilt(keys, i, j - 1);
    }
  }

  // ---------------------------------------------------------------------------
  // The short side mirrors the long side
  // ---------------------------------------------------------------------------

  /** The bar of the market turned upside down. */
  function Mirror(b: Bar): Bar { Bar(b.ts, -b.open, -b.low, -b.high, -b.close) }

  function MirrorAll(bars: seq<Bar>): seq<Bar> { seq(|bars|, i requires 0 <= i < |bars| => Mirror(bars[i])) }

  function Negated(xs: seq<real>): seq<real> { seq(|xs|, i requires 0 <= i < |xs| => -xs[i]) }

  function Minus(x: Option<real>): Option<real> { if x.Some? then Some(-x.value) else None }

  function Opposite(side: Side): Side { if side.Long? then Short else Long }

  function Swapped(cfg: Config): Config { cfg.(enableLong := cfg.enableShort, enableShort := cfg.enableLong) }

  lemma {:induction false} SumMirror(xs: seq<real>)
    ensures Sum(Negated(xs)) == -Sum(xs)
  {
    if xs != [] {
      SumMirror(xs[..|xs| - 1]);
      assert Negated(xs)[..|xs| - 1] == Negated(xs[..|xs| - 1]);
    }
  }

  lemma RatioMinus(a: real, b: real)
    requires b != 0.0
    ensures Ratio(-a, b) == -Ratio(a, b)
  {
  }

  lemma {:induction false} EmaMirror(closes: seq<real>, period: nat)
    requires period >= 1
    ensures Ema(Negated(closes), period) == Minus(Ema(closes, period))
  {
    hide Times, Ratio;
    if |closes| == period {
      SumMirror(closes);
      RatioMinus(Sum(closes), period as real);
    } else if |closes| > period {
      var front := closes[..|closes| - 1];
      EmaMirror(front, period);
      assert Negated(closes)[..|closes| - 1] == Negated(front);
      Negate(Alpha(period), closes[|closes| - 1]);
      Negate(1.0 - Alpha(period), Ema(front, period).value);
    }
  }

  lemma RangeMirror(bars: seq<Bar>)
    requires bars != []
    ensures TrueRange(MirrorAll(bars)) == TrueRange(bars)
  {
  }

  lemma {:induction false} RangesMirror(bars: seq<Bar>)
    ensures TrueRanges(MirrorAll(bars)) == TrueRanges(bars)
  {
    hide TrueRange;
    if bars != [] {
      RangeMirror(bars);
      RangesMirror(bars[..|bars| - 1]);
      assert MirrorAll(bars)[..|bars| - 1] == MirrorAll(bars[..|bars| - 1]);
    }
  }

  lemma {:induction false} AtrMirror(bars: seq<Bar>, period: nat)
    requires period >= 1
    ensures Atr(MirrorAll(bars), period) == Atr(bars, period)
  {
    hide Times, Ratio, TrueRanges, TrueRange, Sum;
    if |bars| == period {
      RangesMirror(bars);
    } else if |bars| > period {
      AtrMirror(bars[..|bars| - 1], period);
      RangeMirror(bars);
      assert MirrorAll(bars)[..|bars| - 1] == MirrorAll(bars[..|bars| - 1]);
    }
  }

  /** Averages of mirrored bars. */
  lemma CloseMirror(bars: seq<Bar>, period: nat)
    requires period >= 1
    ensures Ema(Closes(MirrorAll(bars)), period) == Minus(Ema(Closes(bars), period))
    ensures bars != [] ==> Ema(Closes(MirrorAll(bars)[..|bars| - 1]), period) == Minus(Ema(Closes(bars[..|bars| - 1]), period))
  {
    hide Ema;
    EmaMirror(Closes(bars), period);
    assert Closes(MirrorAll(bars)) == Negated(Closes(bars));
    if bars != [] {
      EmaMirror(Closes(bars[..|bars| - 1]), period);
      assert Closes(MirrorAll(bars)[..|bars| - 1]) == Negated(Closes(bars[..|bars| - 1]));
    }
  }

  lemma TriggerMirror(mode: TriggerMode, side: Side, prev: Bar, last: Bar, prevEma: real, lastEma: real)
    ensures MinuteTrigger(mode, Opposite(side), Mirror(prev), Mirror(last), -prevEma, -lastEma)
       <==> MinuteTrigger(mode, side, prev, last, prevEma, lastEma)
    ensures !MinuteTrigger(mode, Long, prev, last, prevEma, lastEma)
         || !MinuteTrigger(mode, Short, prev, last, prevEma, lastEma)
  {
  }

  lemma AgreeMirror(mode: TriggerMode, side: Side, fast1h: Option<real>, slow1h: Option<real>, ema15m: Option<real>,
                    close15m: Option<real>)
    ensures HigherAgree(mode, Opposite(side), Minus(fast1h), Minus(slow1h), Minus(ema15m), Minus(close15m))
       <==> HigherAgree(mode, side, fast1h, slow1h, ema15m, close15m)
  {
  }

  /**
   On the market turned upside down, with the two sides' switches exchanged, the decision is the
   opposite side: the short rules are the mirror of the long ones, and the two never apply at once.
   */
  lemma DecisionMirrors(cfg: Config, prev: Bar, last: Bar, bars1m: seq<Bar>, bars15m: seq<Bar>, bars1h: seq<Bar>,
                        close15m: Option<real>)
    requires cfg.emaFast >= 1 && cfg.emaSlow >= 1 && cfg.atrPeriod >= 1
    ensures var d := Decision(cfg, prev, last, bars1m, bars15m, bars1h, close15m);
            Decision(Swapped(cfg), Mirror(prev), Mirror(last), MirrorAll(bars1m), MirrorAll(bars15m), MirrorAll(bars1h),
                     Minus(close15m))
            == if d.Some? then Some(Opposite(d.value)) else None
  {
    hide Ema, Atr, MinuteTrigger, HigherAgree;
    CloseMirror(bars1m, cfg.emaFast);
    CloseMirror(bars1h, cfg.emaFast);
    CloseMirror(bars1h, cfg.emaSlow);
    CloseMirror(bars15m, cfg.emaFast);
    AtrMirror(bars1m, cfg.atrPeriod);
    if bars1m != [] {
      var now, before := Ema(Closes(bars1m), cfg.emaFast), Ema(Closes(bars1m[..|bars1m| - 1]), cfg.emaFast);
      if now.Some? && before.Some? {
        TriggerMirror(cfg.mode, Long, prev, last, before.value, now.value);
        TriggerMirror(cfg.mode, Short, prev, last, before.value, now.value);
      }
    }
    var fast1h, slow1h := Ema(Closes(bars1h), cfg.emaFast), Ema(Closes(bars1h), cfg.emaSlow);
    var ema15m := Ema(Closes(bars15m), cfg.emaFast);
    AgreeMirror(cfg.mode, Long, fast1h, slow1h, ema15m, close15m);
    AgreeMirror(cfg.mode, Short, fast1h, slow1h, ema15m, close15m);
  }

  // ---------------------------------------------------------------------------
  // One signal a bar
  // ---------------------------------------------------------------------------

  /** One turn of a run: the windows offered, and what the clock says. */
  datatype Turn = Turn(window: Span, barsH1: seq<Bar>, barsM15: seq<Bar>, close15m: Option<real>, inCooldown: bool,
                       dayEnding: bool)

  /** What a turn leaves consumed: a window of fewer than two bars is not looked at. */
  function ConsumedBy(t: Turn, n: nat): nat { if t.window.start + 2 <= t.window.end then t.window.end else n }

  /** Each window starts no later than what the earlier ones consumed, and reaches its end when it is looked at. */
  ghost predicate Fresh(turns: seq<Turn>, n: nat, length: nat)
    decreases |turns|
  {
    turns == [] || (var w := turns[0].window;
                    && w.start <= w.end <= length && w.start <= n <= ConsumedBy(turns[0], n)
                    && Fresh(turns[1..], ConsumedBy(turns[0], n), length))
  }

  /** Bar `i - 1` of the stream triggers the side on the averages of the bars up to it. */
  ghost predicate TriggersAt(cfg: Config, stream: seq<Bar>, i: nat, side: Side)
    requires cfg.emaFast >= 1 && 2 <= i <= |stream|
  {
    var now, before := Ema(Closes(stream[..i]), cfg.emaFast), Ema(Closes(stream[..i - 1]), cfg.emaFast);
    now.Some? && before.Some? && MinuteTrigger(cfg.mode, side, stream[i - 2], stream[i - 1], before.value, now.value)
  }

  /** The key was built on a consumed bar that triggers its side. */
  ghost predicate BuiltOn(cfg: Config, stream: seq<Bar>, n: nat, key: Key, account: string, context: string)
    requires cfg.emaFast >= 1 && n <= |stream|
  {
    key.account == account && key.context == context
    && exists i :: 2 <= i <= n && stream[i - 1].ts == key.ts && TriggersAt(cfg, stream, i, key.side)
  }

  /** A signal is of the last bar, and on a side that the bar triggers. */
  lemma CandidateTriggers(cfg: Config, stream: seq<Bar>, w: Span, bars15m: seq<Bar>, bars1h: seq<Bar>,
                          close15m: Option<real>)
    requires cfg.emaFast >= 1 && cfg.emaSlow >= 1 && cfg.atrPeriod >= 1 && w.start + 2 <= w.end <= |stream|
    ensures var s := Candidate(cfg, stream[w.start..w.end], stream[..w.end], bars15m, bars1h, close15m);
            s.Some? ==> s.value.ts == stream[w.end - 1].ts && TriggersAt(cfg, stream, w.end, s.value.side)
  {
    hide Ema, Atr, MinuteTrigger, HigherAgree, StopLoss;
    assert stream[..w.end][..w.end - 1] == stream[..w.end - 1];
  }

  /** A bar triggers at most one side, so a later signal is of a later bar unless it repeats the last key. */
  lemma LaterBar(cfg: Config, stream: seq<Bar>, n: nat, e: nat, last: Key, next: Key, account: string, context: string)
    requires cfg.emaFast >= 1 && TimeOrdered(stream) && 2 <= n <= e <= |stream|
    requires BuiltOn(cfg, stream, n, last, account, context)
    requires next.account == account && next.context == context && next.ts == stream[e - 1].ts
    requires TriggersAt(cfg, stream, e, next.side)
    ensures last == next || last.ts < next.ts
  {
    hide Ema, MinuteTrigger;
    var i :| 2 <= i <= n && stream[i - 1].ts == last.ts && TriggersAt(cfg, stream, i, last.side);
    if i == e {
      var now, before := Ema(Closes(stream[..i]), cfg.emaFast), Ema(Closes(stream[..i - 1]), cfg.emaFast);
      TriggerMirror(cfg.mode, Long, stream[i - 2], stream[i - 1], before.value, now.value);
      assert last.side == next.side;
    } else {
      assert stream[i - 1].ts < stream[e - 1].ts;
    }
  }

  /** A signal of the run: its bar is consumed and triggers its side. */
  ghost predicate SignalOf(cfg: Config, stream: seq<Bar>, n: nat, s: Signal)
    requires cfg.emaFast >= 1 && n <= |stream|
  {
    exists i :: 2 <= i <= n && stream[i - 1].ts == s.ts && TriggersAt(cfg, stream, i, s.side)
  }

  /** The bar closed, or in a breakout reached, at or below its own average. */
  ghost predicate DipsAt(cfg: Config, stream: seq<Bar>, k: nat)
    requires cfg.emaFast >= 1 && k < |stream|
  {
    && Warm(stream[..k + 1], cfg.emaFast)
    && (if cfg.mode.Breakout? then stream[k].low else stream[k].close) <= Average(stream[..k + 1], cfg.emaFast)
  }

  /** Some bar dips after the bar of the first signal, or with it in a breakout, and before that of the second. */
  ghost predicate DipInside(cfg: Config, stream: seq<Bar>, first: Signal, second: Signal)
    requires cfg.emaFast >= 1
  {
    exists k :: 0 <= k < |stream| && DipsAt(cfg, stream, k) && stream[k].ts < second.ts
                && if cfg.mode.EmaCross? then first.ts < stream[k].ts else first.ts <= stream[k].ts
  }

  /**
   Two long signals of a crossing mode are never about one stay above the average: after the bar of the
   first, or with it in a breakout, and before that of the second some bar dips.
   */
  lemma DipBetween(cfg: Config, stream: seq<Bar>, n: nat, first: Signal, second: Signal)
    requires cfg.emaFast >= 1 && TimeOrdered(stream) && n <= |stream|
    requires SignalOf(cfg, stream, n, first) && SignalOf(cfg, stream, n, second) && first.ts < second.ts
    requires first.side.Long? && second.side.Long? && (cfg.mode.EmaCross? || cfg.mode.Breakout?)
    ensures DipInside(cfg, stream, first, second)
  {
    hide TriggersAt, DipsAt;
    var i :| 2 <= i <= n && stream[i - 1].ts == first.ts && TriggersAt(cfg, stream, i, first.side);
    var j :| 2 <= j <= n && stream[j - 1].ts == second.ts && TriggersAt(cfg, stream, j, second.side);
    EarlierIndex(stream, i - 1, j - 1);
    DipsBefore(cfg, stream, j);
    if cfg.mode.EmaCross? {
      AboveAverage(cfg, stream, i);
    }
    assert i - 1 < j - 2 ==> stream[i - 1].ts < stream[j - 2].ts;
    assert stream[j - 2].ts < stream[j - 1].ts;
  }

  lemma EarlierIndex(stream: seq<Bar>, i: nat, j: nat)
    requires TimeOrdered(stream) && i < |stream| && j < |stream| && stream[i].ts < stream[j].ts
    ensures i < j
  {
  }

  lemma DipsBefore(cfg: Config, stream: seq<Bar>, j: nat)
    requires cfg.emaFast >= 1 && 2 <= j <= |stream| && TriggersAt(cfg, stream, j, Long)
    requires cfg.mode.EmaCross? || cfg.mode.Breakout?
    ensures DipsAt(cfg, stream, j - 2)
  {
    hide Ema;
    assert stream[..j - 2 + 1] == stream[..j - 1];
  }

  lemma AboveAverage(cfg: Config, stream: seq<Bar>, i: nat)
    requires cfg.emaFast >= 1 && 2 <= i <= |stream| && TriggersAt(cfg, stream, i, Long) && cfg.mode.EmaCross?
    ensures !DipsAt(cfg, stream, i - 1)
  {
    hide Ema;
    assert stream[..i - 1 + 1] == stream[..i];
  }

  lemma SignalBuilt(cfg: Config, stream: seq<Bar>, e: nat, s: Signal)
    requires cfg.emaFast >= 1 && 2 <= e <= |stream| && s.ts == stream[e - 1].ts && TriggersAt(cfg, stream, e, s.side)
    ensures SignalOf(cfg, stream, e, s)
  {
  }

  lemma NoSignals(cfg: Config, stream: seq<Bar>)
    requires cfg.emaFast >= 1
    ensures Advancing(cfg, stream, 0, [], None)
  {
  }

  predicate IsLong(s: Option<Signal>) { s.Some? && s.value.side.Long? }

  /** Signals so far are of ever later consumed bars, up to that of the last key. */
  ghost predicate Advancing(cfg: Config, stream: seq<Bar>, n: nat, signals: seq<Option<Signal>>, last: Option<Key>)
    requires cfg.emaFast >= 1 && n <= |stream|
  {
    && (forall i :: 0 <= i < |signals| && signals[i].Some? ==>
          last.Some? && signals[i].value.ts <= last.value.ts && SignalOf(cfg, stream, n, signals[i].value))
    && forall i, j :: 0 <= i < j < |signals| && signals[i].Some? && signals[j].Some? ==>
         signals[i].value.ts < signals[j].value.ts
  }

  lemma AdvancingOn(cfg: Config, stream: seq<Bar>, n: nat, e: nat, signals: seq<Option<Signal>>, last: Option<Key>,
                    signal: Option<Signal>, key: Option<Key>)
    requires cfg.emaFast >= 1 && n <= e <= |stream| && Advancing(cfg, stream, n, signals, last)
    requires signal.Some? ==>
               && key.Some? && signal.value.ts == key.value.ts && SignalOf(cfg, stream, e, signal.value)
               && (last.Some? ==> last.value.ts < signal.value.ts)
    requires key.Some? && last.Some? ==> last.value.ts <= key.value.ts
    ensures Advancing(cfg, stream, e, signals + [signal], if key.Some? then key else last)
  {
    hide TriggersAt;
    var all, now := signals + [signal], if key.Some? then key else last;
    forall i | 0 <= i < |all| && all[i].Some?
      ensures now.Some? && all[i].value.ts <= now.value.ts && SignalOf(cfg, stream, e, all[i].value)
    {
      assert i < |signals| ==> all[i] == signals[i] && SignalOf(cfg, stream, n, signals[i].value);
    }
    forall i, j | 0 <= i < j < |all| && all[i].Some? && all[j].Some? ensures all[i].value.ts < all[j].value.ts {
      assert all[i] == signals[i] && (j < |signals| ==> all[j] == signals[j]);
    }
  }

  lemma DipsInside(cfg: Config, stream: seq<Bar>, n: nat, signals: seq<Option<Signal>>, last: Option<Key>)
    requires cfg.emaFast >= 1 && TimeOrdered(stream) && n <= |stream| && Advancing(cfg, stream, n, signals, last)
    ensures forall i, j :: 0 <= i < j < |signals| && signals[i].Some? && signals[j].Some? ==>
              signals[i].value.ts < signals[j].value.ts
    ensures cfg.mode.EmaCross? || cfg.mode.Breakout? ==>
              forall i, j :: 0 <= i < j < |signals| && IsLong(signals[i]) && IsLong(signals[j]) ==>
                DipInside(cfg, stream, signals[i].value, signals[j].value)
  {
    hide SignalOf, DipInside, TimeOrdered;
    if cfg.mode.EmaCross? || cfg.mode.Breakout? {
      forall i, j | 0 <= i < j < |signals| && IsLong(signals[i]) && IsLong(signals[j])
        ensures DipInside(cfg, stream, signals[i].value, signals[j].value)
      {
        DipBetween(cfg, stream, n, signals[i].value, signals[j].value);
      }
    }
  }

  lemma EmittedStays(keys: seq<Option<Key>>, key: Option<Key>)
    ensures forall i :: 0 <= i < |keys| ==> (Emitted(keys + [key], i) <==> Emitted(keys, i))
  {
    hide LastKey;
    forall i | 0 <= i < |keys| ensures Emitted(keys + [key], i) <==> Emitted(keys, i) {
      assert (keys + [key])[..i] == keys[..i];
    }
  }

  lemma KeyBuilt(cfg: Config, stream: seq<Bar>, e: nat, key: Key, account: string, context: string)
    requires cfg.emaFast >= 1 && 2 <= e <= |stream| && key.account == account && key.context == context
    requires key.ts == stream[e - 1].ts && TriggersAt(cfg, stream, e, key.side)
    ensures BuiltOn(cfg, stream, e, key, account, context)
  {
  }

  lemma StillBuilt(cfg: Config, stream: seq<Bar>, n: nat, e: nat, key: Key, account: string, context: string)
    requires cfg.emaFast >= 1 && n <= e <= |stream| && BuiltOn(cfg, stream, n, key, account, context)
    ensures BuiltOn(cfg, stream, e, key, account, context)
  {
    hide TriggersAt;
  }


  lemma NothingSeen()
    ensures Closes([]) == [] && LastTs([]) == None && LastKey([]) == None
  {
  }

  class BaselineV1Strategy {
    const cfg: Config
    const ema20h1: EMA
    const ema50h1: EMA
    const ema20m15: EMA
    const ema20m1: EMA
    const atr14m1: ATR14
    var lastH1: Option<int>
    var lastM15: Option<int>
    var lastM1: Option<int>
    var lastSignalTs: Option<int>
    var dedupKey: Option<Key>
    /** Bars consumed on each timeframe. */
    ghost var seenH1: seq<Bar>
    ghost var seenM15: seq<Bar>
    ghost var seenM1: seq<Bar>
    /** Keys of the signals built, turn by turn. */
    ghost var keys: seq<Option<Key>>

    ghost predicate Valid()
      reads this, ema20h1, ema50h1, ema20m15, ema20m1, atr14m1
    {
      && cfg.emaFast >= 1 && cfg.emaSlow >= 1 && cfg.atrPeriod >= 1
      && ema20h1 != ema50h1 && ema20h1 != ema20m15 && ema20h1 != ema20m1
      && ema50h1 != ema20m15 && ema50h1 != ema20m1 && ema20m15 != ema20m1
      && ema20h1.Valid() && ema50h1.Valid() && ema20m15.Valid() && ema20m1.Valid() && atr14m1.Valid()
      && ema20h1.period == ema20m15.period == ema20m1.period == cfg.emaFast && ema50h1.period == cfg.emaSlow
      && atr14m1.period == cfg.atrPeriod
      && ema20h1.fed == ema50h1.fed == Closes(seenH1)
      && ema20m15.fed == Closes(seenM15)
      && ema20m1.fed == Closes(seenM1) && atr14m1.fed == seenM1
      && lastH1 == LastTs(seenH1) && lastM15 == LastTs(seenM15) && lastM1 == LastTs(seenM1)
      && dedupKey == LastKey(keys)
    }

    constructor (cfg: Config)
      requires cfg.emaFast >= 1 && cfg.emaSlow >= 1 && cfg.atrPeriod >= 1
      ensures Valid() && this.cfg == cfg && seenH1 == seenM15 == seenM1 == [] && keys == []
      ensures fresh(ema20h1) && fresh(ema50h1) && fresh(ema20m15) && fresh(ema20m1) && fresh(atr14m1)
    {
      this.cfg := cfg;
      ema20h1 := new EMA(cfg.emaFast);
      ema50h1 := new EMA(cfg.emaSlow);
      ema20m15 := new EMA(cfg.emaFast);
      ema20m1 := new EMA(cfg.emaFast);
      atr14m1 := new ATR14(cfg.atrPeriod);
      lastH1, lastM15, lastM1 := None, None, None;
      lastSignalTs, dedupKey, keys := None, None, [];
      seenH1, seenM15, seenM1 := [], [], [];
    }

    /** Forgets every bar and the last signal: the averages start again from nothing. */
    method Reset()
      requires Valid()
      modifies this, ema20h1, ema50h1, ema20m15, ema20m1, atr14m1
      ensures Valid() && seenH1 == seenM15 == seenM1 == [] && keys == []
    {
      hide Ema, Atr, Closes, LastTs, LastKey, EMA.Valid, ATR14.Valid;
      ResetAverages();
      lastH1, lastM15, lastM1 := None, None, None;
      lastSignalTs, dedupKey, keys := None, None, [];
      seenH1, seenM15, seenM1 := [], [], [];
      NothingSeen();
    }

    method ResetAverages()
      requires Valid()
      modifies ema20h1, ema50h1, ema20m15, ema20m1, atr14m1
      ensures ema20h1.Valid() && ema50h1.Valid() && ema20m15.Valid() && ema20m1.Valid() && atr14m1.Valid()
      ensures ema20h1.fed == ema50h1.fed == ema20m15.fed == ema20m1.fed == [] && atr14m1.fed == []
    {
      hide Ema, Atr, Closes, LastTs, LastKey, EMA.Valid, ATR14.Valid;
      ema20h1.Reset();
      ema50h1.Reset();
      ema20m15.Reset();
      ema20m1.Reset();
      atr14m1.Reset();
    }

    method UpdateHigherTimeframes(barsH1: seq<Bar>, barsM15: seq<Bar>)
      requires Valid()
      modifies this, ema20h1, ema50h1, ema20m15
      ensures Valid() && seenM1 == old(seenM1) && keys == old(keys)
      ensures seenH1 == Consumed(old(seenH1), barsH1)
      ensures seenM15 == Consumed(old(seenM15), barsM15)
    {
      hide Ema, Atr, Consumed, Closes, LastTs, LastKey, EMA.Valid, ATR14.Valid;
      for i := 0 to |barsH1|
        invariant Valid() && seenM1 == old(seenM1) && seenM15 == old(seenM15) && keys == old(keys)
        invariant Consumed(seenH1, barsH1[i..]) == Consumed(old(seenH1), barsH1)
      {
        var b := barsH1[i];
        ConsumeStep(seenH1, barsH1, i);
        if lastH1.Some? && b.ts <= lastH1.value {
          continue;
        }
        var _ := ema20h1.Update(b.close);
        var _ := ema50h1.Update(b.close);
        lastH1 := Some(b.ts);
        Snoc(seenH1, b);
        seenH1 := seenH1 + [b];
      }
      ConsumeDone(seenH1, barsH1);
      for i := 0 to |barsM15|
        invariant Valid() && seenM1 == old(seenM1) && keys == old(keys)
        invariant seenH1 == Consumed(old(seenH1), barsH1)
        invariant Consumed(seenM15, barsM15[i..]) == Consumed(old(seenM15), barsM15)
      {
        var b := barsM15[i];
        ConsumeStep(seenM15, barsM15, i);
        if lastM15.Some? && b.ts <= lastM15.value {
          continue;
        }
        var _ := ema20m15.Update(b.close);
        lastM15 := Some(b.ts);
        Snoc(seenM15, b);
        seenM15 := seenM15 + [b];
      }
      ConsumeDone(seenM15, barsM15);
    }

    method UpdateM1(bars: seq<Bar>)
      requires Valid()
      modifies this, ema20m1, atr14m1
      ensures Valid() && seenH1 == old(seenH1) && seenM15 == old(seenM15) && keys == old(keys)
      ensures seenM1 == Consumed(old(seenM1), bars)
    {
      hide Ema, Atr, Consumed, Closes, LastTs, LastKey, EMA.Valid, ATR14.Valid;
      for i := 0 to |bars|
        invariant Valid() && seenH1 == old(seenH1) && seenM15 == old(seenM15) && keys == old(keys)
        invariant Consumed(seenM1, bars[i..]) == Consumed(old(seenM1), bars)
      {
        var b := bars[i];
        ConsumeStep(seenM1, bars, i);
        if lastM1.Some? && b.ts <= lastM1.value {
          continue;
        }
        var _ := ema20m1.Update(b.close);
        var _ := atr14m1.Update(b);
        lastM1 := Some(b.ts);
        Snoc(seenM1, b);
        seenM1 := seenM1 + [b];
      }
      ConsumeDone(seenM1, bars);
    }

    /** The averages a decision reads are batch averages: of all consumed closes, and of all but the last. */
    lemma Averages()
      requires Valid()
      ensures ema20m1.value == Ema(Closes(seenM1), cfg.emaFast)
      ensures ema20m1.prevValue ==
              if seenM1 == [] then None else Ema(Closes(seenM1[..|seenM1| - 1]), cfg.emaFast)
      ensures atr14m1.value == Atr(seenM1, cfg.atrPeriod)
      ensures ema20h1.value == Ema(Closes(seenH1), cfg.emaFast) && ema50h1.value == Ema(Closes(seenH1), cfg.emaSlow)
      ensures ema20m15.value == Ema(Closes(seenM15), cfg.emaFast)
    {
      hide Ema, Atr;
      assert seenM1 != [] ==> Closes(seenM1)[..|seenM1| - 1] == Closes(seenM1[..|seenM1| - 1]);
    }

    /** Builds the signal of a side, and drops it when it repeats the last one. */
    method MaybeEmit(side: Side, bars: seq<Bar>, ema: real, atr: real, account: string, context: string)
      returns (r: Option<Signal>)
      requires Valid() && bars != []
      modifies this`lastSignalTs, this`dedupKey, this`keys
      ensures Valid() && keys == old(keys) + [KeyOf(BuildSignal(cfg, side, bars, ema, atr), account, context)]
      ensures r == if Emitted(keys, |keys| - 1) then BuildSignal(cfg, side, bars, ema, atr) else None
    {
      hide BuildSignal, LastTs, Closes, LastKey, Emitted, EMA.Valid, ATR14.Valid;
      var signal := BuildSignal(cfg, side, bars, ema, atr);
      LastKeySnoc(keys, KeyOf(signal, account, context));
      keys := keys + [KeyOf(signal, account, context)];
      if signal.None? {
        return None;
      }
      var key := Key(account, signal.value.ts, signal.value.side, context);
      if dedupKey == Some(key) {
        return None;
      }
      dedupKey := Some(key);
      lastSignalTs := Some(signal.value.ts);
      return signal;
    }

    /** A turn that builds no signal. */
    ghost method NoSignal()
      requires Valid()
      modifies this`keys
      ensures Valid() && keys == old(keys) + [None]
    {
      hide LastTs, Closes, LastKey, EMA.Valid, ATR14.Valid;
      LastKeySnoc(keys, None);
      keys := keys + [None];
    }

    /** The signal on a freshly closed bar: that of the decided side, unless it repeats the last one built. */
    method Evaluate(bars: seq<Bar>, close15m: Option<real>, inCooldown: bool, dayEnding: bool, account: string,
                    context: string)
      returns (r: Option<Signal>)
      requires Valid()
      modifies this, ema20m1, atr14m1
      ensures Valid() && seenH1 == old(seenH1) && seenM15 == old(seenM15)
      ensures seenM1 == if |bars| < 2 then old(seenM1) else Consumed(old(seenM1), bars)
      ensures var built := if |bars| < 2 || inCooldown || dayEnding then None
                           else Candidate(cfg, bars, seenM1, seenM15, seenH1, close15m);
              && keys == old(keys) + [KeyOf(built, account, context)]
              && r == if Emitted(keys, |keys| - 1) then built else None
      ensures r.Some? ==>
                var last := bars[|bars| - 1];
                && !inCooldown && !dayEnding && r.value.close == last.close && Prepared(cfg, seenM1)
                && if r.value.side.Long? then cfg.enableLong && Rising(cfg, last, seenM1, seenM15, seenH1, close15m)
                   else cfg.enableShort && Falling(cfg, last, seenM1, seenM15, seenH1, close15m)
    {
      hide Ema, Atr, Consumed, LastTs, LastKey, Closes, EMA.Valid, ATR14.Valid, MinuteTrigger, HigherAgree, BuildSignal,
        Rising, Falling, Prepared, CrossedUp, CrossedDown, Emitted;
      if |bars| < 2 {
        NoSignal();
        return None;
      }
      UpdateM1(bars);
      Averages();
      if inCooldown {
        NoSignal();
        return None;
      }
      if dayEnding {
        NoSignal();
        return None;
      }
      var prev, last := bars[|bars| - 2], bars[|bars| - 1];
      DecisionExactly(cfg, prev, last, seenM1, seenM15, seenH1, close15m);
      SignalSide(cfg, bars);
      var now, atr := ema20m1.value, atr14m1.value;
      if now.None? || atr.None? || atr.value <= 0.0 {
        NoSignal();
        return None;
      }
      var before := ema20m1.prevValue;
      if before.None? {
        NoSignal();
        return None;
      }
      var fast1h, slow1h, ema15m := ema20h1.value, ema50h1.value, ema20m15.value;
      if cfg.enableLong && HigherAgree(cfg.mode, Long, fast1h, slow1h, ema15m, close15m)
         && MinuteTrigger(cfg.mode, Long, prev, last, before.value, now.value) {
        r := MaybeEmit(Long, bars, now.value, atr.value, account, context);
        return;
      }
      if cfg.enableShort && HigherAgree(cfg.mode, Short, fast1h, slow1h, ema15m, close15m)
         && MinuteTrigger(cfg.mode, Short, prev, last, before.value, now.value) {
        r := MaybeEmit(Short, bars, now.value, atr.value, account, context);
        return;
      }
      NoSignal();
      return None;
    }

    /**
     Over any run of turns on one time-ordered stream, for one account and context, whose windows leave
     no gap and reach the newest bar: signals are of ever later bars, so no bar is signalled twice,
     whatever the higher timeframes, the cooldown and the end of the day do between turns.
     */
    method EvaluateStream(stream: seq<Bar>, turns: seq<Turn>, account: string, context: string)
      returns (signals: seq<Option<Signal>>)
      requires Valid() && TimeOrdered(stream) && seenM1 == [] && keys == [] && Fresh(turns, 0, |stream|)
      modifies this, ema20h1, ema50h1, ema20m15, ema20m1, atr14m1
      ensures Valid() && |signals| == |turns|
      ensures |keys| == |turns| && forall k :: 0 <= k < |turns| ==> (signals[k].Some? <==> Emitted(keys, k))
      ensures forall i, j :: 0 <= i < j < |signals| && signals[i].Some? && signals[j].Some? ==>
                signals[i].value.ts < signals[j].value.ts
      ensures cfg.mode.EmaCross? || cfg.mode.Breakout? ==>
                forall i, j :: 0 <= i < j < |signals| && IsLong(signals[i]) && IsLong(signals[j]) ==>
                  DipInside(cfg, stream, signals[i].value, signals[j].value)
    {
      hide Ema, Atr, Consumed, LastTs, Closes, LastKey, Emitted, EMA.Valid, ATR14.Valid, Candidate, BuiltOn, TriggersAt,
        SignalOf, DipInside, Advancing;
      signals := [];
      NoSignals(cfg, stream);
      ghost var n: nat := 0;
      ghost var last: Option<Key> := None;
      NothingSeen();
      for k := 0 to |turns|
        invariant Valid() && |signals| == k && n <= |stream| && seenM1 == stream[..n] && last == LastKey(keys)
        invariant Fresh(turns[k..], n, |stream|)
        invariant last.Some? ==> 2 <= n && BuiltOn(cfg, stream, n, last.value, account, context)
        invariant Advancing(cfg, stream, n, signals, last)
        invariant |keys| == k && forall i :: 0 <= i < k ==> (signals[i].Some? <==> Emitted(keys, i))
      {
        var t := turns[k];
        assert turns[k..][1..] == turns[k + 1..];
        UpdateHigherTimeframes(t.barsH1, t.barsM15);
        label Before:
        var bars := stream[t.window.start..t.window.end];
        WindowExtends(stream, n, t.window.start, t.window.end);
        var signal := Evaluate(bars, t.close15m, t.inCooldown, t.dayEnding, account, context);
        ghost var e := ConsumedBy(t, n);
        ghost var key := keys[|keys| - 1];
        LastKeySnoc(old@Before(keys), key);
        ghost var was := last;
        if key.Some? {
          CandidateTriggers(cfg, stream, t.window, seenM15, seenH1, t.close15m);
          SignalBuilt(cfg, stream, e, Candidate(cfg, bars, stream[..e], seenM15, seenH1, t.close15m).value);
          KeyBuilt(cfg, stream, e, key.value, account, context);
          if last.Some? {
            LaterBar(cfg, stream, n, e, last.value, key.value, account, context);
          }
          last := key;
        } else if last.Some? {
          StillBuilt(cfg, stream, n, e, last.value, account, context);
        }
        AdvancingOn(cfg, stream, n, e, signals, was, signal, key);
        EmittedStays(old@Before(keys), key);
        n := e;
        signals := signals + [signal];
      }
      DipsInside(cfg, stream, n, signals, last);
    }

    /**
     Any gap-free series of windows of one time-ordered stream leaves the average equal to the
     batch average of the consumed stream, and the previous one to the batch average without its
     last bar.
     */
    method FeedWindows(stream: seq<Bar>, spans: seq<Span>)
      requires Valid() && TimeOrdered(stream) && seenM1 == [] && GapFree(spans, 0, |stream|)
      modifies this, ema20m1, atr14m1
      ensures Valid() && Reach(spans, 0) <= |stream| && seenM1 == stream[..Reach(spans, 0)]
      ensures var n := Reach(spans, 0);
              && ema20m1.value == Ema(Closes(stream[..n]), cfg.emaFast)
              && ema20m1.prevValue == (if n == 0 then None else Ema(Closes(stream[..n - 1]), cfg.emaFast))
    {
      hide Ema, Atr, Consumed, LastTs, LastKey, EMA.Valid, ATR14.Valid;
      ReachWithin(spans, 0, |stream|);
      ghost var n: nat := 0;
      for i := 0 to |spans|
        invariant Valid() && n <= |stream| && seenM1 == stream[..n]
        invariant GapFree(spans[i..], n, |stream|)
        invariant Reach(spans[i..], n) == Reach(spans, 0)
      {
        var w := spans[i];
        assert spans[i..][1..] == spans[i + 1..];
        WindowExtends(stream, n, w.start, w.end);
        UpdateM1(stream[w.start..w.end]);
        n := Later(n, w.end);
      }
      Averages();
      assert n > 0 ==> stream[..n][..n - 1] == stream[..n - 1];
    }
  }

  /**
   The bars a decision compares are the last two consumed, and so meet their own averages, exactly
   when the window reaches the end of what has been consumed: an older window is judged by newer averages.
   */
  lemma TriggerBarsAreLastConsumed(stream: seq<Bar>, n: nat, w: Span)
    requires TimeOrdered(stream) && n <= |stream| && w.start <= n && w.start + 2 <= w.end <= |stream|
    ensures var seen := Consumed(stream[..n], stream[w.start..w.end]);
            && |seen| >= 2
            && ((stream[w.end - 1] == seen[|seen| - 1] && stream[w.end - 2] == seen[|seen| - 2]) <==> w.end >= n)
  {
    WindowExtends(stream, n, w.start, w.end);
    if w.end < n {
      assert stream[w.end - 1].ts < stream[n - 1].ts;
    }
  }
}
