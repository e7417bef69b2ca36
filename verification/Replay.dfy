/** Intrabar replay of one window of bars (`paper_trading/replay.py`). */
module Replay {
  import opened Arithmetic
  import opened Execution
  import opened Market
  import opened Monetary
  import opened Strategy
  import opened Wrappers

  const FEE_RATE: real := 0.0005
  const STEP: real := 0.001
  const FRACTION: real := 1000.0

  datatype Probe = Probe(budget: real, bps: int, stopPct: real, targetPct: real)

  /** A snapshot whose every price is `price`. */
  function At(price: real): Snapshot {
    Snapshot(price, price, price, price, 1.0, STEP, Some(RiskTier(100, 0.01)))
  }

  /** To one decimal, ties to even. */
  function ToTick(x: real): real { RoundHalfEven(x * 10.0) as real / 10.0 }

  function QuantityForBudget(budget: real, price: real): real {
    if price <= 0.0 then 0.0
    else Times(Truncate(Ratio(Ratio(budget, price), STEP)) as real, STEP)
  }

  /** The order placed on a bullish bar, when the budget buys anything. */
  function EntryOrder(bar: Bar, probe: Probe): Option<Result<FillResult>> {
    var qty := QuantityForBudget(probe.budget, bar.close);
    if bar.close > bar.open && qty > 0.0 then
      Some(ExecuteMarketOrder(At(bar.close), Long, qty, 1,
                              ToTick(Times(bar.close, 1.0 - probe.stopPct)),
                              Some(ToTick(Times(bar.close, 1.0 + probe.targetPct))),
                              probe.bps, FRACTION, FEE_RATE))
    else None
  }

  /** The order of a bar never raises: a positive quantity means a positive price. */
  lemma EntryNeverFails(bar: Bar, probe: Probe)
    ensures EntryOrder(bar, probe).Some? ==> EntryOrder(bar, probe).value.Ok?
  {
    hide Ratio, Truncate;
    TimesOne(bar.close);
    TimesZero(0.0, Times(1.0, bar.close));
    hide Times;
    if EntryOrder(bar, probe).Some? {
      assert bar.close > 0.0;
    }
  }

  /** The position opened on a bar by someone who holds none. */
  function Entry(bar: Bar, probe: Probe): Option<Position> {
    var order := EntryOrder(bar, probe);
    if order.Some? && order.value.Ok? && order.value.value.filled then order.value.value.position else None
  }

  /**
   What an entry buys: on a rising bar, at the slipped close, the largest step quantity the budget
   pays for (a thousand contracts at most), with stop and target within half a tick of their shares of the close.
   */
  lemma EntryShape(bar: Bar, probe: Probe, n: nat)
    requires Entry(bar, probe).Some?
    ensures var p := Entry(bar, probe).value;
            && bar.close > bar.open && bar.close > 0.0
            && p.side == Long && p.entryPrice == ApplySlippage(bar.close, Long, OpenAction, probe.bps) && p.takeProfit.Some?
            && 0.0 < p.quantity && Times(p.quantity, bar.close) <= probe.budget
            && (Times(Times(n as real, STEP), bar.close) <= probe.budget && Times(n as real, STEP) <= FRACTION ==>
                  Times(n as real, STEP) <= p.quantity)
            && -0.05 <= p.stopPrice - Times(bar.close, 1.0 - probe.stopPct) <= 0.05
            && -0.05 <= p.takeProfit.value - Times(bar.close, 1.0 + probe.targetPct) <= 0.05
  {
    hide Times, Ratio, QuantizeToStep, AvailableQuantity, ToTick, ApplySlippage;
    var price, qty := bar.close, QuantityForBudget(probe.budget, bar.close);
    Depth(price);
    BudgetQuantity(probe.budget, price, n);
    var reach := Min(qty, FRACTION);
    QuantizeNotAbove(reach, STEP);
    if qty <= FRACTION {
      BudgetQuantityWhole(probe.budget, price);
    } else {
      DepthWhole();
    }
    TimesMono(price, reach, qty);
    Commute(price, reach);
    Commute(price, qty);
    TickNear(Times(price, 1.0 - probe.stopPct));
    TickNear(Times(price, 1.0 + probe.targetPct));
  }

  /** A bar is entered exactly when it rises and the budget pays for one step at its close. */
  lemma EntryExactly(bar: Bar, probe: Probe)
    ensures Entry(bar, probe).Some? <==> bar.close > bar.open && bar.close > 0.0 && Times(STEP, bar.close) <= probe.budget
  {
    hide Times, Ratio, QuantizeToStep, AvailableQuantity, ToTick, ExecuteMarketOrder;
    var price, qty := bar.close, QuantityForBudget(probe.budget, bar.close);
    if price > 0.0 {
      Depth(price);
      BudgetBuys(probe.budget, price);
      if qty > 0.0 {
        var stop, target := ToTick(Times(price, 1.0 - probe.stopPct)), ToTick(Times(price, 1.0 + probe.targetPct));
        FilledExactly(price, qty, stop, target, probe.bps);
      }
    }
  }

  lemma FilledExactly(price: real, qty: real, stop: real, target: real, bps: int)
    requires price > 0.0 && qty >= STEP
    ensures var f := ExecuteMarketOrder(At(price), Long, qty, 1, stop, Some(target), bps, FRACTION, FEE_RATE);
            f.Ok? && f.value.filled && f.value.position.Some?
  {
    Depth(price);
    OrderRead(price, qty, stop, target, bps);
    FillIsLargest(At(price), Long, qty, 1, stop, Some(target), bps, FRACTION, FEE_RATE);
    FillCarries(At(price), Long, qty, 1, stop, Some(target), bps, FRACTION, FEE_RATE);
    hide Times, Ratio, QuantizeToStep, AvailableQuantity, ExecuteMarketOrder;
  }

  lemma OrderRead(price: real, qty: real, stop: real, target: real, bps: int)
    requires AvailableQuantity(At(price), FRACTION, 0.0).Ok?
    ensures ExecuteMarketOrder(At(price), Long, qty, 1, stop, Some(target), bps, FRACTION, FEE_RATE).Ok?
  {
    hide Times, Ratio, QuantizeToStep, AvailableQuantity, ApplySlippage;
  }

  /** The budget buys something exactly when it pays for one step, and then it buys one step at least. */
  lemma BudgetBuys(budget: real, price: real)
    requires price > 0.0
    ensures var q := QuantityForBudget(budget, price);
            && (q > 0.0 <==> Times(STEP, price) <= budget) && (q > 0.0 ==> q >= STEP)
  {
    Quotient(budget, price);
    hide Times, Ratio;
    var raw := Ratio(budget, price);
    assert QuantityForBudget(budget, price) == QuantizeToStep(raw, STEP);
    if raw < 0.0 {
      NegativeRaw(raw);
      TimesPositive(-raw, price);
      Negate(raw, price);
      TimesPositive(STEP, price);
    } else {
      QuantizeLargest(raw, STEP, 1);
      TimesOne(STEP);
      if raw < STEP {
        QuantizeBelowStep(raw, STEP);
        TimesPositive(STEP - raw, price);
        DistributeMinus(price, STEP, raw);
      } else {
        TimesMono(price, STEP, raw);
        Commute(price, STEP);
        Commute(price, raw);
      }
    }
  }

  lemma TickNear(x: real)
    ensures -0.05 <= ToTick(x) - x <= 0.05
  {
  }

  lemma DepthWhole()
    ensures QuantizeToStep(FRACTION, STEP) == FRACTION
  {
    assert Ratio(FRACTION, STEP) == 1000000.0;
    assert Times(1000000.0, STEP) == FRACTION;
  }

  lemma Depth(price: real)
    requires price > 0.0
    ensures AvailableQuantity(At(price), FRACTION, 0.0) == Ok(FRACTION)
  {
    hide Times, Ratio, QuantizeToStep;
    TimesOne(price);
    TimesZero(0.0, Times(1.0, price));
    TimesPositive(price, FRACTION);
    Quotient(Times(price, FRACTION), price);
    Commute(price, FRACTION);
    Cancel(Ratio(Times(price, FRACTION), price), FRACTION, price);
    DepthWhole();
  }

  lemma NegativeRaw(raw: real)
    requires raw < 0.0
    ensures QuantizeToStep(raw, STEP) <= 0.0
  {
    Quotient(raw, STEP);
    var k := Truncate(Ratio(raw, STEP));
    assert Ratio(raw, STEP) < 0.0;
    assert k <= 0;
  }

  /** The quantity is the largest number of whole steps the budget pays for. */
  lemma BudgetQuantity(budget: real, price: real, n: nat)
    requires price > 0.0 && QuantityForBudget(budget, price) > 0.0
    ensures var q := QuantityForBudget(budget, price);
            && Times(q, price) <= budget
            && (Times(Times(n as real, STEP), price) <= budget ==> Times(n as real, STEP) <= q)
  {
    hide Times, Ratio;
    var raw := Ratio(budget, price);
    assert QuantityForBudget(budget, price) == QuantizeToStep(raw, STEP);
    if raw < 0.0 {
      NegativeRaw(raw);
      assert false;
    }
    QuantizeLargest(raw, STEP, n);
    Quotient(budget, price);
    var q, m := QuantizeToStep(raw, STEP), Times(n as real, STEP);
    TimesMono(price, q, raw);
    Commute(price, q);
    Commute(price, raw);
    if m > raw {
      TimesPositive(m - raw, price);
      DistributeMinus(price, m, raw);
    }
  }

  lemma BudgetQuantityWhole(budget: real, price: real)
    requires price > 0.0 && QuantityForBudget(budget, price) > 0.0
    ensures QuantizeToStep(QuantityForBudget(budget, price), STEP) == QuantityForBudget(budget, price)
  {
    hide Times, Ratio;
    var raw := Ratio(budget, price);
    assert QuantityForBudget(budget, price) == QuantizeToStep(raw, STEP);
    if raw < 0.0 {
      NegativeRaw(raw);
      assert false;
    }
    QuantizeAgain(raw, STEP);
  }

  /** The price at which a bar takes a position out: the stop if touched, else the target. */
  function TouchPrice(p: Position, bar: Bar): Option<real> {
    if bar.low <= p.stopPrice then Some(p.stopPrice)
    else if p.takeProfit.Some? && bar.high >= p.takeProfit.value then Some(p.takeProfit.value)
    else None
  }

  function CloseAt(p: Position, price: real, probe: Probe): CloseResult {
    ExecuteClose(p, At(price), Some(p.quantity), probe.bps, FEE_RATE)
  }

  // ---------------------------------------------------------------------------
  // First-touch semantics
  // ---------------------------------------------------------------------------

  /** Entered on the close of bar `entry`, left on bar `exit` at `price`. */
  datatype Trade = Trade(entry: int, exit: int, position: Position, price: real)

  /** First bar from `j` on that takes the position out; the number of bars when none does. */
  function FirstTouch(p: Position, bars: seq<Bar>, j: nat): (k: nat)
    requires j <= |bars|
    ensures j <= k <= |bars|
    ensures forall m :: j <= m < k ==> TouchPrice(p, bars[m]).None?
    ensures k < |bars| ==> TouchPrice(p, bars[k]).Some?
    decreases |bars| - j
  {
    if j == |bars| || TouchPrice(p, bars[j]).Some? then j else FirstTouch(p, bars, j + 1)
  }

  /** What becomes of a position carried into bar `j`: its trade. */
  function Carried(p: Position, entry: int, bars: seq<Bar>, j: nat): Trade
    requires 0 < j <= |bars|
  {
    var k := FirstTouch(p, bars, j);
    if k < |bars| then Trade(entry, k, p, TouchPrice(p, bars[k]).value)
    else Trade(entry, |bars| - 1, p, bars[|bars| - 1].close)
  }

  /** The trades of someone who holds nothing when bar `i` closes. */
  function TradesFrom(bars: seq<Bar>, i: nat, probe: Probe): seq<Trade>
    decreases |bars| - i
  {
    if i + 1 >= |bars| then []
    else
      match Entry(bars[i], probe)
      case None => TradesFrom(bars, i + 1, probe)
      case Some(p) =>
        var t := Carried(p, i, bars, i + 1);
        [t] + TradesFrom(bars, t.exit, probe)
  }

  /** One trade obeys first-touch semantics. */
  predicate FirstTouchTrade(t: Trade, bars: seq<Bar>, probe: Probe) {
    && 0 <= t.entry < t.exit < |bars|
    && Entry(bars[t.entry], probe) == Some(t.position)
    && (forall m :: t.entry < m < t.exit ==> TouchPrice(t.position, bars[m]).None?)
    && match TouchPrice(t.position, bars[t.exit])
       case Some(price) => t.price == price
       case None => t.exit == |bars| - 1 && t.price == bars[t.exit].close
  }

  predicate Holds(t: Trade, i: int) { t.entry <= i < t.exit }

  predicate Signals(bars: seq<Bar>, i: int, probe: Probe) {
    0 <= i < |bars| - 1 && Entry(bars[i], probe).Some?
  }

  ghost predicate Covered(trades: seq<Trade>, i: int) {
    exists k :: 0 <= k < |trades| && Holds(trades[k], i)
  }

  /** Every trade from bar `from` on obeys first touch, holdings do not overlap, and no entry is missed. */
  ghost predicate FirstTouchRun(trades: seq<Trade>, bars: seq<Bar>, from: int, probe: Probe) {
    && (forall k :: 0 <= k < |trades| ==> FirstTouchTrade(trades[k], bars, probe) && trades[k].entry >= from)
    && (forall k, m :: 0 <= k < m < |trades| ==> trades[k].exit <= trades[m].entry)
    && forall i :: i >= from && Signals(bars, i, probe) ==> Covered(trades, i)
  }

  lemma TradeShape(t: Trade, bars: seq<Bar>, probe: Probe)
    requires FirstTouchTrade(t, bars, probe)
    ensures Signals(bars, t.entry, probe) && t.entry < t.exit < |bars| && Holds(t, t.entry)
  {
    hide Entry, TouchPrice;
  }

  lemma CarriedIsFirstTouch(p: Position, bars: seq<Bar>, i: nat, probe: Probe)
    requires i + 1 < |bars| && Entry(bars[i], probe) == Some(p)
    ensures FirstTouchTrade(Carried(p, i, bars, i + 1), bars, probe) && Carried(p, i, bars, i + 1).entry == i
  {
    hide Entry, TouchPrice;
  }

  lemma CoverShift(t: Trade, rest: seq<Trade>, i: int)
    ensures Covered([t] + rest, i) <==> Holds(t, i) || Covered(rest, i)
  {
    hide Holds;
    var all := [t] + rest;
    if Covered(all, i) {
      var k :| 0 <= k < |all| && Holds(all[k], i);
      assert k > 0 ==> all[k] == rest[k - 1];
    }
    if Covered(rest, i) {
      var k :| 0 <= k < |rest| && Holds(rest[k], i);
      assert all[k + 1] == rest[k];
    }
    assert all[0] == t;
  }

  /** A first-touch trade followed by a run from its exit is a run. */
  lemma ConsRun(t: Trade, rest: seq<Trade>, bars: seq<Bar>, probe: Probe)
    requires FirstTouchTrade(t, bars, probe) && FirstTouchRun(rest, bars, t.exit, probe)
    ensures FirstTouchRun([t] + rest, bars, t.entry, probe)
  {
    hide FirstTouchTrade, Signals, Covered;
    TradeShape(t, bars, probe);
    var all := [t] + rest;
    forall i | i >= t.entry && Signals(bars, i, probe)
      ensures Covered(all, i)
    {
      CoverShift(t, rest, i);
    }
    assert all[0] == t && forall k :: 1 <= k < |all| ==> all[k] == rest[k - 1];
  }

  lemma {:induction false} TradesAreFirstTouch(bars: seq<Bar>, i: nat, probe: Probe)
    ensures FirstTouchRun(TradesFrom(bars, i, probe), bars, i, probe)
    decreases |bars| - i
  {
    hide Entry, TouchPrice, FirstTouchTrade, Covered, FirstTouch;
    if i + 1 < |bars| {
      match Entry(bars[i], probe)
      case None =>
        TradesAreFirstTouch(bars, i + 1, probe);
      case Some(p) =>
        var t := Carried(p, i, bars, i + 1);
        CarriedIsFirstTouch(p, bars, i, probe);
        TradesAreFirstTouch(bars, t.exit, probe);
        ConsRun(t, TradesFrom(bars, t.exit, probe), bars, probe);
    }
  }

  /** Two trades entered on the same bar are the same trade. */
  lemma SameEntrySameTrade(s: Trade, t: Trade, bars: seq<Bar>, probe: Probe)
    requires FirstTouchTrade(s, bars, probe) && FirstTouchTrade(t, bars, probe) && s.entry == t.entry
    ensures s == t
  {
    hide Entry, TouchPrice;
  }

  lemma FirstEntry(a: seq<Trade>, b: seq<Trade>, bars: seq<Bar>, from: int, probe: Probe)
    requires a != [] && FirstTouchRun(a, bars, from, probe) && FirstTouchRun(b, bars, from, probe)
    ensures b != [] && b[0].entry <= a[0].entry
  {
    hide FirstTouchTrade, Signals;
    TradeShape(a[0], bars, probe);
    var i := a[0].entry;
    assert Covered(b, i);
    var k :| 0 <= k < |b| && Holds(b[k], i);
    if k > 0 {
      TradeShape(b[0], bars, probe);
      assert b[0].exit <= b[k].entry;
    }
  }

  lemma RestIsRun(a: seq<Trade>, bars: seq<Bar>, from: int, probe: Probe)
    requires a != [] && FirstTouchRun(a, bars, from, probe)
    ensures FirstTouchRun(a[1..], bars, a[0].exit, probe)
  {
    hide FirstTouchTrade, Signals, Covered;
    TradeShape(a[0], bars, probe);
    var rest := a[1..];
    forall i | i >= a[0].exit && Signals(bars, i, probe)
      ensures Covered(rest, i)
    {
      assert a == [a[0]] + rest;
      CoverShift(a[0], rest, i);
    }
  }

  /** First-touch semantics leaves no choice: two runs over the same bars are the same. */
  lemma {:induction false} FirstTouchUnique(a: seq<Trade>, b: seq<Trade>, bars: seq<Bar>, from: int, probe: Probe)
    requires FirstTouchRun(a, bars, from, probe) && FirstTouchRun(b, bars, from, probe)
    ensures a == b
    decreases |a|
  {
    if a != [] {
      FirstEntry(a, b, bars, from, probe);
      FirstEntry(b, a, bars, from, probe);
      SameEntrySameTrade(a[0], b[0], bars, probe);
      RestIsRun(a, bars, from, probe);
      RestIsRun(b, bars, from, probe);
      hide FirstTouchRun;
      FirstTouchUnique(a[1..], b[1..], bars, a[0].exit, probe);
      assert a == [a[0]] + a[1..] && b == [b[0]] + b[1..];
    } else if b != [] {
      FirstEntry(b, a, bars, from, probe);
    }
  }

  function TotalNet(trades: seq<Trade>, probe: Probe): real {
    if trades == [] then 0.0
    else CloseAt(trades[0].position, trades[0].price, probe).realizedNet + TotalNet(trades[1..], probe)
  }

  /** Each trade closes all it opened: nothing is left, and its whole entry fee is charged. */
  lemma TradeEndsFlat(t: Trade, bars: seq<Bar>, probe: Probe)
    requires FirstTouchTrade(t, bars, probe)
    ensures var r := CloseAt(t.position, t.price, probe);
            && r.closed && r.closedQty == t.position.quantity > 0.0 && r.remaining.None?
            && r.realizedNet == r.grossPnl - r.closeFee - t.position.entryFee
  {
    hide TouchPrice, ExecuteClose, QuantizeToStep, AvailableQuantity, Times, Ratio;
    assert t.position.quantity > 0.0;
    FullClose(t.position, At(t.price), probe.bps, FEE_RATE);
  }

  /**
   A trade in prices: it is long, no bar between entry and exit reaches stop or target, and it leaves at the
   stop if the exit bar falls to it, else at the target if the bar rises to it, else on the last bar at its
   close; it earns the slipped price difference of its quantity, less a fee on each side.
   */
  lemma TradeInPrices(t: Trade, bars: seq<Bar>, probe: Probe)
    requires FirstTouchTrade(t, bars, probe)
    ensures var p, last := t.position, bars[t.exit];
            && p.side.Long? && p.takeProfit.Some? && p.quantity > 0.0
            && (forall m :: t.entry < m < t.exit ==> bars[m].low > p.stopPrice && bars[m].high < p.takeProfit.value)
            && (if last.low <= p.stopPrice then t.price == p.stopPrice
                else if last.high >= p.takeProfit.value then t.price == p.takeProfit.value
                else t.exit == |bars| - 1 && t.price == last.close)
            && 10000.0 * p.entryPrice == bars[t.entry].close * (10000 + probe.bps) as real
            && p.entryFee == Times(FEE_RATE, Times(p.quantity, p.entryPrice))
            && var r := CloseAt(p, t.price, probe);
               && 10000.0 * r.closePrice == t.price * (10000 - probe.bps) as real
               && r.realizedNet == Times(p.quantity, r.closePrice - p.entryPrice)
                                   - Times(FEE_RATE, Times(p.quantity, r.closePrice)) - p.entryFee
  {
    hide Times, Ratio, ExecuteClose, Entry, CloseAt;
    EntryInPrices(bars[t.entry], probe);
    TradeEarns(t, bars, probe);
  }

  lemma TradeEarns(t: Trade, bars: seq<Bar>, probe: Probe)
    requires FirstTouchTrade(t, bars, probe) && t.position.side.Long?
    ensures var p, r := t.position, CloseAt(t.position, t.price, probe);
            && p.quantity > 0.0 && 10000.0 * r.closePrice == t.price * (10000 - probe.bps) as real
            && r.realizedNet == Times(p.quantity, r.closePrice - p.entryPrice)
                                - Times(FEE_RATE, Times(p.quantity, r.closePrice)) - p.entryFee
  {
    hide Times, Ratio, ExecuteClose, FirstTouchTrade, CloseAt;
    TradeEndsFlat(t, bars, probe);
    CloseEarns(t.position, t.price, probe);
  }

  lemma CloseEarns(p: Position, price: real, probe: Probe)
    requires p.quantity > 0.0 && p.side.Long?
    ensures var r := CloseAt(p, price, probe);
            && 10000.0 * r.closePrice == price * (10000 - probe.bps) as real
            && r.realizedNet == Times(p.quantity, r.closePrice - p.entryPrice)
                                - Times(FEE_RATE, Times(p.quantity, r.closePrice)) - p.entryFee
  {
    hide Times, Ratio, ExecuteClose;
    FullClose(p, At(price), probe.bps, FEE_RATE);
    CloseAtMarket(p, At(price), Some(p.quantity), probe.bps, FEE_RATE);
    TimesOne(p.quantity);
  }

  lemma EntryInPrices(bar: Bar, probe: Probe)
    ensures Entry(bar, probe).Some? ==>
              var p := Entry(bar, probe).value;
              && p.side.Long? && p.takeProfit.Some?
              && 10000.0 * p.entryPrice == bar.close * (10000 + probe.bps) as real
              && p.entryFee == Times(FEE_RATE, Times(p.quantity, p.entryPrice))
  {
    var order := EntryOrder(bar, probe);
    if order.Some? && order.value.Ok? && order.value.value.filled {
      var qty := QuantityForBudget(probe.budget, bar.close);
      var stop, target := ToTick(Times(bar.close, 1.0 - probe.stopPct)), ToTick(Times(bar.close, 1.0 + probe.targetPct));
      FillIsLargest(At(bar.close), Long, qty, 1, stop, Some(target), probe.bps, FRACTION, FEE_RATE);
      FillCarries(At(bar.close), Long, qty, 1, stop, Some(target), probe.bps, FRACTION, FEE_RATE);
      hide Times, Ratio, ExecuteMarketOrder, QuantityForBudget, ToTick;
      TimesOne(order.value.value.filledQty);
    }
  }

  // ---------------------------------------------------------------------------
  // The bar loop
  // ---------------------------------------------------------------------------

  /** What is still to be earned once the exits of bar `i` are done. */
  ghost function Pending(position: Option<Position>, entry: int, bars: seq<Bar>, i: nat, probe: Probe): seq<Trade>
    requires position.Some? ==> 0 < i <= |bars|
  {
    if position.None? then TradesFrom(bars, i, probe)
    else
      var t := Carried(position.value, entry, bars, i);
      [t] + TradesFrom(bars, t.exit, probe)
  }

  lemma CloseAtTakesAll(p: Position, price: real, probe: Probe)
    requires p.quantity > 0.0
    ensures var r := CloseAt(p, price, probe);
            && r.closed && r.closedQty == p.quantity && r.remaining.None?
            && (p.side.Long? ==> 10000.0 * r.closePrice == price * (10000 - probe.bps) as real)
            && (p.side.Long? && price >= 0.0 && probe.bps >= 0 ==> r.closePrice <= price)
  {
    CloseAtMarket(p, At(price), Some(p.quantity), probe.bps, FEE_RATE);
    hide Times, Ratio;
    FullClose(p, At(price), probe.bps, FEE_RATE);
    if price >= 0.0 && probe.bps >= 0 {
      SlippageIsAdverse(price, Long, CloseAction, probe.bps);
    }
  }

  /** Touched bars close everything, at the stop or worse when the stop is touched; other bars do nothing. */
  method MaybeManage(p: Position, bar: Bar, probe: Probe) returns (r: Option<CloseResult>)
    ensures TouchPrice(p, bar).None? ==> r == None
    ensures TouchPrice(p, bar).Some? ==> r == Some(CloseAt(p, TouchPrice(p, bar).value, probe))
    ensures r.Some? <==> bar.low <= p.stopPrice || (p.takeProfit.Some? && bar.high >= p.takeProfit.value)
    ensures r.Some? && p.quantity > 0.0 ==> r.value.closed && r.value.closedQty == p.quantity && r.value.remaining.None?
    ensures r.Some? && p.quantity > 0.0 && p.side.Long? && 0.0 <= p.stopPrice && probe.bps >= 0 && bar.low <= p.stopPrice ==>
              r.value.closePrice <= p.stopPrice
    ensures r.Some? && p.quantity > 0.0 && p.side.Long? ==>
              10000.0 * r.value.closePrice ==
              (if bar.low <= p.stopPrice then p.stopPrice else p.takeProfit.value) * (10000 - probe.bps) as real
  {
    hide ExecuteClose;
    if p.quantity > 0.0 && TouchPrice(p, bar).Some? {
      CloseAtTakesAll(p, TouchPrice(p, bar).value, probe);
    }
    if bar.low <= p.stopPrice {
      return Some(ExecuteClose(p, At(p.stopPrice), Some(p.quantity), probe.bps, FEE_RATE));
    }
    if p.takeProfit.Some? && bar.high >= p.takeProfit.value {
      return Some(ExecuteClose(p, At(p.takeProfit.value), Some(p.quantity), probe.bps, FEE_RATE));
    }
    return None;
  }

  /** The window ends flat, with the net of exactly the first-touch trades. */
  method RunWindow(bars: seq<Bar>, probe: Probe) returns (net: real, trades: nat)
    ensures net == TotalNet(TradesFrom(bars, 0, probe), probe)
    ensures trades == |TradesFrom(bars, 0, probe)|
  {
    hide ExecuteClose, ExecuteMarketOrder, TouchPrice, EntryOrder;
    net, trades := 0.0, 0;
    var position: Option<Position> := None;
    ghost var entry := 0;
    ghost var all := TradesFrom(bars, 0, probe);
    for i := 0 to |bars|
      invariant position.Some? ==> 0 < i
      invariant net + TotalNet(Pending(position, entry, bars, i, probe), probe) == TotalNet(all, probe)
      invariant trades + |Pending(position, entry, bars, i, probe)| == |all|
    {
      var bar := bars[i];
      if position.Some? {
        var close := MaybeManage(position.value, bar, probe);
        if close.Some? {
          net := net + close.value.realizedNet;
          trades := trades + 1;
          position := None;
        }
      }
      if position.None? && i < |bars| - 1 {
        EntryNeverFails(bar, probe);
        position := Entry(bar, probe);
        entry := i;
      }
    }
    if position.Some? && |bars| > 0 {
      var res := CloseAt(position.value, bars[|bars| - 1].close, probe);
      net := net + res.realizedNet;
      trades := trades + 1;
      position := None;
    }
  }
}
