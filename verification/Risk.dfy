/**
 Order sizing and the two risk gates of `paper_trading/risk.py`, and what they guarantee
 about the risk of a position opened by the signal chain of `paper_trading/runner.py`.

 Clock readings (freshness, age, cooldown) are inputs.  The liquidation price comes from a
 formula outside this model and is an input as well.
 */
module Risk {
  import opened Arithmetic
  import opened Execution
  import opened Market
  import opened Wrappers

  const FEE_RATE: real := 0.0005

  // ---------------------------------------------------------------------------
  // Position size
  // ---------------------------------------------------------------------------

  /** Risk to the stop of `qty` contracts. */
  function RiskToStop(qty: real, size: real, entry: real, stop: real): real {
    Times(Times(qty, size), Abs(entry - stop))
  }

  function PositionSize(riskAmount: real, entry: real, stop: real, step: real, size: real): Result<real> {
    if riskAmount <= 0.0 then Err("risk_amount: must be positive")
    else if entry <= 0.0 then Err("entry_price: must be positive")
    else if stop <= 0.0 then Err("stop_price: must be positive")
    else if stop == entry then Err("stop_price: cannot equal entry_price")
    else if size <= 0.0 then Err("contract_size: must be positive")
    else
      var perContract := Times(Abs(entry - stop), size);
      if perContract == 0.0 then Err("division by zero")
      else Ok(QuantizeToStep(Ratio(riskAmount, perContract), step))
  }

  predicate IsTimes(q: real, k: int, step: real) {
    q == Times(k as real, step)
  }

  ghost predicate Multiple(q: real, step: real) {
    exists k: int :: IsTimes(q, k, step)
  }

  /**
   The size is the largest multiple of the step whose risk to the stop is within the amount,
   and only arguments out of range are refused.
   */
  lemma SizeIsLargestWithinRisk(riskAmount: real, entry: real, stop: real, step: real, size: real, n: int)
    requires riskAmount > 0.0 && entry > 0.0 && stop > 0.0 && stop != entry && size > 0.0 && step > 0.0
    ensures PositionSize(riskAmount, entry, stop, step, size).Ok?
    ensures var q := PositionSize(riskAmount, entry, stop, step, size).value;
            && q >= 0.0 && Multiple(q, step)
            && RiskToStop(q, size, entry, stop) <= riskAmount
            && (RiskToStop(Times(n as real, step), size, entry, stop) <= riskAmount ==> Times(n as real, step) <= q)
  {
    hide Times, Ratio;
    var d := Abs(entry - stop);
    TimesPositive(d, size);
    var unit := Times(d, size);
    var raw := Ratio(riskAmount, unit);
    Quotient(riskAmount, unit);
    if raw < 0.0 {
      TimesPositive(-raw, unit);
      Negate(raw, unit);
      assert false;
    }
    QuantizeLargest(raw, step, n);
    var q := QuantizeToStep(raw, step);
    assert IsTimes(q, Truncate(Ratio(raw, step)), step);
    RiskAsUnits(q, size, d);
    TimesMono(unit, q, raw);
    Commute(unit, q);
    Commute(unit, raw);
    var m := Times(n as real, step);
    RiskAsUnits(m, size, d);
    if Times(m, unit) <= riskAmount && m > raw {
      TimesPositive(m - raw, unit);
      DistributeMinus(unit, m, raw);
      assert false;
    }
  }

  lemma RiskAsUnits(q: real, size: real, d: real)
    ensures Times(Times(q, size), d) == Times(q, Times(d, size))
  {
    hide Times;
    Associate(q, size, d);
    Commute(d, size);
  }

  // ---------------------------------------------------------------------------
  // The order gate
  // ---------------------------------------------------------------------------

  datatype Settings = Settings(
    maxRiskPerOrder: real, maxOpenRisk: real, maxDailyLoss: real, maxLeverage: int, minNetRr: real, maxSpreadBps: int,
    requireTier: bool)

  datatype Request = Request(
    side: Side, riskAmount: real, stop: real, takeProfit: Option<real>, leverage: int, quantity: Option<real>,
    authenticated: bool)

  datatype OpenRisk = OpenRisk(quantity: real, entry: real, stop: real, unrealized: real)

  /** What clocks, sessions and other orders say at the moment of the check. */
  datatype Conditions = Conditions(
    current: bool, ttlExpired: bool, tierFresh: bool, paused: bool, dayActive: bool, duplicate: bool, cooldownActive: bool,
    dailyRealized: real, availableMargin: real, liquidationPrice: real)

  datatype Verdict = Verdict(allowed: bool, quantity: Option<real>, entry: Option<real>, risk: Option<real>)

  function OpenRiskTo(open: seq<OpenRisk>, size: real, n: nat): real
    requires n <= |open|
  {
    if n == 0 then 0.0
    else OpenRiskTo(open, size, n - 1) + Times(Times(open[n - 1].quantity, size), Abs(open[n - 1].entry - open[n - 1].stop))
  }

  function UnrealizedTo(open: seq<OpenRisk>, n: nat): real
    requires n <= |open|
  {
    if n == 0 then 0.0 else UnrealizedTo(open, n - 1) + open[n - 1].unrealized
  }

  /** The quantity the gate works with: the one asked for when positive, else the computed size. */
  function GateQuantity(r: Request, s: Snapshot): Option<real> {
    if r.quantity.Some? && r.quantity.value > 0.0 then r.quantity
    else
      match PositionSize(r.riskAmount, EntryPrice(s, r.side), r.stop, s.quantityStep, s.contractSize)
      case Ok(q) => Some(q)
      case Err(_) => None
  }

  predicate HasQuantity(q: Option<real>) {
    q.Some? && q.value > 0.0
  }

  predicate Aligned(qty: real, step: real) {
    step <= 0.0 || QuantizeToStep(qty, step) == qty
  }

  predicate LeverageOk(leverage: int, settings: Settings, tier: Option<RiskTier>) {
    var tierMax := if tier.Some? then tier.value.maxLeverage else settings.maxLeverage;
    1 <= leverage <= if tierMax < settings.maxLeverage then tierMax else settings.maxLeverage
  }

  predicate TierOk(settings: Settings, tier: Option<RiskTier>, tierFresh: bool) {
    && (settings.requireTier ==> tier.Some?)
    && (tier.Some? ==> tierFresh)
  }

  /** Net reward over risk after both fees. */
  function NetRewardToRisk(qty: real, size: real, entry: real, takeProfit: real, notional: Option<real>, risk: real): real
    requires risk != 0.0
  {
    var gross := Times(Times(qty, size), Abs(takeProfit - entry));
    var entryFee := if notional.Some? && notional.value != 0.0 then Times(notional.value, FEE_RATE) else 0.0;
    var exitFee := Times(Times(Times(qty, size), takeProfit), FEE_RATE);
    Ratio(gross - entryFee - exitFee, risk)
  }

  /** Risk to the stop of the gate's quantity, when it can be told. */
  function GateRisk(r: Request, s: Snapshot): Option<real> {
    var q := GateQuantity(r, s);
    if HasQuantity(q) && r.stop > 0.0 && EntryPrice(s, r.side) > 0.0 then
      Some(RiskToStop(q.value, s.contractSize, EntryPrice(s, r.side), r.stop))
    else None
  }

  function GateNotional(r: Request, s: Snapshot): Option<real> {
    var q := GateQuantity(r, s);
    if HasQuantity(q) && r.leverage >= 1 then Some(Times(Times(q.value, s.contractSize), EntryPrice(s, r.side))) else None
  }

  predicate RequestOk(r: Request, s: Snapshot, settings: Settings, c: Conditions) {
    && r.authenticated && c.current && !c.ttlExpired
    && (r.quantity.Some? && r.quantity.value > 0.0 ==> Aligned(r.quantity.value, s.quantityStep))
    && TierOk(settings, s.tier, c.tierFresh) && LeverageOk(r.leverage, settings, s.tier)
  }

  predicate MarginOk(r: Request, s: Snapshot, c: Conditions) {
    GateNotional(r, s).Some? ==> Ratio(GateNotional(r, s).value, r.leverage as real) <= c.availableMargin
  }

  predicate RiskOk(r: Request, s: Snapshot, settings: Settings, open: seq<OpenRisk>) {
    var risk := GateRisk(r, s);
    && (risk.Some? ==> risk.value <= settings.maxRiskPerOrder)
    && OpenRiskTo(open, s.contractSize, |open|) + (if risk.Some? then risk.value else 0.0) <= settings.maxOpenRisk
  }

  predicate LossOk(settings: Settings, c: Conditions, open: seq<OpenRisk>) {
    var loss := -(c.dailyRealized + UnrealizedTo(open, |open|));
    (if loss > 0.0 then loss else 0.0) <= settings.maxDailyLoss
  }

  predicate RewardOk(r: Request, s: Snapshot, settings: Settings) {
    var risk := GateRisk(r, s);
    risk.Some? && risk.value > 0.0 && r.takeProfit.Some? && r.takeProfit.value > 0.0 ==>
      NetRewardToRisk(GateQuantity(r, s).value, s.contractSize, EntryPrice(s, r.side), r.takeProfit.value,
                      GateNotional(r, s), risk.value) >= settings.minNetRr
  }

  /** The stop lies before the liquidation price. */
  predicate StopOk(r: Request, s: Snapshot, c: Conditions) {
    r.leverage >= 1 && EntryPrice(s, r.side) > 0.0 && r.stop > 0.0 ==>
      if r.side.Long? then r.stop > c.liquidationPrice else r.stop < c.liquidationPrice
  }

  predicate SessionOk(s: Snapshot, settings: Settings, c: Conditions) {
    SpreadOk(s, settings.maxSpreadBps) && !c.duplicate && !c.paused && c.dayActive && !c.cooldownActive
  }

  /** Every limit `check_order_risk` enforces. */
  predicate OrderAllowed(r: Request, s: Snapshot, settings: Settings, c: Conditions, open: seq<OpenRisk>) {
    && RequestOk(r, s, settings, c) && MarginOk(r, s, c) && RiskOk(r, s, settings, open) && LossOk(settings, c, open)
    && RewardOk(r, s, settings) && StopOk(r, s, c) && SessionOk(s, settings, c)
  }

  /** Gates 1 to 7: who asks, how old the quote is, and with what leverage. */
  method RequestReasons(r: Request, s: Snapshot, settings: Settings, c: Conditions) returns (reasons: seq<string>)
    ensures |reasons| == 0 <==> RequestOk(r, s, settings, c)
  {
    hide Times, Ratio, QuantizeToStep;
    reasons := [];
    if !r.authenticated {
      reasons := reasons + ["not_authenticated"];
    }
    if !c.current {
      reasons := reasons + ["stale_snapshot"];
    }
    if c.ttlExpired {
      reasons := reasons + ["order_ttl_expired"];
    }
    if r.quantity.Some? && r.quantity.value > 0.0 && !Aligned(r.quantity.value, s.quantityStep) {
      reasons := reasons + ["quantity_precision_mismatch"];
    }
    if settings.requireTier && s.tier.None? {
      reasons := reasons + ["risk_tier_unavailable"];
    }
    if s.tier.Some? && !c.tierFresh {
      reasons := reasons + ["risk_tier_stale"];
    }
    if !LeverageOk(r.leverage, settings, s.tier) {
      reasons := reasons + ["leverage_out_of_range"];
    }
  }

  /** Gates 8 to 10: risk of this order, of all open positions, and the day's loss. */
  method ExposureReasons(s: Snapshot, settings: Settings, c: Conditions, open: seq<OpenRisk>, r: Request,
                         risk: Option<real>)
    returns (reasons: seq<string>)
    requires risk == GateRisk(r, s)
    ensures |reasons| == 0 <==> RiskOk(r, s, settings, open) && LossOk(settings, c, open)
  {
    hide Times, GateRisk, Abs;
    reasons := [];
    if risk.Some? && risk.value > settings.maxRiskPerOrder {
      reasons := reasons + ["risk_per_order_exceeded"];
    }
    var totalOpenRisk, unrealized := 0.0, 0.0;
    for i := 0 to |open|
      invariant totalOpenRisk == OpenRiskTo(open, s.contractSize, i)
      invariant unrealized == UnrealizedTo(open, i)
    {
      totalOpenRisk := totalOpenRisk + Times(Times(open[i].quantity, s.contractSize), Abs(open[i].entry - open[i].stop));
      unrealized := unrealized + open[i].unrealized;
    }
    if risk.Some? {
      totalOpenRisk := totalOpenRisk + risk.value;
    }
    if totalOpenRisk > settings.maxOpenRisk {
      reasons := reasons + ["max_open_risk_exceeded"];
    }
    var loss := -(c.dailyRealized + unrealized);
    if (if loss > 0.0 then loss else 0.0) > settings.maxDailyLoss {
      reasons := reasons + ["daily_drawdown_exceeded"];
    }
  }

  /** Gates 13 to 15: spread, duplicates, pauses. */
  method SessionReasons(s: Snapshot, settings: Settings, c: Conditions) returns (reasons: seq<string>)
    ensures |reasons| == 0 <==> SessionOk(s, settings, c)
  {
    hide SpreadOk;
    reasons := [];
    if !SpreadOk(s, settings.maxSpreadBps) {
      reasons := reasons + ["spread_too_wide"];
    }
    if c.duplicate {
      reasons := reasons + ["duplicate_order"];
    }
    if c.paused {
      reasons := reasons + ["trading_paused"];
    }
    if !c.dayActive {
      reasons := reasons + ["day_not_active"];
    }
    if c.cooldownActive {
      reasons := reasons + ["cooldown_active"];
    }
  }

  /** Collects the reasons against an order; the order is allowed when there is none. */
  method CheckOrderRisk(r: Request, s: Snapshot, settings: Settings, c: Conditions, open: seq<OpenRisk>)
    returns (v: Verdict)
    ensures v.allowed <==> OrderAllowed(r, s, settings, c, open)
    ensures v.quantity == if HasQuantity(GateQuantity(r, s)) then GateQuantity(r, s) else None
    ensures v.entry == if v.allowed || EntryPrice(s, r.side) > 0.0 then Some(EntryPrice(s, r.side)) else None
    ensures v.risk == GateRisk(r, s)
  {
    hide Times, Ratio, RiskToStop, NetRewardToRisk, PositionSize, RequestOk, RiskOk, LossOk, SessionOk;
    var reasons := RequestReasons(r, s, settings, c);
    var qty, entry := r.quantity, EntryPrice(s, r.side);
    if qty.None? || qty.value <= 0.0 {
      var size := PositionSize(r.riskAmount, entry, r.stop, s.quantityStep, s.contractSize);
      qty := if size.Ok? then Some(size.value) else None;
    }
    var notional := None;
    if HasQuantity(qty) && r.leverage >= 1 {
      notional := Some(Times(Times(qty.value, s.contractSize), entry));
      if Ratio(notional.value, r.leverage as real) > c.availableMargin {
        reasons := reasons + ["insufficient_margin"];
      }
    }
    var risk := None;
    if HasQuantity(qty) && r.stop > 0.0 && entry > 0.0 {
      risk := Some(RiskToStop(qty.value, s.contractSize, entry, r.stop));
    }
    var exposure := ExposureReasons(s, settings, c, open, r, risk);
    reasons := reasons + exposure;
    if risk.Some? && risk.value > 0.0 && r.takeProfit.Some? && r.takeProfit.value > 0.0 {
      var netRr := NetRewardToRisk(qty.value, s.contractSize, entry, r.takeProfit.value, notional, risk.value);
      if netRr < settings.minNetRr {
        reasons := reasons + ["net_rr_below_minimum"];
      }
    }
    if r.leverage >= 1 && entry > 0.0 && r.stop > 0.0 {
      if (r.side.Long? && r.stop <= c.liquidationPrice) || (r.side.Short? && r.stop >= c.liquidationPrice) {
        reasons := reasons + ["stop_after_liquidation"];
      }
    }
    var session := SessionReasons(s, settings, c);
    reasons := reasons + session;
    var ok := |reasons| == 0;
    v := Verdict(ok, if HasQuantity(qty) then qty else None, if ok || entry > 0.0 then Some(entry) else None, risk);
  }

  // ---------------------------------------------------------------------------
  // What the order gate means
  // ---------------------------------------------------------------------------

  /** The market at the moment a target is reached: both quotes at it. */
  function AtTarget(s: Snapshot, target: real): Snapshot { s.(bid := target, ask := target) }

  /**
   The reward gate against the engine: for an order that meets every other gate and whose target is ahead
   of the entry, it is allowed exactly if opening the approved quantity at the checked quote and closing it
   at the target, without slippage, realises at least the least ratio times the risk to the stop.
   */
  lemma RewardExactly(r: Request, s: Snapshot, settings: Settings, c: Conditions, open: seq<OpenRisk>, fraction: real,
                      qty: real)
    requires RequestOk(r, s, settings, c) && MarginOk(r, s, c) && RiskOk(r, s, settings, open) && LossOk(settings, c, open)
    requires StopOk(r, s, c) && SessionOk(s, settings, c)
    requires GateQuantity(r, s) == Some(qty) && qty > 0.0
    requires s.contractSize > 0.0 && r.stop > 0.0 && EntryPrice(s, r.side) > 0.0 && r.stop != EntryPrice(s, r.side)
    requires r.takeProfit.Some? && r.takeProfit.value > 0.0
    requires if r.side.Long? then r.takeProfit.value > s.ask else r.takeProfit.value < s.bid
    requires var f := ExecuteMarketOrder(s, r.side, qty, r.leverage, r.stop, r.takeProfit, 0, fraction, FEE_RATE);
             f.Ok? && f.value.filled && f.value.filledQty == qty
    ensures var f := ExecuteMarketOrder(s, r.side, qty, r.leverage, r.stop, r.takeProfit, 0, fraction, FEE_RATE).value;
            var entry := if r.side.Long? then s.ask else s.bid;
            && f.position.Some?
            && var close := ExecuteClose(f.position.value, AtTarget(s, r.takeProfit.value), Some(qty), 0, FEE_RATE);
               OrderAllowed(r, s, settings, c, open) <==>
               close.realizedNet >= Times(settings.minNetRr, Times(Times(qty, s.contractSize), Abs(entry - r.stop)))
  {
    FillIsLargest(s, r.side, qty, r.leverage, r.stop, r.takeProfit, 0, fraction, FEE_RATE);
    FillCarries(s, r.side, qty, r.leverage, r.stop, r.takeProfit, 0, fraction, FEE_RATE);
    hide Times, Ratio, ExecuteMarketOrder, ExecuteClose, QuantizeToStep, PositionSize, SpreadOk, AvailableQuantity;
    var f := ExecuteMarketOrder(s, r.side, qty, r.leverage, r.stop, r.takeProfit, 0, fraction, FEE_RATE).value;
    var p, target, entry := f.position.value, r.takeProfit.value, EntryPrice(s, r.side);
    CloseAtMarket(p, AtTarget(s, target), Some(qty), 0, FEE_RATE);
    FullClose(p, AtTarget(s, target), 0, FEE_RATE);
    assert p.entryPrice == entry;
    var base := Times(qty, s.contractSize);
    TimesPositive(qty, s.contractSize);
    TimesPositive(base, Abs(entry - r.stop));
    var notional := Times(base, entry);
    Commute(notional, FEE_RATE);
    Commute(Times(base, target), FEE_RATE);
    TimesZero(0.0, FEE_RATE);
    var risk := RiskToStop(qty, s.contractSize, entry, r.stop);
    var net := Times(base, Abs(target - entry)) - Times(notional, FEE_RATE) - Times(Times(base, target), FEE_RATE);
    AtLeastTimes(net, risk, settings.minNetRr);
  }

  /** The smaller of the two limits on leverage. */
  predicate WithinLeverage(leverage: int, settings: Settings, tier: Option<RiskTier>) {
    1 <= leverage <= settings.maxLeverage && (tier.Some? ==> leverage <= tier.value.maxLeverage)
  }

  /**
   Every gate but the reward's, in numbers: who asks and when; whole steps; leverage; margin; the risk to
   the stop, alone and with that of the open positions; the day's loss; the liquidation price; the spread.
   */
  lemma GatesExactly(r: Request, s: Snapshot, settings: Settings, c: Conditions, open: seq<OpenRisk>)
    ensures RequestOk(r, s, settings, c) && MarginOk(r, s, c) && RiskOk(r, s, settings, open) && LossOk(settings, c, open)
            && StopOk(r, s, c) && SessionOk(s, settings, c) <==>
            var entry := if r.side.Long? then s.ask else s.bid;
            var q := GateQuantity(r, s);
            var sized := q.Some? && q.value > 0.0;
            var risk := if sized && r.stop > 0.0 && entry > 0.0 then
                          Times(Times(q.value, s.contractSize), if entry < r.stop then r.stop - entry else entry - r.stop)
                        else 0.0;
            && r.authenticated && c.current && !c.ttlExpired && !c.duplicate && !c.paused && c.dayActive && !c.cooldownActive
            && (r.quantity.Some? && r.quantity.value > 0.0 && s.quantityStep > 0.0 ==>
                  Multiple(r.quantity.value, s.quantityStep))
            && (settings.requireTier ==> s.tier.Some?) && (s.tier.Some? ==> c.tierFresh)
            && WithinLeverage(r.leverage, settings, s.tier)
            && (sized ==> Times(Times(q.value, s.contractSize), entry) <= Times(c.availableMargin, r.leverage as real))
            && (sized && r.stop > 0.0 && entry > 0.0 ==> risk <= settings.maxRiskPerOrder)
            && OpenRiskTo(open, s.contractSize, |open|) + risk <= settings.maxOpenRisk
            && settings.maxDailyLoss >= 0.0 && c.dailyRealized + UnrealizedTo(open, |open|) >= -settings.maxDailyLoss
            && (entry > 0.0 && r.stop > 0.0 ==>
                  if r.side.Long? then r.stop > c.liquidationPrice else r.stop < c.liquidationPrice)
            && s.bid > 0.0 && s.bid + s.ask > 0.0
            && 20000.0 * (s.ask - s.bid) <= Times(settings.maxSpreadBps as real, s.bid + s.ask)
  {
    hide Times, Ratio, QuantizeToStep, SpreadOk, PositionSize;
    SpreadExactly(s, settings.maxSpreadBps);
    if r.quantity.Some? && r.quantity.value > 0.0 && s.quantityStep > 0.0 {
      AlignedExactly(r.quantity.value, s.quantityStep);
    }
    if HasQuantity(GateQuantity(r, s)) && r.leverage >= 1 {
      AtMostTimes(GateNotional(r, s).value, r.leverage as real, c.availableMargin);
    }
  }

  /** A quantity passes the precision gate exactly when it is a multiple of the step. */
  lemma AlignedExactly(qty: real, step: real)
    requires step > 0.0
    ensures Aligned(qty, step) <==> Multiple(qty, step)
  {
    hide Times, Ratio, Truncate;
    assert IsTimes(QuantizeToStep(qty, step), Truncate(Ratio(qty, step)), step);
    if Multiple(qty, step) {
      var k: int :| IsTimes(qty, k, step);
      RatioOfMultiple(k as real, step);
      TruncateWhole(k);
    }
  }

  /** An open position weighs as much as an order of its quantity, entry and stop. */
  lemma {:induction false} OpenRiskAdds(open: seq<OpenRisk>, o: OpenRisk, size: real)
    ensures OpenRiskTo(open + [o], size, |open| + 1) ==
            OpenRiskTo(open, size, |open|) + RiskToStop(o.quantity, size, o.entry, o.stop)
    ensures UnrealizedTo(open + [o], |open| + 1) == UnrealizedTo(open, |open|) + o.unrealized
  {
    hide Times;
    SumOfFront(open, open + [o], size, |open|);
  }

  lemma {:induction false} SumOfFront(a: seq<OpenRisk>, b: seq<OpenRisk>, size: real, n: nat)
    requires n <= |a| && a <= b
    ensures OpenRiskTo(a, size, n) == OpenRiskTo(b, size, n) && UnrealizedTo(a, n) == UnrealizedTo(b, n)
  {
    hide Times;
    if n > 0 {
      SumOfFront(a, b, size, n - 1);
      assert a[n - 1] == b[n - 1];
    }
  }

  // ---------------------------------------------------------------------------
  // The pre-fill gate
  // ---------------------------------------------------------------------------

  predicate FillAllowed(r: Request, s: Snapshot, settings: Settings, c: Conditions, reservedQty: real,
                        reservedEntry: real) {
    var price := EntryPrice(s, r.side);
    && c.current && SpreadOk(s, settings.maxSpreadBps)
    && TierOk(settings, s.tier, c.tierFresh) && LeverageOk(r.leverage, settings, s.tier)
    && (reservedEntry > 0.0 ==>
          if r.side.Long? then price <= reservedEntry + reservedEntry * 0.02 else price >= reservedEntry - reservedEntry * 0.02)
    && (reservedQty > 0.0 && price > 0.0 ==>
          var notional := Times(Times(reservedQty, s.contractSize), price);
          (if r.leverage >= 1 then Ratio(notional, r.leverage as real) else notional) <= c.availableMargin)
  }

  method CheckFillRisk(r: Request, s: Snapshot, settings: Settings, c: Conditions, reservedQty: real, reservedEntry: real)
    returns (allowed: bool)
    ensures allowed <==> FillAllowed(r, s, settings, c, reservedQty, reservedEntry)
  {
    hide Times;
    var reasons: seq<string> := [];
    if !c.current {
      reasons := reasons + ["stale_snapshot_at_fill"];
    }
    if !SpreadOk(s, settings.maxSpreadBps) {
      reasons := reasons + ["spread_too_wide_at_fill"];
    }
    if settings.requireTier && s.tier.None? {
      reasons := reasons + ["risk_tier_unavailable_at_fill"];
    }
    if s.tier.Some? && !c.tierFresh {
      reasons := reasons + ["risk_tier_stale_at_fill"];
    }
    if !LeverageOk(r.leverage, settings, s.tier) {
      reasons := reasons + ["leverage_out_of_range_at_fill"];
    }
    var price := EntryPrice(s, r.side);
    if reservedEntry > 0.0 {
      var tolerance := reservedEntry * 0.02;
      if (r.side.Long? && price > reservedEntry + tolerance) || (r.side.Short? && price < reservedEntry - tolerance) {
        reasons := reasons + ["price_adverse_at_fill"];
      }
    }
    if reservedQty > 0.0 && price > 0.0 {
      var notional := Times(Times(reservedQty, s.contractSize), price);
      var needed := if r.leverage >= 1 then Ratio(notional, r.leverage as real) else notional;
      if needed > c.availableMargin {
        reasons := reasons + ["insufficient_margin_at_fill"];
      }
    }
    allowed := |reasons| == 0;
  }

  /** The pre-fill gate in numbers. */
  lemma FillGateExactly(r: Request, s: Snapshot, settings: Settings, c: Conditions, qty: real, entry: real)
    requires qty > 0.0 && entry > 0.0
    ensures FillAllowed(r, s, settings, c, qty, entry) <==>
            var price := if r.side.Long? then s.ask else s.bid;
            && c.current && (settings.requireTier ==> s.tier.Some?) && (s.tier.Some? ==> c.tierFresh)
            && WithinLeverage(r.leverage, settings, s.tier)
            && s.bid > 0.0 && s.bid + s.ask > 0.0
            && 20000.0 * (s.ask - s.bid) <= Times(settings.maxSpreadBps as real, s.bid + s.ask)
            && 100.0 * (if r.side.Long? then price - entry else entry - price) <= 2.0 * entry
            && (price > 0.0 ==> Times(Times(qty, s.contractSize), price) <= Times(c.availableMargin, r.leverage as real))
  {
    hide Times, Ratio, SpreadOk;
    SpreadExactly(s, settings.maxSpreadBps);
    if r.leverage >= 1 {
      AtMostTimes(Times(Times(qty, s.contractSize), EntryPrice(s, r.side)), r.leverage as real, c.availableMargin);
    }
  }

  // ---------------------------------------------------------------------------
  // The signal chain
  // ---------------------------------------------------------------------------

  /** How far above the approved entry a fill may be, as a factor: two percent drift, then slippage. */
  function WorstFactor(side: Side, bps: int): real {
    if side.Long? then 1.02 * (1.0 + bps as real * BPS) else 0.98 * (1.0 - bps as real * BPS)
  }

  /**
   Signal chain: order gate on one snapshot, pre-fill gate and execution on a later one.
   The quantity is the one the order gate computed.
   */
  method SignalChain(r: Request, approve: Snapshot, fill: Snapshot, settings: Settings, c0: Conditions, c1: Conditions,
                     open: seq<OpenRisk>, bps: int, fraction: real, feeRate: real) returns (taken: Option<Position>)
    requires r.quantity.None? && r.riskAmount == settings.maxRiskPerOrder
    ensures taken.Some? <==>
              && OrderAllowed(r, approve, settings, c0, open)
              && HasQuantity(GateQuantity(r, approve))
              && FillAllowed(r, fill, settings, c1, GateQuantity(r, approve).value, EntryPrice(approve, r.side))
              && var f := ExecuteMarketOrder(fill, r.side, GateQuantity(r, approve).value, r.leverage, r.stop, r.takeProfit,
                                             bps, fraction, feeRate);
                 f.Ok? && f.value.filled
    ensures taken.Some? ==>
              var f := ExecuteMarketOrder(fill, r.side, GateQuantity(r, approve).value, r.leverage, r.stop, r.takeProfit,
                                          bps, fraction, feeRate).value;
              f.position == taken && taken.value.quantity == f.filledQty && taken.value.entryPrice == f.fillPrice
  {
    FilledHasPosition(fill, r, GateQuantity(r, approve), bps, fraction, feeRate);
    hide Times, Ratio, OrderAllowed, FillAllowed, GateQuantity, ExecuteMarketOrder;
    var v := CheckOrderRisk(r, approve, settings, c0, open);
    if !v.allowed {
      return None;
    }
    if v.quantity.None? || v.quantity.value <= 0.0 {
      return None;
    }
    var allowed := CheckFillRisk(r, fill, settings, c1, v.quantity.value, v.entry.value);
    if !allowed {
      return None;
    }
    var f := ExecuteMarketOrder(fill, r.side, v.quantity.value, r.leverage, r.stop, r.takeProfit, bps, fraction, feeRate);
    if f.Err? || !f.value.filled {
      return None;
    }
    taken := f.value.position;
  }

  lemma FilledHasPosition(s: Snapshot, r: Request, qty: Option<real>, bps: int, fraction: real, feeRate: real)
    ensures qty.Some? ==>
              var f := ExecuteMarketOrder(s, r.side, qty.value, r.leverage, r.stop, r.takeProfit, bps, fraction, feeRate);
              f.Ok? && f.value.filled ==>
                f.value.position.Some? && f.value.position.value.quantity == f.value.filledQty
                && f.value.position.value.entryPrice == f.value.fillPrice
  {
    hide Times, Ratio, AvailableQuantity, QuantizeToStep, ApplySlippage;
  }

  /** The chain opened a position of `filled` contracts at `price` for the approved quantity `qty`. */
  ghost predicate Opened(r: Request, approve: Snapshot, fill: Snapshot, settings: Settings, c0: Conditions, c1: Conditions,
                         open: seq<OpenRisk>, bps: int, fraction: real, feeRate: real, qty: real, filled: real, price: real)
  {
    && r.quantity.None? && r.riskAmount == settings.maxRiskPerOrder
    && OrderAllowed(r, approve, settings, c0, open)
    && GateQuantity(r, approve) == Some(qty) && qty > 0.0
    && FillAllowed(r, fill, settings, c1, qty, EntryPrice(approve, r.side))
    && var f := ExecuteMarketOrder(fill, r.side, qty, r.leverage, r.stop, r.takeProfit, bps, fraction, feeRate);
       f.Ok? && f.value.filled && f.value.filledQty == filled && f.value.fillPrice == price
  }

  lemma DriftedLong(p: real, e: real, a: real)
    requires p <= e + e * 0.02 && a >= 0.0
    ensures Times(p, 1.0 + a) - e <= Times(e, 1.02 * (1.0 + a) - 1.0)
  {
    assert e + e * 0.02 == 1.02 * e;
    hide Times;
    TimesMono(1.0 + a, p, 1.02 * e);
    Commute(1.0 + a, p);
    Commute(1.0 + a, 1.02 * e);
    ScaledProduct(1.02, e, 1.0 + a);
    DistributeMinus(e, 1.02 * (1.0 + a), 1.0);
    TimesOne(e);
  }

  lemma DriftedShort(p: real, e: real, a: real)
    requires p >= e - e * 0.02 && a <= 1.0
    ensures e - Times(p, 1.0 - a) <= Times(e, 1.0 - 0.98 * (1.0 - a))
  {
    assert e - e * 0.02 == 0.98 * e;
    hide Times;
    TimesMono(1.0 - a, 0.98 * e, p);
    Commute(1.0 - a, p);
    Commute(1.0 - a, 0.98 * e);
    ScaledProduct(0.98, e, 1.0 - a);
    DistributeMinus(e, 1.0, 0.98 * (1.0 - a));
    TimesOne(e);
  }

  lemma ScaledProduct(k: real, a: real, b: real)
    ensures Times(k * a, b) == Times(a, k * b)
  {
    assert (k * a) * b == a * (k * b);
  }

  /** Risk of a fill, given how far its price may be from the approved entry. */
  lemma FillRisk(q: real, f: real, size: real, perContract: real, gap: real, drift: real, entry: real, factor: real,
                 limit: real)
    requires 0.0 < f <= q && size > 0.0 && entry > 0.0 && limit > 0.0 && factor >= 0.0
    requires perContract <= gap + drift && drift <= Times(entry, factor)
    requires Times(Times(q, size), gap) <= limit
    ensures Times(Times(f, size), perContract) <= limit + Times(Times(Times(q, size), entry), factor)
  {
    hide Times;
    TimesPositive(q, size);
    TimesPositive(f, size);
    var base := Times(q, size);
    Associate(base, entry, factor);
    if perContract <= 0.0 {
      TimesMono(Times(f, size), perContract, 0.0);
      TimesZero(0.0, Times(f, size));
      TimesPositive(base, entry);
      TimesSign(Times(base, entry), factor);
    } else {
      TimesMono(size, f, q);
      Commute(size, f);
      Commute(size, q);
      TimesMono(perContract, Times(f, size), base);
      Commute(perContract, Times(f, size));
      Commute(perContract, base);
      TimesMono(base, perContract, gap + Times(entry, factor));
      Distribute(base, gap, Times(entry, factor));
    }
  }

  /** The slipped price of a short stays at zero or above. */
  predicate SlipWithin(side: Side, bps: int) { side.Long? || bps <= 10000 }

  /**
   A position the signal chain opens risks no more to its stop than the per-order limit plus what
   two percent of drift and the slippage can add to the approved notional, both in proportion to the
   contract sizes when the later snapshot states another one.  A short slipped below a price of zero
   is bounded by the margin that the pre-fill gate saw instead.
   */
  lemma OpenedRiskBounded(r: Request, approve: Snapshot, fill: Snapshot, settings: Settings, c0: Conditions, c1: Conditions,
                          open: seq<OpenRisk>, bps: int, fraction: real, feeRate: real, qty: real, filled: real, price: real)
    requires Opened(r, approve, fill, settings, c0, c1, open, bps, fraction, feeRate, qty, filled, price) && bps >= 0
    ensures 0.0 < filled <= qty && approve.contractSize > 0.0 && fill.contractSize > 0.0 && r.stop > 0.0
    ensures SlipWithin(r.side, bps) ==>
              var size, entry := approve.contractSize, EntryPrice(approve, r.side);
              var lost := if r.side.Long? then price - r.stop else r.stop - price;
              var factor := if r.side.Long? then WorstFactor(Long, bps) - 1.0 else 1.0 - WorstFactor(Short, bps);
              var limit := settings.maxRiskPerOrder + Times(Times(Times(qty, size), entry), factor);
              && Times(Times(filled, fill.contractSize), lost) <= Times(Ratio(fill.contractSize, size), limit)
              && (fill.contractSize == size ==> Times(Times(filled, size), lost) <= limit)
    ensures !SlipWithin(r.side, bps) ==>
              Times(Times(filled, fill.contractSize), r.stop - price) <=
              Times(Times(qty, fill.contractSize), r.stop)
              + Times(Times(r.leverage as real, c1.availableMargin), bps as real * BPS - 1.0)
  {
    FillWithinRequest(fill, r.side, qty, r.leverage, r.stop, r.takeProfit, bps, fraction, feeRate);
    FilledHasSize(fill, r, qty, bps, fraction, feeRate);
    hide Times, Ratio, ExecuteMarketOrder, QuantizeToStep, NetRewardToRisk, SpreadOk;
    var size, entry, a := approve.contractSize, EntryPrice(approve, r.side), bps as real * BPS;
    assert PositionSize(r.riskAmount, entry, r.stop, approve.quantityStep, size).Ok?;
    assert RiskToStop(qty, size, entry, r.stop) <= settings.maxRiskPerOrder;
    var current := EntryPrice(fill, r.side);
    if SlipWithin(r.side, bps) {
      DriftedRisk(r.side, current, entry, a, qty, filled, size, r.stop, settings.maxRiskPerOrder);
      var lost := if r.side.Long? then price - r.stop else r.stop - price;
      ResizedRisk(filled, size, fill.contractSize, lost,
                  settings.maxRiskPerOrder
                  + Times(Times(Times(qty, size), entry),
                          if r.side.Long? then WorstFactor(Long, bps) - 1.0 else 1.0 - WorstFactor(Short, bps)));
    } else {
      MarginRisk(current, a, qty, filled, fill.contractSize, r.stop, r.leverage as real, c1.availableMargin);
    }
  }

  /** Risk of a fill whose quote drifted by at most two percent. */
  lemma DriftedRisk(side: Side, current: real, entry: real, a: real, qty: real, filled: real, size: real, stop: real,
                    limit: real)
    requires 0.0 < filled <= qty && size > 0.0 && entry > 0.0 && limit > 0.0 && a >= 0.0 && (side.Short? ==> a <= 1.0)
    requires RiskToStop(qty, size, entry, stop) <= limit
    requires if side.Long? then current <= entry + entry * 0.02 else current >= entry - entry * 0.02
    ensures side.Long? ==>
              Times(Times(filled, size), Times(current, 1.0 + a) - stop)
              <= limit + Times(Times(Times(qty, size), entry), 1.02 * (1.0 + a) - 1.0)
    ensures side.Short? ==>
              Times(Times(filled, size), stop - Times(current, 1.0 - a))
              <= limit + Times(Times(Times(qty, size), entry), 1.0 - 0.98 * (1.0 - a))
  {
    hide Times;
    if side.Long? {
      var price := Times(current, 1.0 + a);
      DriftedLong(current, entry, a);
      FillRisk(qty, filled, size, price - stop, Abs(entry - stop), price - entry, entry, 1.02 * (1.0 + a) - 1.0, limit);
    } else {
      var price := Times(current, 1.0 - a);
      DriftedShort(current, entry, a);
      FillRisk(qty, filled, size, stop - price, Abs(entry - stop), entry - price, entry, 1.0 - 0.98 * (1.0 - a), limit);
    }
  }

  /** Nothing is filled unless a contract has a size. */
  lemma FilledHasSize(fill: Snapshot, r: Request, qty: real, bps: int, fraction: real, feeRate: real)
    requires var f := ExecuteMarketOrder(fill, r.side, qty, r.leverage, r.stop, r.takeProfit, bps, fraction, feeRate);
             f.Ok? && f.value.filled
    ensures fill.contractSize > 0.0
  {
    hide Times, Ratio, QuantizeToStep;
    var available := AvailableQuantity(fill, fraction, 0.0).value;
    if available > 0.0 {
      AvailableHasSize(fill, fraction);
    } else {
      QuantizeNotAboveZero(Min(qty, available), fill.quantityStep);
    }
  }

  lemma AvailableHasSize(s: Snapshot, fraction: real)
    requires AvailableQuantity(s, fraction, 0.0).Ok? && AvailableQuantity(s, fraction, 0.0).value > 0.0
    ensures s.contractSize > 0.0
  {
    hide Times, Ratio, QuantizeToStep;
    var ref := if s.ask > 0.0 then s.ask else s.last;
    var unit := Times(s.contractSize, ref);
    TimesZero(0.0, unit);
    var room := Times(ref, fraction) - Times(0.0, unit);
    if s.contractSize <= 0.0 {
      TimesSign(-s.contractSize, ref);
      Negate(s.contractSize, ref);
      Quotient(room, unit);
      var raw := Ratio(room, unit);
      if raw > 0.0 {
        TimesPositive(raw, -unit);
        Commute(raw, unit);
        Negate(unit, raw);
        Commute(raw, -unit);
        assert false;
      }
      QuantizeNotAboveZero(raw, s.quantityStep);
    }
  }

  lemma QuantizeNotAboveZero(value: real, step: real)
    requires value <= 0.0
    ensures QuantizeToStep(value, step) <= 0.0
  {
    if step > 0.0 {
      var q := Ratio(value, step);
      if q > 0.0 {
        TimesPositive(q, step);
        Quotient(value, step);
        assert false;
      }
      TimesSign(-(Truncate(q) as real), step);
      Negate(Truncate(q) as real, step);
    }
  }

  /** A short whose slipped price is negative loses its stop, and at most the margin's notional slipped below zero. */
  lemma MarginRisk(current: real, a: real, qty: real, filled: real, size: real, stop: real, leverage: real, margin: real)
    requires 0.0 < filled <= qty && size > 0.0 && stop > 0.0 && current > 0.0 && a > 1.0 && leverage >= 1.0
    requires Ratio(Times(Times(qty, size), current), leverage) <= margin
    ensures Times(Times(filled, size), stop - Times(current, 1.0 - a)) <=
            Times(Times(qty, size), stop) + Times(Times(leverage, margin), a - 1.0)
  {
    hide Times, Ratio;
    var base, all := Times(filled, size), Times(qty, size);
    TimesMono(size, filled, qty);
    Commute(size, filled);
    Commute(size, qty);
    Negate(current, a - 1.0);
    Commute(current, a - 1.0);
    Commute(current, 1.0 - a);
    Negate(a - 1.0, current);
    var over := Times(current, a - 1.0);
    TimesPositive(current, a - 1.0);
    assert stop - Times(current, 1.0 - a) == stop + over;
    TimesMono(stop + over, base, all);
    Commute(stop + over, base);
    Commute(stop + over, all);
    Distribute(all, stop, over);
    Associate(all, current, a - 1.0);
    var notional := Times(all, current);
    Quotient(notional, leverage);
    TimesMono(leverage, Ratio(notional, leverage), margin);
    Commute(leverage, Ratio(notional, leverage));
    TimesMono(a - 1.0, notional, Times(leverage, margin));
    Commute(a - 1.0, notional);
    Commute(a - 1.0, Times(leverage, margin));
  }

  /** A bound on risk carries over in proportion to another contract size. */
  lemma ResizedRisk(filled: real, size: real, other: real, lost: real, limit: real)
    requires size > 0.0 && other > 0.0 && Times(Times(filled, size), lost) <= limit
    ensures Times(Times(filled, other), lost) <= Times(Ratio(other, size), limit)
  {
    hide Times, Ratio;
    var k := Ratio(other, size);
    Quotient(other, size);
    if k < 0.0 {
      TimesPositive(-k, size);
      Negate(k, size);
      assert false;
    }
    TimesMono(k, Times(Times(filled, size), lost), limit);
    Associate(k, Times(filled, size), lost);
    Scale(k, filled, size);
  }
}
