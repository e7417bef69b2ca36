/**
 The simulated execution engine (`paper_trading/execution.py`): market orders with partial
 fills, and full or partial closes that allocate the entry fee and margin in proportion.
 */
module Execution {
  import opened Arithmetic
  import opened Market
  import opened Wrappers

  datatype Position = Position(
    side: Side, entryPrice: real, quantity: real, leverage: int, stopPrice: real, takeProfit: Option<real>,
    margin: real, entryFee: real)

  datatype FillResult = FillResult(
    filled: bool, fillPrice: real, filledQty: real, remainingQty: real, entryFee: real, notional: real, margin: real,
    position: Option<Position>, reason: string)

  function Min(a: real, b: real): real { if b < a then b else a }

  /** An immediate-or-cancel market order. */
  function ExecuteMarketOrder(s: Snapshot, side: Side, requested: real, leverage: int, stopPrice: real,
                              takeProfit: Option<real>, bps: int, fraction: real, feeRate: real): Result<FillResult>
  {
    if requested <= 0.0 then
      Ok(FillResult(false, 0.0, 0.0, requested, 0.0, 0.0, 0.0, None, "invalid_quantity"))
    else
      var fillPrice := ApplySlippage(ExecutionPrice(s, side, OpenAction), side, OpenAction, bps);
      match AvailableQuantity(s, fraction, 0.0)
      case Err(reason) => Err(reason)
      case Ok(available) =>
        var reachable := Min(requested, available);
        var filled := if s.quantityStep > 0.0 && reachable > 0.0 then QuantizeToStep(reachable, s.quantityStep) else reachable;
        if filled <= 0.0 then
          Ok(FillResult(false, fillPrice, 0.0, requested, 0.0, 0.0, 0.0, None, "no_liquidity"))
        else
          var notional := Times(Times(filled, s.contractSize), fillPrice);
          var fee := Times(notional, feeRate);
          var margin := if leverage >= 1 then Ratio(notional, leverage as real) else notional;
          var position := Position(side, fillPrice, filled, leverage, stopPrice, takeProfit, margin, fee);
          Ok(FillResult(true, fillPrice, filled, requested - reachable, fee, notional, margin, Some(position), ""))
  }

  /** A fill is positive and never exceeds the request. */
  lemma FillWithinRequest(s: Snapshot, side: Side, requested: real, leverage: int, stopPrice: real,
                          takeProfit: Option<real>, bps: int, fraction: real, feeRate: real)
    requires ExecuteMarketOrder(s, side, requested, leverage, stopPrice, takeProfit, bps, fraction, feeRate).Ok?
    ensures var r := ExecuteMarketOrder(s, side, requested, leverage, stopPrice, takeProfit, bps, fraction, feeRate).value;
            r.filled ==> 0.0 < r.filledQty <= requested && r.filledQty + r.remainingQty <= requested
                         && r.fillPrice == ApplySlippage(ExecutionPrice(s, side, OpenAction), side, OpenAction, bps)
  {
    hide Times, Ratio, QuantizeToStep;
    if requested > 0.0 && AvailableQuantity(s, fraction, 0.0).Ok? {
      var reachable := Min(requested, AvailableQuantity(s, fraction, 0.0).value);
      if reachable > 0.0 {
        QuantizeNotAbove(reachable, s.quantityStep);
      }
    }
  }

  /** An order fills at the market price of its side, for as many whole steps as the request and the book allow. */
  lemma FillIsLargest(s: Snapshot, side: Side, requested: real, leverage: int, stopPrice: real, takeProfit: Option<real>,
                      bps: int, fraction: real, feeRate: real)
    requires ExecuteMarketOrder(s, side, requested, leverage, stopPrice, takeProfit, bps, fraction, feeRate).Ok?
    requires requested > 0.0
    ensures var r := ExecuteMarketOrder(s, side, requested, leverage, stopPrice, takeProfit, bps, fraction, feeRate).value;
            var reachable := Min(requested, AvailableQuantity(s, fraction, 0.0).value);
            && (r.filled <==> s.quantityStep <= reachable)
            && (r.filled ==>
                  && QuantizeToStep(r.filledQty, s.quantityStep) == r.filledQty
                  && r.filledQty <= reachable < r.filledQty + s.quantityStep
                  && 10000.0 * r.fillPrice ==
                     if side.Long? then s.ask * (10000 + bps) as real else s.bid * (10000 - bps) as real)
  {
    hide Times, Ratio, QuantizeToStep, ApplySlippage, AvailableQuantity;
    StepOfAvailable(s, fraction);
    TradedPrice(s, side, OpenAction, bps);
    var reachable := Min(requested, AvailableQuantity(s, fraction, 0.0).value);
    if reachable > 0.0 {
      QuantizeLargest(reachable, s.quantityStep, 1);
      TimesOne(s.quantityStep);
      QuantizeAgain(reachable, s.quantityStep);
      if reachable < s.quantityStep {
        QuantizeBelowStep(reachable, s.quantityStep);
      }
    }
  }

  lemma StepOfAvailable(s: Snapshot, fraction: real)
    ensures AvailableQuantity(s, fraction, 0.0).Ok? ==> s.quantityStep > 0.0
  {
    hide Times, Ratio, QuantizeToStep;
  }

  /** The position of a fill carries its price and quantity, and the fee and the margin of their notional. */
  lemma FillCarries(s: Snapshot, side: Side, requested: real, leverage: int, stopPrice: real, takeProfit: Option<real>,
                    bps: int, fraction: real, feeRate: real)
    requires ExecuteMarketOrder(s, side, requested, leverage, stopPrice, takeProfit, bps, fraction, feeRate).Ok?
    requires leverage >= 1
    ensures var r := ExecuteMarketOrder(s, side, requested, leverage, stopPrice, takeProfit, bps, fraction, feeRate).value;
            && (r.filled <==> r.position.Some?)
            && (r.filled ==>
                  var p := r.position.value;
                  && p.side == side && p.entryPrice == r.fillPrice && p.quantity == r.filledQty
                  && p.stopPrice == stopPrice && p.takeProfit == takeProfit && p.leverage == leverage
                  && p.entryFee == r.entryFee == Times(feeRate, Times(Times(r.filledQty, s.contractSize), r.fillPrice))
                  && Times(leverage as real, p.margin) == Times(Times(r.filledQty, s.contractSize), r.fillPrice))
  {
    hide Times, Ratio, QuantizeToStep, ApplySlippage, AvailableQuantity;
    var r := ExecuteMarketOrder(s, side, requested, leverage, stopPrice, takeProfit, bps, fraction, feeRate).value;
    if r.filled {
      var notional := Times(Times(r.filledQty, s.contractSize), r.fillPrice);
      Commute(notional, feeRate);
      Quotient(notional, leverage as real);
      Commute(leverage as real, Ratio(notional, leverage as real));
    }
  }

  // ---------------------------------------------------------------------------
  // Closes
  // ---------------------------------------------------------------------------

  datatype CloseResult = CloseResult(
    closed: bool, closePrice: real, closedQty: real, remainingQty: real, grossPnl: real, closeFee: real,
    allocatedFee: real, netPnl: real, realizedNet: real, remaining: Option<Position>)

  function FractionRemaining(closed: real, total: real): real {
    if total <= 0.0 then 0.0 else Ratio(total - closed, total)
  }

  /** Closes `closeQty` of the position, or all of it when none or more than held is asked for. */
  function ExecuteClose(p: Position, s: Snapshot, closeQty: Option<real>, bps: int, feeRate: real): CloseResult {
    var qty := if closeQty.None? || closeQty.value >= p.quantity then p.quantity else closeQty.value;
    if qty <= 0.0 then
      CloseResult(false, 0.0, 0.0, p.quantity, 0.0, 0.0, 0.0, 0.0, 0.0, Some(p))
    else
      var price := ApplySlippage(ExecutionPrice(s, p.side, CloseAction), p.side, CloseAction, bps);
      var base := Times(qty, s.contractSize);
      var gross := Times(Times(Sign(p.side), base), price - p.entryPrice);
      var fee := Times(Times(base, price), feeRate);
      var fraction := if p.quantity > 0.0 then Ratio(qty, p.quantity) else 0.0;
      var share := Times(p.entryFee, fraction);
      var net := gross - fee - share;
      var left := p.quantity - qty;
      var remaining :=
        if left > 0.0 then
          Some(p.(quantity := left, margin := Times(p.margin, FractionRemaining(qty, p.quantity)),
                  entryFee := p.entryFee - share))
        else None;
      CloseResult(true, price, qty, left, gross, fee, share, net, net, remaining)
  }

  /** A close trades at the market: a long sells at the bid, a short buys at the ask, and the slippage is against both. */
  lemma CloseAtMarket(p: Position, s: Snapshot, closeQty: Option<real>, bps: int, feeRate: real)
    ensures var r := ExecuteClose(p, s, closeQty, bps, feeRate);
            && (r.closed <==> p.quantity > 0.0 && (closeQty.Some? ==> closeQty.value > 0.0))
            && (r.closed ==>
                  && r.closedQty == (if closeQty.Some? && closeQty.value < p.quantity then closeQty.value else p.quantity)
                  && 10000.0 * r.closePrice ==
                     (if p.side.Long? then s.bid * (10000 - bps) as real else s.ask * (10000 + bps) as real)
                  && r.grossPnl == Times(Times(r.closedQty, s.contractSize),
                                         if p.side.Long? then r.closePrice - p.entryPrice else p.entryPrice - r.closePrice)
                  && r.closeFee == Times(feeRate, Times(Times(r.closedQty, s.contractSize), r.closePrice))
                  && r.realizedNet == r.grossPnl - r.closeFee - r.allocatedFee)
  {
    TradedPrice(s, p.side, CloseAction, bps);
    hide Times, Ratio, ApplySlippage;
    var r := ExecuteClose(p, s, closeQty, bps, feeRate);
    if r.closed {
      var base, gap := Times(r.closedQty, s.contractSize), r.closePrice - p.entryPrice;
      SignedTimes(base, gap);
      Commute(Times(base, r.closePrice), feeRate);
    }
  }

  lemma SignedTimes(base: real, gap: real)
    ensures Times(Times(1.0, base), gap) == Times(base, gap)
    ensures Times(Times(-1.0, base), gap) == Times(base, -gap)
  {
  }

  /** A full close charges the whole entry fee and leaves nothing. */
  lemma FullClose(p: Position, s: Snapshot, bps: int, feeRate: real)
    requires p.quantity > 0.0
    ensures var r := ExecuteClose(p, s, Some(p.quantity), bps, feeRate);
            && r.closed && r.closedQty == p.quantity && r.remainingQty == 0.0 && r.remaining.None?
            && r.allocatedFee == p.entryFee && r.realizedNet == r.grossPnl - r.closeFee - p.entryFee
  {
    hide Times;
    RatioOne(p.quantity, p.quantity);
    hide Ratio;
    TimesOne(p.entryFee);
  }

  /** Opening and closing at one snapshot never gains: the spread, the slippage and both fees are all paid. */
  lemma RoundTripNeverGains(s: Snapshot, side: Side, requested: real, leverage: int, stopPrice: real,
                            takeProfit: Option<real>, bps: int, fraction: real, feeRate: real)
    requires 0.0 < s.bid <= s.ask && s.contractSize > 0.0 && 0 <= bps <= 10000 && feeRate >= 0.0
    requires var f := ExecuteMarketOrder(s, side, requested, leverage, stopPrice, takeProfit, bps, fraction, feeRate);
             f.Ok? && f.value.filled
    ensures var f := ExecuteMarketOrder(s, side, requested, leverage, stopPrice, takeProfit, bps, fraction, feeRate).value;
            f.position.Some?
            && var r := ExecuteClose(f.position.value, s, None, bps, feeRate);
               r.closed && r.remaining.None? && r.grossPnl <= 0.0 && r.realizedNet <= -f.entryFee
  {
    hide Times, Ratio, QuantizeToStep, AvailableQuantity;
    FillWithinRequest(s, side, requested, leverage, stopPrice, takeProfit, bps, fraction, feeRate);
    var f := ExecuteMarketOrder(s, side, requested, leverage, stopPrice, takeProfit, bps, fraction, feeRate).value;
    var p := f.position.value;
    var a := bps as real * BPS;
    var base := Times(p.quantity, s.contractSize);
    TimesPositive(p.quantity, s.contractSize);
    SlippageIsAdverse(ExecutionPrice(s, side, OpenAction), side, OpenAction, bps);
    SlippageIsAdverse(ExecutionPrice(s, side, CloseAction), side, CloseAction, bps);
    var opening := ApplySlippage(ExecutionPrice(s, side, OpenAction), side, OpenAction, bps);
    var closing := ApplySlippage(ExecutionPrice(s, side, CloseAction), side, CloseAction, bps);
    TimesSign(ExecutionPrice(s, side, CloseAction), 1.0 - a);
    TimesSign(ExecutionPrice(s, side, CloseAction), 1.0 + a);
    assert closing >= 0.0;
    RoundTripGross(side, base, opening, closing);
    TimesSign(base, closing);
    TimesSign(Times(base, closing), feeRate);
    RatioOne(p.quantity, p.quantity);
    TimesOne(p.entryFee);
  }

  lemma RoundTripGross(side: Side, base: real, opening: real, closing: real)
    requires base > 0.0 && if side.Long? then closing <= opening else opening <= closing
    ensures Times(Times(Sign(side), base), closing - opening) <= 0.0
  {
    hide Times;
    TimesOne(base);
    if side.Long? {
      TimesMono(base, closing - opening, 0.0);
      TimesZero(0.0, base);
    } else {
      Negate(1.0, base);
      Negate(base, closing - opening);
      TimesSign(base, closing - opening);
    }
  }

  /** One call of a closing schedule. */
  datatype CloseCall = CloseCall(snapshot: Snapshot, qty: Option<real>)

  /** Calls made one after another on what remains of the position. */
  function CloseSchedule(p: Position, calls: seq<CloseCall>, bps: int, feeRate: real): seq<CloseResult>
    decreases |calls|
  {
    if calls == [] then []
    else
      var r := ExecuteClose(p, calls[0].snapshot, calls[0].qty, bps, feeRate);
      [r] + if r.remaining.Some? then CloseSchedule(r.remaining.value, calls[1..], bps, feeRate) else []
  }

  predicate EndsFlat(p: Position, results: seq<CloseResult>) {
    results != [] && results[|results| - 1].remaining.None?
  }

  function TotalRealized(results: seq<CloseResult>): real {
    if results == [] then 0.0 else results[0].realizedNet + TotalRealized(results[1..])
  }

  /** Price profit of closing `qty` contracts of size `size` at `price`. */
  function PriceProfit(side: Side, entry: real, qty: real, size: real, price: real): real {
    Times(Times(Sign(side), Times(qty, size)), price - entry)
  }

  function ExitFee(feeRate: real, qty: real, size: real, price: real): real {
    Times(Times(Times(qty, size), price), feeRate)
  }

  /** Price profit less exit fees of every close made, without any entry fee. */
  function ProfitBeforeEntryFee(p: Position, calls: seq<CloseCall>, results: seq<CloseResult>, feeRate: real): real
    requires |results| <= |calls|
  {
    if results == [] then 0.0
    else
      var r, size := results[0], calls[0].snapshot.contractSize;
      (if r.closed then
         PriceProfit(p.side, p.entryPrice, r.closedQty, size, r.closePrice) - ExitFee(feeRate, r.closedQty, size, r.closePrice)
       else 0.0)
      + ProfitBeforeEntryFee(p, calls[1..], results[1..], feeRate)
  }

  lemma {:induction false} ScheduleLength(p: Position, calls: seq<CloseCall>, bps: int, feeRate: real)
    ensures |CloseSchedule(p, calls, bps, feeRate)| <= |calls|
    decreases |calls|
  {
    hide ExecuteClose;
    if calls != [] {
      var r := ExecuteClose(p, calls[0].snapshot, calls[0].qty, bps, feeRate);
      if r.remaining.Some? {
        ScheduleLength(r.remaining.value, calls[1..], bps, feeRate);
      }
    }
  }

  lemma {:induction false} ProfitOfSameEntry(p: Position, q: Position, calls: seq<CloseCall>, results: seq<CloseResult>,
                                             feeRate: real)
    requires p.side == q.side && p.entryPrice == q.entryPrice && |results| <= |calls|
    ensures ProfitBeforeEntryFee(p, calls, results, feeRate) == ProfitBeforeEntryFee(q, calls, results, feeRate)
    decreases |results|
  {
    hide PriceProfit, ExitFee;
    if results != [] {
      ProfitOfSameEntry(p, q, calls[1..], results[1..], feeRate);
    }
  }

  /**
   A schedule that ends flat realises the price profit of every close, less every exit fee, less
   the whole entry fee, however the quantity was split.
   */
  lemma {:induction false} FlatScheduleTotal(p: Position, calls: seq<CloseCall>, bps: int, feeRate: real)
    requires p.quantity > 0.0
    requires EndsFlat(p, CloseSchedule(p, calls, bps, feeRate))
    ensures var results := CloseSchedule(p, calls, bps, feeRate);
            |results| <= |calls|
            && TotalRealized(results) == ProfitBeforeEntryFee(p, calls, results, feeRate) - p.entryFee
    decreases |calls|
  {
    ScheduleLength(p, calls, bps, feeRate);
    hide Times, Ratio, ApplySlippage;
    var results := CloseSchedule(p, calls, bps, feeRate);
    var r := ExecuteClose(p, calls[0].snapshot, calls[0].qty, bps, feeRate);
    if r.remaining.None? {
      assert r.closedQty == p.quantity;
      RatioOne(r.closedQty, p.quantity);
      TimesOne(p.entryFee);
      assert results == [r];
    } else {
      var rest := r.remaining.value;
      var tail := CloseSchedule(rest, calls[1..], bps, feeRate);
      assert results == [r] + tail;
      assert results[1..] == tail;
      assert EndsFlat(rest, tail);
      FlatScheduleTotal(rest, calls[1..], bps, feeRate);
      ProfitOfSameEntry(p, rest, calls[1..], tail, feeRate);
    }
  }

  /** What stays after a partial close keeps margin and entry fee per contract. */
  lemma CloseKeepsProportions(p: Position, s: Snapshot, closeQty: Option<real>, bps: int, feeRate: real)
    requires p.quantity > 0.0
    ensures var r := ExecuteClose(p, s, closeQty, bps, feeRate);
            r.remaining.Some? ==>
              var q := r.remaining.value;
              && 0.0 < q.quantity <= p.quantity
              && Times(q.margin, p.quantity) == Times(p.margin, q.quantity)
              && Times(q.entryFee, p.quantity) == Times(p.entryFee, q.quantity)
              && q.(quantity := p.quantity, margin := p.margin, entryFee := p.entryFee) == p
  {
    hide Times, Ratio, ApplySlippage;
    var r := ExecuteClose(p, s, closeQty, bps, feeRate);
    if r.closed && r.remaining.Some? {
      var c, t := r.closedQty, p.quantity;
      RatioOfDifference(c, t);
      Quotient(t - c, t);
      Associate(p.margin, Ratio(t - c, t), t);
      DistributeMinus(p.entryFee, 1.0, Ratio(c, t));
      TimesOne(p.entryFee);
      Associate(p.entryFee, Ratio(t - c, t), t);
    } else if r.remaining.Some? {
      Commute(p.margin, p.quantity);
      Commute(p.entryFee, p.quantity);
    }
  }

  lemma ProportionsCompose(a: real, b: real, c: real, x: real, y: real, z: real)
    requires a > 0.0 && b > 0.0
    requires Times(y, a) == Times(x, b) && Times(z, b) == Times(y, c)
    ensures Times(z, a) == Times(x, c)
  {
    hide Times;
    // (z*a)*b == (z*b)*a == (y*c)*a == (y*a)*c == (x*b)*c == (x*c)*b
    ExchangeRight(z, a, b);
    ExchangeRight(y, c, a);
    ExchangeRight(x, b, c);
    Cancel(Times(z, a), Times(x, c), b);
  }

  lemma ExchangeRight(a: real, b: real, c: real)
    ensures Times(Times(a, b), c) == Times(Times(a, c), b)
  {
    hide Times;
    Associate(a, b, c);
    Associate(a, c, b);
    Commute(b, c);
  }

  /** Through any schedule margin and entry fee stay proportional to the quantity left. */
  lemma {:induction false} ScheduleKeepsProportions(p: Position, calls: seq<CloseCall>, bps: int, feeRate: real, i: nat)
    requires p.quantity > 0.0 && i < |CloseSchedule(p, calls, bps, feeRate)|
    ensures var r := CloseSchedule(p, calls, bps, feeRate)[i];
            r.remaining.Some? ==>
              && r.remaining.value.quantity > 0.0
              && Times(r.remaining.value.margin, p.quantity) == Times(p.margin, r.remaining.value.quantity)
              && Times(r.remaining.value.entryFee, p.quantity) == Times(p.entryFee, r.remaining.value.quantity)
    decreases |calls|
  {
    hide Times, ExecuteClose;
    var first := ExecuteClose(p, calls[0].snapshot, calls[0].qty, bps, feeRate);
    CloseKeepsProportions(p, calls[0].snapshot, calls[0].qty, bps, feeRate);
    if i > 0 {
      var q := first.remaining.value;
      ScheduleKeepsProportions(q, calls[1..], bps, feeRate, i - 1);
      var r := CloseSchedule(q, calls[1..], bps, feeRate)[i - 1];
      if r.remaining.Some? {
        var t := r.remaining.value;
        ProportionsCompose(p.quantity, q.quantity, t.quantity, p.margin, q.margin, t.margin);
        ProportionsCompose(p.quantity, q.quantity, t.quantity, p.entryFee, q.entryFee, t.entryFee);
      }
    }
  }

  /** Closing `a` and then `b` at one snapshot is the same as closing `a + b` there. */
  lemma SplitCloseChangesNothing(p: Position, s: Snapshot, a: real, b: real, bps: int, feeRate: real)
    requires a > 0.0 && b > 0.0 && a + b <= p.quantity
    ensures var whole := ExecuteClose(p, s, Some(a + b), bps, feeRate);
            var first := ExecuteClose(p, s, Some(a), bps, feeRate);
            first.remaining.Some?
            && var second := ExecuteClose(first.remaining.value, s, Some(b), bps, feeRate);
            && first.grossPnl + second.grossPnl == whole.grossPnl
            && first.closeFee + second.closeFee == whole.closeFee
            && first.allocatedFee + second.allocatedFee == whole.allocatedFee
            && first.realizedNet + second.realizedNet == whole.realizedNet
            && second.remaining == whole.remaining
  {
    hide Times, Ratio, ApplySlippage;
    var q, rest := p.quantity, p.quantity - a;
    var size, price := s.contractSize, ApplySlippage(ExecutionPrice(s, p.side, CloseAction), p.side, CloseAction, bps);
    SplitProducts(a, b, size, Sign(p.side), price - p.entryPrice, price, feeRate);
    SplitFee(p.entryFee, q, a, b);
    SplitMargin(p.margin, q, a, b);
    if b == rest {
      assert a + b == q;
    }
  }

  lemma SplitProducts(a: real, b: real, size: real, sign: real, gain: real, price: real, feeRate: real)
    ensures Times(Times(sign, Times(a, size)), gain) + Times(Times(sign, Times(b, size)), gain)
         == Times(Times(sign, Times(a + b, size)), gain)
    ensures Times(Times(Times(a, size), price), feeRate) + Times(Times(Times(b, size), price), feeRate)
         == Times(Times(Times(a + b, size), price), feeRate)
  {
    hide Times;
    var x, y := Times(a, size), Times(b, size);
    Distribute(size, a, b);
    Distribute(sign, x, y);
    Distribute(gain, Times(sign, x), Times(sign, y));
    Distribute(price, x, y);
    Distribute(feeRate, Times(x, price), Times(y, price));
  }

  lemma SplitFee(fee: real, q: real, a: real, b: real)
    requires q > 0.0 && q - a > 0.0
    ensures var left := fee - Times(fee, Ratio(a, q));
            Times(fee, Ratio(a, q)) + Times(left, Ratio(b, q - a)) == Times(fee, Ratio(a + b, q))
  {
    hide Times, Ratio;
    RatioOfDifference(a, q);
    DistributeMinus(fee, 1.0, Ratio(a, q));
    TimesOne(fee);
    RatioChain(fee, q, q - a, b);
    RatioOfSum(a, b, q);
    Distribute(fee, Ratio(a, q), Ratio(b, q));
  }

  lemma SplitMargin(margin: real, q: real, a: real, b: real)
    requires q > 0.0 && q - a > 0.0
    ensures Times(Times(margin, Ratio(q - a, q)), Ratio((q - a) - b, q - a)) == Times(margin, Ratio(q - (a + b), q))
  {
    hide Times, Ratio;
    RatioChain(margin, q, q - a, (q - a) - b);
    assert (q - a) - b == q - (a + b);
  }
}
