/** Market snapshots and the prices and depth they offer (`paper_trading/market.py`). */
module Market {
  import opened Arithmetic
  import opened Wrappers

  datatype Side = Long | Short

  datatype Action = OpenAction | CloseAction

  datatype RiskTier = RiskTier(maxLeverage: int, maintenanceRate: real)

  datatype Snapshot = Snapshot(
    bid: real, ask: real, last: real, mark: real,
    contractSize: real, quantityStep: real, tier: Option<RiskTier>)

  const BPS: real := 0.0001

  /** Direction in which a side earns. */
  function Sign(side: Side): real { if side.Long? then 1.0 else -1.0 }

  /** A long buys to open and sells to close; a short does the opposite. */
  predicate IsBuy(side: Side, action: Action) {
    side.Long? == action.OpenAction?
  }

  /** Ask for a buy, bid for a sell. */
  function ExecutionPrice(s: Snapshot, side: Side, action: Action): real {
    if side.Long? then
      if action.OpenAction? then s.ask else s.bid
    else
      if action.OpenAction? then s.bid else s.ask
  }

  function ApplySlippage(price: real, side: Side, action: Action, bps: int): real {
    var adverse := bps as real * BPS;
    if (side.Long? && action.OpenAction?) || (side.Short? && action.CloseAction?) then Times(price, 1.0 + adverse)
    else Times(price, 1.0 - adverse)
  }

  /** A buy pays the ask and a sale gets the bid, moved against the trader by `bps` ten-thousandths. */
  lemma TradedPrice(s: Snapshot, side: Side, action: Action, bps: int)
    ensures var price := ApplySlippage(ExecutionPrice(s, side, action), side, action, bps);
            10000.0 * price ==
            if (side.Long? && action.OpenAction?) || (side.Short? && action.CloseAction?) then s.ask * (10000 + bps) as real
            else s.bid * (10000 - bps) as real
  {
    var price := ExecutionPrice(s, side, action);
    assert price * (1.0 + bps as real * BPS) * 10000.0 == price * (10000.0 + bps as real);
    assert price * (1.0 - bps as real * BPS) * 10000.0 == price * (10000.0 - bps as real);
  }

  /** Slippage never improves a price. */
  lemma SlippageIsAdverse(price: real, side: Side, action: Action, bps: int)
    requires price >= 0.0 && bps >= 0
    ensures IsBuy(side, action) ==> ApplySlippage(price, side, action, bps) >= price
    ensures !IsBuy(side, action) ==> ApplySlippage(price, side, action, bps) <= price
  {
    hide Times;
    var adverse := bps as real * BPS;
    TimesMono(price, 1.0, 1.0 + adverse);
    TimesMono(price, 1.0 - adverse, 1.0);
    TimesOne(price);
  }

  /** Rounding toward zero. */
  function Truncate(x: real): int {
    if x >= 0.0 then x.Floor else -((-x).Floor)
  }

  /** `value` rounded toward zero to a multiple of `step`. */
  function QuantizeToStep(value: real, step: real): real {
    if step <= 0.0 then value else Times(Truncate(Ratio(value, step)) as real, step)
  }

  lemma QuantizeLargest(value: real, step: real, n: int)
    requires step > 0.0 && value >= 0.0
    ensures 0.0 <= QuantizeToStep(value, step) <= value < QuantizeToStep(value, step) + step
    ensures Times(n as real, step) <= value ==> Times(n as real, step) <= QuantizeToStep(value, step)
  {
    Quotient(value, step);
    hide Times, Ratio;
    var r := Ratio(value, step);
    if r < 0.0 {
      TimesPositive(-r, step);
      Negate(r, step);
      assert false;
    }
    var k := r.Floor;
    assert QuantizeToStep(value, step) == Times(k as real, step);
    TimesSign(k as real, step);
    DistributeMinus(step, r, k as real);
    TimesSign(r - k as real, step);
    TimesPositive(1.0 - (r - k as real), step);
    DistributeMinus(step, 1.0, r - k as real);
    TimesOne(step);
    if n > k && Times(n as real, step) <= value {
      DistributeMinus(step, n as real, k as real);
      TimesMono(step, 1.0, n as real - k as real);
      Commute(step, n as real - k as real);
      Commute(step, 1.0);
      assert false;
    }
    if n <= k {
      TimesMono(step, n as real, k as real);
      Commute(step, n as real);
      Commute(step, k as real);
    }
  }

  lemma QuantizeNotAbove(value: real, step: real)
    requires value >= 0.0
    ensures 0.0 <= QuantizeToStep(value, step) <= value
  {
    if step > 0.0 {
      QuantizeLargest(value, step, 0);
    }
  }

  /** Quantity executable at the top of the book. */
  function AvailableQuantity(s: Snapshot, fraction: real, used: real): Result<real> {
    if fraction <= 0.0 then Err("fraction: must be positive")
    else if s.quantityStep <= 0.0 then Err("quantity_step: must be positive")
    else
      var ref0 := if s.ask != 0.0 then s.ask else s.last;
      var ref := if ref0 <= 0.0 then s.last else ref0;
      if ref <= 0.0 then Err("no valid reference price for liquidity estimation")
      else
        var contractNotional := Times(s.contractSize, ref);
        var availableNotional := Times(ref, fraction) - Times(used, contractNotional);
        if availableNotional <= 0.0 then Ok(0.0)
        else if contractNotional == 0.0 then Err("division by zero")
        else
          var quantized := QuantizeToStep(Ratio(availableNotional, contractNotional), s.quantityStep);
          Ok(if quantized > 0.0 then quantized else 0.0)
  }

  /**
   What is available and what is used stay within the given fraction of the top of the book, in whole
   steps, and one step more would not; nothing is available when what is used fills it.
   */
  lemma AvailableWithinDepth(s: Snapshot, fraction: real, used: real)
    requires AvailableQuantity(s, fraction, used).Ok? && s.contractSize > 0.0
    ensures var q := AvailableQuantity(s, fraction, used).value;
            var ref := if s.ask > 0.0 then s.ask else s.last;
            && q >= 0.0 && QuantizeToStep(q, s.quantityStep) == q
            && (q > 0.0 ==> Times(q + used, Times(s.contractSize, ref)) <= Times(ref, fraction))
            && (Times(used, Times(s.contractSize, ref)) >= Times(ref, fraction) ==> q == 0.0)
            && Times(q + s.quantityStep + used, Times(s.contractSize, ref)) > Times(ref, fraction)
  {
    hide Times, Ratio, QuantizeToStep;
    var ref := if s.ask > 0.0 then s.ask else s.last;
    var unit := Times(s.contractSize, ref);
    TimesPositive(s.contractSize, ref);
    TimesPositive(s.quantityStep, unit);
    Distribute(unit, s.quantityStep, used);
    var room := Times(ref, fraction) - Times(used, unit);
    QuantizeAgain(0.0, s.quantityStep);
    if room > 0.0 {
      var raw := Ratio(room, unit);
      Quotient(room, unit);
      RatioNotNegative(room, unit);
      QuantizeNotAbove(raw, s.quantityStep);
      QuantizeAgain(raw, s.quantityStep);
      var q := QuantizeToStep(raw, s.quantityStep);
      TimesMono(unit, q, raw);
      Commute(unit, q);
      Commute(unit, raw);
      Distribute(unit, q, used);
      QuantizeLargest(raw, s.quantityStep, 0);
      DistributeMinus(unit, q + s.quantityStep, raw);
      TimesPositive(q + s.quantityStep - raw, unit);
      Distribute(unit, q + s.quantityStep, used);
    }
    QuantizeOfZero(s.quantityStep);
  }

  /** The book can be read exactly when fraction, step and reference price are positive and contracts have a size. */
  lemma AvailableExactly(s: Snapshot, fraction: real)
    ensures AvailableQuantity(s, fraction, 0.0).Ok? <==>
            fraction > 0.0 && s.quantityStep > 0.0 && (s.ask > 0.0 || s.last > 0.0) && s.contractSize != 0.0
  {
    var ref := if s.ask > 0.0 then s.ask else s.last;
    TimesZero(0.0, Times(s.contractSize, ref));
    if ref > 0.0 {
      if fraction > 0.0 {
        TimesPositive(ref, fraction);
      }
      SizedNotional(s.contractSize, ref);
    }
    hide Ratio, QuantizeToStep;
  }

  lemma SizedNotional(size: real, ref: real)
    requires ref > 0.0
    ensures Times(size, ref) == 0.0 <==> size == 0.0
  {
    if size > 0.0 {
      TimesPositive(size, ref);
    } else if size < 0.0 {
      TimesPositive(-size, ref);
      Negate(size, ref);
    }
  }

  lemma RatioNotNegative(a: real, b: real)
    requires a >= 0.0 && b > 0.0
    ensures Ratio(a, b) >= 0.0
  {
  }

  lemma QuantizeOfZero(step: real)
    ensures QuantizeToStep(0.0, step) == 0.0
  {
  }

  lemma QuantizeBelowStep(value: real, step: real)
    requires 0.0 <= value < step
    ensures QuantizeToStep(value, step) == 0.0
  {
    Quotient(value, step);
    RatioNotNegative(value, step);
    TimesZero(0.0, step);
    hide Times, Ratio;
    var r := Ratio(value, step);
    if r >= 1.0 {
      TimesMono(step, 1.0, r);
      TimesOne(step);
      Commute(step, r);
      assert false;
    }
    assert Truncate(r) == 0;
  }

  /** Flooring twice is flooring once. */
  lemma QuantizeAgain(value: real, step: real)
    ensures QuantizeToStep(QuantizeToStep(value, step), step) == QuantizeToStep(value, step)
  {
    hide Times, Ratio, Truncate;
    if step > 0.0 {
      var k := Truncate(Ratio(value, step));
      RatioOfMultiple(k as real, step);
      TruncateWhole(k);
    }
  }

  lemma RatioOfMultiple(a: real, b: real)
    requires b > 0.0
    ensures Ratio(Times(a, b), b) == a
  {
    hide Times, Ratio;
    Quotient(Times(a, b), b);
    Cancel(Ratio(Times(a, b), b), a, b);
  }

  lemma TruncateWhole(k: int)
    ensures Truncate(k as real) == k
  {
  }

  /** The bid-ask spread is within `maxBps` of the mid price. */
  predicate SpreadOk(s: Snapshot, maxBps: int) {
    && s.bid > 0.0
    && var mid := (s.bid + s.ask) / 2.0;
       mid > 0.0 && Ratio(Ratio(s.ask - s.bid, mid), BPS) <= maxBps as real
  }

  /** The spread in numbers: ten thousand times the gap is at most `maxBps` times the mean of bid and ask. */
  lemma SpreadExactly(s: Snapshot, maxBps: int)
    ensures SpreadOk(s, maxBps) <==>
            s.bid > 0.0 && s.bid + s.ask > 0.0 && 20000.0 * (s.ask - s.bid) <= Times(maxBps as real, s.bid + s.ask)
  {
    hide Times, Ratio;
    var gap, mid, most := s.ask - s.bid, (s.bid + s.ask) / 2.0, maxBps as real;
    if s.bid > 0.0 && mid > 0.0 {
      var share := Ratio(gap, mid);
      AtMostTimes(share, BPS, most);
      AtMostTimes(gap, mid, Times(most, BPS));
      TenThousandths(most);
      Doubled(most, mid);
      ScaledTimes(most, mid);
    }
  }

  lemma TenThousandths(a: real)
    ensures Times(a, BPS) == a / 10000.0
  {
  }

  lemma Doubled(a: real, b: real)
    ensures Times(a, 2.0 * b) == 2.0 * Times(a, b)
  {
  }

  lemma ScaledTimes(a: real, b: real)
    ensures 10000.0 * Times(a / 10000.0, b) == Times(a, b)
  {
  }

  /** Price at which a position is opened. */
  function EntryPrice(s: Snapshot, side: Side): real {
    if side.Long? then s.ask else s.bid
  }
}
