/**
 Ledger arithmetic of `paper_trading/ledger.py`: rounded results, and partial-exit allocation with
 residual repair.
 */
module Ledger {
  import opened Arithmetic
  import opened Market
  import opened Monetary
  import opened Wrappers

  function GrossPnl(side: Side, qty: real, entryPrice: real, exitPrice: real): real {
    if qty <= 0.0 then 0.0
    else Money(Times(Times(Sign(side), qty), exitPrice - entryPrice))
  }

  // ---------------------------------------------------------------------------
  // Partial exits
  // ---------------------------------------------------------------------------

  datatype Allocation = Allocation(
    closedQty: real, remainingQty: real,
    closedFee: real, remainingFee: real,
    closedCost: real, remainingCost: real,
    closedGross: real, closedNet: real)

  function AllocatePartialExit(side: Side, totalQty: real, closeQty: real, avgEntry: real, exitPrice: real,
                               totalFee: real, exitFee: real, funding: real): Result<Allocation>
  {
    if closeQty <= 0.0 then Err("close_qty must be positive")
    else if totalQty <= 0.0 then Err("total_qty must be positive")
    else if closeQty > totalQty then Err("close_qty exceeds total_qty")
    else
      var frac := Ratio(closeQty, totalQty);
      var remainingFrac := 1.0 - frac;
      var closedFee := Money(Times(totalFee, frac));
      var remainingFee0 := Money(Times(totalFee, remainingFrac));
      var feeResidual := totalFee - closedFee - remainingFee0;
      var remainingFee := Money(remainingFee0 + feeResidual);
      var closedCost := Money(Times(avgEntry, closeQty));
      var remainingCost0 := Money(Times(avgEntry, totalQty - closeQty));
      var costResidual := Money(Times(avgEntry, totalQty)) - closedCost - remainingCost0;
      var remainingCost := Money(remainingCost0 + costResidual);
      var closedGross := GrossPnl(side, closeQty, avgEntry, exitPrice);
      var closedFunding := Money(Times(funding, frac));
      var closedNet := Money(closedGross - closedFee - exitFee + closedFunding);
      Ok(Allocation(Money(closeQty), Money(totalQty - closeQty), closedFee, remainingFee, closedCost, remainingCost,
                    closedGross, closedNet))
  }

  /** An exit is allocated exactly if it closes something and no more than is held; the quantities are those asked for. */
  lemma AllocatedExactly(side: Side, totalQty: real, closeQty: real, avgEntry: real, exitPrice: real, totalFee: real,
                         exitFee: real, funding: real)
    ensures var r := AllocatePartialExit(side, totalQty, closeQty, avgEntry, exitPrice, totalFee, exitFee, funding);
            && (r.Ok? <==> 0.0 < closeQty <= totalQty)
            && (r.Ok? ==> -HALF_UNIT <= r.value.closedQty - closeQty <= HALF_UNIT
                          && -HALF_UNIT <= r.value.remainingQty - (totalQty - closeQty) <= HALF_UNIT)
  {
    MoneyNear(closeQty);
    MoneyNear(totalQty - closeQty);
    hide Times, Ratio, Money;
  }

  /** The entry fee splits exactly when, and only when, it has at most eight decimals. */
  lemma FeeSplitExactIffOnGrid(side: Side, totalQty: real, closeQty: real, avgEntry: real, exitPrice: real,
                               totalFee: real, exitFee: real, funding: real)
    requires 0.0 < closeQty <= totalQty
    ensures var r := AllocatePartialExit(side, totalQty, closeQty, avgEntry, exitPrice, totalFee, exitFee, funding);
            r.Ok? && (r.value.closedFee + r.value.remainingFee == totalFee <==> OnGrid(totalFee))
  {
    hide Times, Ratio, Money, OnGrid;
    var closed := Money(Times(totalFee, Ratio(closeQty, totalQty)));
    MoneyOnGrid(Times(totalFee, Ratio(closeQty, totalQty)));
    MoneyOnGrid(totalFee - closed);
    GridSum(closed, Money(totalFee - closed));
    if OnGrid(totalFee) {
      GridSum(totalFee, closed);
      MoneyFixedIffOnGrid(totalFee - closed);
    }
  }

  /** The cost basis always splits exactly, each share within a unit of its exact part. */
  lemma CostSplitExact(side: Side, totalQty: real, closeQty: real, avgEntry: real, exitPrice: real,
                       totalFee: real, exitFee: real, funding: real)
    requires 0.0 < closeQty <= totalQty
    ensures var r := AllocatePartialExit(side, totalQty, closeQty, avgEntry, exitPrice, totalFee, exitFee, funding);
            && r.Ok? && r.value.closedCost + r.value.remainingCost == Money(Times(avgEntry, totalQty))
            && -HALF_UNIT <= r.value.closedCost - Times(avgEntry, closeQty) <= HALF_UNIT
            && -2.0 * HALF_UNIT <= r.value.remainingCost - Times(avgEntry, totalQty - closeQty) <= 2.0 * HALF_UNIT
  {
    MoneyNear(Times(avgEntry, totalQty));
    MoneyNear(Times(avgEntry, closeQty));
    hide Times, Ratio, Money, OnGrid;
    DistributeMinus(avgEntry, totalQty, closeQty);
    var total, closed := Money(Times(avgEntry, totalQty)), Money(Times(avgEntry, closeQty));
    MoneyOnGrid(Times(avgEntry, totalQty));
    MoneyOnGrid(Times(avgEntry, closeQty));
    GridSum(total, closed);
    MoneyFixedIffOnGrid(total - closed);
  }

  /** The share of one exit stays between zero and the fee, and the last exit takes it all. */
  lemma FeeShareBounds(totalQty: real, closeQty: real, fee: real)
    requires 0.0 < closeQty <= totalQty && fee >= 0.0 && OnGrid(fee)
    ensures var share := Money(Times(fee, Ratio(closeQty, totalQty)));
            0.0 <= share <= fee && OnGrid(share) && (closeQty == totalQty ==> share == fee)
  {
    hide Times, Ratio, Money, OnGrid;
    var f := Ratio(closeQty, totalQty);
    RatioInUnit(closeQty, totalQty);
    TimesSign(fee, f);
    TimesMono(fee, f, 1.0);
    TimesOne(fee);
    MoneyOfZero();
    MoneyMono(0.0, Times(fee, f));
    MoneyMono(Times(fee, f), fee);
    MoneyFixedIffOnGrid(fee);
    MoneyOnGrid(Times(fee, f));
  }

  /** One exit of a chain: how much, at what price, with which exit fee and funding. */
  datatype Exit = Exit(qty: real, price: real, fee: real, funding: real)

  /** A chain of exits in which each call is given the quantity and fee the previous one left. */
  function ExitChain(side: Side, qty: real, avgEntry: real, fee: real, exits: seq<Exit>): Result<seq<Allocation>>
    decreases |exits|
  {
    if exits == [] then Ok([])
    else
      var e := exits[0];
      match AllocatePartialExit(side, qty, e.qty, avgEntry, e.price, fee, e.fee, e.funding)
      case Err(reason) => Err(reason)
      case Ok(a) =>
        match ExitChain(side, a.remainingQty, avgEntry, a.remainingFee, exits[1..])
        case Err(reason) => Err(reason)
        case Ok(rest) => Ok([a] + rest)
  }

  function FeeShares(allocations: seq<Allocation>): real {
    if allocations == [] then 0.0 else allocations[0].closedFee + FeeShares(allocations[1..])
  }

  /** The fee still on the position after the chain. */
  function FeeLeft(fee: real, allocations: seq<Allocation>): real {
    if allocations == [] then fee else allocations[|allocations| - 1].remainingFee
  }

  function QtyLeft(qty: real, allocations: seq<Allocation>): real {
    if allocations == [] then qty else allocations[|allocations| - 1].remainingQty
  }

  lemma LeftOfRest(qty: real, fee: real, allocations: seq<Allocation>)
    requires allocations != []
    ensures FeeLeft(fee, allocations) == FeeLeft(allocations[0].remainingFee, allocations[1..])
    ensures QtyLeft(qty, allocations) == QtyLeft(allocations[0].remainingQty, allocations[1..])
  {
  }

  /**
   For every chain of rounded partial exits of an eight-decimal fee, the shares and what is
   left add up to the fee, nothing goes negative, and closing the rest leaves nothing.
   */
  lemma {:induction false} ChainFeeExact(side: Side, qty: real, avgEntry: real, fee: real, exits: seq<Exit>)
    requires OnGrid(fee) && fee >= 0.0
    requires ExitChain(side, qty, avgEntry, fee, exits).Ok?
    ensures var steps := ExitChain(side, qty, avgEntry, fee, exits).value;
            && |steps| == |exits|
            && FeeShares(steps) + FeeLeft(fee, steps) == fee
            && OnGrid(FeeLeft(fee, steps)) && FeeLeft(fee, steps) >= 0.0
            && forall i :: 0 <= i < |steps| ==> steps[i].closedFee >= 0.0 && steps[i].remainingFee >= 0.0
    decreases |exits|
  {
    hide Times, Ratio, Money, OnGrid, GrossPnl;
    if exits != [] {
      var e := exits[0];
      var a := AllocatePartialExit(side, qty, e.qty, avgEntry, e.price, fee, e.fee, e.funding).value;
      FeeShareBounds(qty, e.qty, fee);
      FeeSplitExactIffOnGrid(side, qty, e.qty, avgEntry, e.price, fee, e.fee, e.funding);
      GridSum(fee, a.closedFee);
      assert a.remainingFee == fee - a.closedFee;
      ChainFeeExact(side, a.remainingQty, avgEntry, a.remainingFee, exits[1..]);
      LeftOfRest(qty, fee, ExitChain(side, qty, avgEntry, fee, exits).value);
    }
  }

  lemma ClosingAllLeavesNoFee(side: Side, qty: real, avgEntry: real, exitPrice: real, fee: real, exitFee: real,
                              funding: real)
    requires qty > 0.0 && fee >= 0.0 && OnGrid(fee)
    ensures var r := AllocatePartialExit(side, qty, qty, avgEntry, exitPrice, fee, exitFee, funding);
            r.Ok? && r.value.closedFee == fee && r.value.remainingFee == 0.0 && r.value.remainingQty == 0.0
  {
    hide Times, Ratio, Money, OnGrid;
    FeeShareBounds(qty, qty, fee);
    FeeSplitExactIffOnGrid(side, qty, qty, avgEntry, exitPrice, fee, exitFee, funding);
    MoneyOfZero();
  }

  /** One exit keeps the residual within half a unit of the proportional one. */
  lemma ProportionStep(fee: real, ideal: real, d: real, q: real, c: real, r: real)
    requires 0.0 < c <= q && ideal - d <= fee <= ideal + d && d >= 0.0
    requires fee - Times(fee, Ratio(c, q)) - HALF_UNIT <= r <= fee - Times(fee, Ratio(c, q)) + HALF_UNIT
    ensures var next := Times(ideal, Ratio(q - c, q));
            next - (d + HALF_UNIT) <= r <= next + (d + HALF_UNIT)
  {
    Quotient(c, q);
    Quotient(q - c, q);
    RatioOfDifference(c, q);
    hide Times, Ratio;
    var f, g := Ratio(c, q), Ratio(q - c, q);
    RatioInUnit(c, q);
    RatioInUnit(q - c, q);
    DistributeMinus(fee, 1.0, f);
    TimesOne(fee);
    assert fee - Times(fee, f) == Times(fee, g);
    DistributeMinus(g, fee, ideal);
    TimesMono(g, fee - ideal, d);
    TimesMono(g, -d, fee - ideal);
    Commute(g, fee - ideal);
    Negate(g, d);
    TimesMono(d, g, 1.0);
    Commute(g, d);
    TimesOne(d);
  }

  ghost predicate ExitsOnGrid(exits: seq<Exit>) {
    forall i :: 0 <= i < |exits| ==> OnGrid(exits[i].qty)
  }

  /** A chain that starts within `d` of `ideal` ends within `d` plus half a unit per exit of its share. */
  lemma {:induction false} ChainWithin(side: Side, qty: real, avgEntry: real, fee: real, exits: seq<Exit>,
                                       ideal: real, d: real)
    requires qty > 0.0 && OnGrid(qty) && ExitsOnGrid(exits) && OnGrid(fee) && fee >= 0.0
    requires d >= 0.0 && ideal - d <= fee <= ideal + d
    requires ExitChain(side, qty, avgEntry, fee, exits).Ok?
    ensures var steps := ExitChain(side, qty, avgEntry, fee, exits).value;
            var slack := d + |exits| as real * HALF_UNIT;
            var share := Times(ideal, Ratio(QtyLeft(qty, steps), qty));
            share - slack <= FeeLeft(fee, steps) <= share + slack
    decreases |exits|
  {
    hide Times, Ratio, Money, OnGrid, GrossPnl;
    if exits == [] {
      RatioInUnit(qty, qty);
      TimesOne(ideal);
    } else {
      var e := exits[0];
      var a := AllocatePartialExit(side, qty, e.qty, avgEntry, e.price, fee, e.fee, e.funding).value;
      FeeShareBounds(qty, e.qty, fee);
      FeeSplitExactIffOnGrid(side, qty, e.qty, avgEntry, e.price, fee, e.fee, e.funding);
      GridSum(fee, a.closedFee);
      GridSum(qty, e.qty);
      MoneyFixedIffOnGrid(qty - e.qty);
      MoneyNear(Times(fee, Ratio(e.qty, qty)));
      ProportionStep(fee, ideal, d, qty, e.qty, a.remainingFee);
      var rest := a.remainingQty;
      LeftOfRest(qty, fee, ExitChain(side, qty, avgEntry, fee, exits).value);
      if exits[1..] == [] {
        assert |exits| == 1;
      } else {
        assert rest > 0.0;
        var next := Times(ideal, Ratio(rest, qty));
        ChainWithin(side, rest, avgEntry, a.remainingFee, exits[1..], next, d + HALF_UNIT);
        RatioChain(ideal, qty, rest, QtyLeft(qty, ExitChain(side, qty, avgEntry, fee, exits).value));
      }
    }
  }

  /** After k exits the fee left is within k half-units of exact proportionality to the quantity left. */
  lemma ChainProportional(side: Side, qty: real, avgEntry: real, fee: real, exits: seq<Exit>)
    requires qty > 0.0 && OnGrid(qty) && ExitsOnGrid(exits) && OnGrid(fee) && fee >= 0.0
    requires ExitChain(side, qty, avgEntry, fee, exits).Ok?
    ensures var steps := ExitChain(side, qty, avgEntry, fee, exits).value;
            var share := Times(fee, Ratio(QtyLeft(qty, steps), qty));
            share - |exits| as real * HALF_UNIT <= FeeLeft(fee, steps) <= share + |exits| as real * HALF_UNIT
  {
    hide Times, Ratio, Money, OnGrid, GrossPnl;
    ChainWithin(side, qty, avgEntry, fee, exits, fee, 0.0);
  }

  function NetTotal(allocations: seq<Allocation>): real {
    if allocations == [] then 0.0 else allocations[0].closedNet + NetTotal(allocations[1..])
  }

  function ExitFeeTotal(exits: seq<Exit>): real {
    if exits == [] then 0.0 else exits[0].fee + ExitFeeTotal(exits[1..])
  }

  /** Price profit of all exits, not rounded. */
  function ExactGross(side: Side, avgEntry: real, exits: seq<Exit>): real {
    if exits == [] then 0.0
    else
      Times(Times(Sign(side), exits[0].qty), exits[0].price - avgEntry)
      + ExactGross(side, avgEntry, exits[1..])
  }

  /** Funding that falls to the exits: each takes its part of what it is charged with, of the quantity then left. */
  function FundingShares(qty: real, exits: seq<Exit>): real
    decreases |exits|
  {
    if exits == [] then 0.0
    else FundingShare(exits[0], qty) + FundingShares(Money(qty - exits[0].qty), exits[1..])
  }

  function FundingShare(e: Exit, qty: real): real {
    if qty == 0.0 then 0.0 else Times(e.funding, Ratio(e.qty, qty))
  }

  /** Roundings of one exit: of its profit, of its funding if any, and of its net if the exit fee is off the grid. */
  function Roundings(e: Exit): nat {
    1 + (if e.funding == 0.0 then 0 else 1) + if OnGrid(e.fee) then 0 else 1
  }

  function TotalRoundings(exits: seq<Exit>): nat {
    if exits == [] then 0 else Roundings(exits[0]) + TotalRoundings(exits[1..])
  }

  /** The net of one exit is its exact profit less its fee share and exit fee, plus its funding share, but for rounding. */
  lemma NetNearExact(side: Side, qty: real, avgEntry: real, fee: real, e: Exit)
    requires 0.0 < e.qty <= qty
    ensures var r := AllocatePartialExit(side, qty, e.qty, avgEntry, e.price, fee, e.fee, e.funding);
            var exact := Times(Times(Sign(side), e.qty), e.price - avgEntry);
            var slack := Roundings(e) as real * HALF_UNIT;
            r.Ok? && -slack <= r.value.closedNet
                               - (exact - r.value.closedFee - e.fee + Times(e.funding, Ratio(e.qty, qty))) <= slack
  {
    hide Times, Ratio, Money, OnGrid;
    var exact := Times(Times(Sign(side), e.qty), e.price - avgEntry);
    var share, funding := Times(fee, Ratio(e.qty, qty)), Times(e.funding, Ratio(e.qty, qty));
    MoneyNear(exact);
    MoneyNear(funding);
    MoneyOnGrid(exact);
    MoneyOnGrid(share);
    MoneyOnGrid(funding);
    if e.funding == 0.0 {
      TimesZero(e.funding, Ratio(e.qty, qty));
    }
    MoneyOfZero();
    var net := Money(exact) - Money(share) - e.fee + Money(funding);
    MoneyNear(net);
    if OnGrid(e.fee) {
      GridSum(Money(exact), Money(share));
      GridSum(Money(exact) - Money(share), e.fee);
      GridSum(Money(exact) - Money(share) - e.fee, Money(funding));
      MoneyFixedIffOnGrid(net);
    }
  }

  /**
   Over any chain of exits, total net is the exact price profit and funding, less the exit fees and the part
   of the entry fee that is gone, within half a unit per rounding: one an exit, one more for an exit with
   funding, and one more for an exit fee off the grid.
   */
  lemma {:induction false} ChainNetNear(side: Side, qty: real, avgEntry: real, fee: real, exits: seq<Exit>)
    requires OnGrid(fee) && fee >= 0.0 && ExitChain(side, qty, avgEntry, fee, exits).Ok?
    ensures var steps := ExitChain(side, qty, avgEntry, fee, exits).value;
            var expected := ExactGross(side, avgEntry, exits) + FundingShares(qty, exits)
                            - ExitFeeTotal(exits) - (fee - FeeLeft(fee, steps));
            var slack := TotalRoundings(exits) as real * HALF_UNIT;
            expected - slack <= NetTotal(steps) <= expected + slack
    decreases |exits|
  {
    hide Times, Ratio, Money, OnGrid, GrossPnl, AllocatePartialExit, Roundings;
    if exits != [] {
      var e, rest := exits[0], exits[1..];
      ChainUnfold(side, qty, avgEntry, fee, exits);
      var a := AllocatePartialExit(side, qty, e.qty, avgEntry, e.price, fee, e.fee, e.funding).value;
      NetNearExact(side, qty, avgEntry, fee, e);
      FirstExit(side, qty, avgEntry, fee, e);
      ChainNetNear(side, a.remainingQty, avgEntry, a.remainingFee, rest);
      LeftOfRest(qty, fee, ExitChain(side, qty, avgEntry, fee, exits).value);
      assert TotalRoundings(exits) as real * HALF_UNIT ==
             Roundings(e) as real * HALF_UNIT + TotalRoundings(rest) as real * HALF_UNIT;
    }
  }

  lemma ChainUnfold(side: Side, qty: real, avgEntry: real, fee: real, exits: seq<Exit>)
    requires exits != [] && ExitChain(side, qty, avgEntry, fee, exits).Ok?
    ensures var e := exits[0];
            var r := AllocatePartialExit(side, qty, e.qty, avgEntry, e.price, fee, e.fee, e.funding);
            && 0.0 < e.qty <= qty && r.Ok?
            && var rest := ExitChain(side, r.value.remainingQty, avgEntry, r.value.remainingFee, exits[1..]);
               && rest.Ok? && ExitChain(side, qty, avgEntry, fee, exits) == Ok([r.value] + rest.value)
               && ([r.value] + rest.value)[1..] == rest.value
  {
    hide Times, Ratio, Money, OnGrid, GrossPnl;
  }

  /** What one exit leaves of an eight-decimal fee. */
  lemma FirstExit(side: Side, qty: real, avgEntry: real, fee: real, e: Exit)
    requires 0.0 < e.qty <= qty && OnGrid(fee) && fee >= 0.0
    ensures var r := AllocatePartialExit(side, qty, e.qty, avgEntry, e.price, fee, e.fee, e.funding);
            && r.Ok? && r.value.remainingFee == fee - r.value.closedFee && OnGrid(r.value.remainingFee)
            && r.value.remainingQty == Money(qty - e.qty)
            && r.value.remainingFee >= 0.0 && r.value.closedGross == GrossPnl(side, e.qty, avgEntry, e.price)
  {
    hide Times, Ratio, Money, OnGrid, GrossPnl;
    FeeShareBounds(qty, e.qty, fee);
    FeeSplitExactIffOnGrid(side, qty, e.qty, avgEntry, e.price, fee, e.fee, e.funding);
    GridSum(fee, Money(Times(fee, Ratio(e.qty, qty))));
  }
}
