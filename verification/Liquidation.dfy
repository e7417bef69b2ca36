/** Forced liquidation of one position (`paper_trading/liquidation.py`, `paper_trading/liquidation_store.py`). */
module Liquidation {
  import opened Execution
  import opened Market
  import opened Wrappers
  import Settlement
  import SettlementProtocol

  datatype Phase = Live | Pending | Gone

  /** How one position stands with its liquidation; `close` is the one close of a position that is gone. */
  datatype Standing = Standing(phase: Phase, reason: string, liqPrice: Option<real>, mark: Option<real>,
                               close: Option<CloseResult>)

  /** What one evaluation looks at: the market, whether it is fresh, and the liquidation price computed from it. */
  datatype Tick = Tick(snapshot: Snapshot, isFresh: bool, liqPrice: real)

  predicate Triggered(p: Settlement.Position, tick: Tick) {
    if p.side.Long? then tick.snapshot.mark <= tick.liqPrice else tick.snapshot.mark >= tick.liqPrice
  }

  function Evaluate(p: Settlement.Position, tick: Tick, current: Option<Standing>, bps: int, feeRate: real): Standing {
    if current.Some? && current.value.phase.Gone? then current.value.(reason := "already_liquidated")
    else if p.status.Liquidated? then Standing(Gone, "already_liquidated", None, None, None)
    else if !p.status.Open? || p.qty <= 0.0 then Standing(Live, "position_not_open", None, None, None)
    else if !Triggered(p, tick) then Standing(Live, "not_triggered", Some(tick.liqPrice), Some(tick.snapshot.mark), None)
    else if !tick.isFresh then Standing(Pending, "stale_market", Some(tick.liqPrice), Some(tick.snapshot.mark), None)
    else
      var close := SettlementProtocol.CloseInFull(p, tick.snapshot, bps, feeRate);
      if !close.closed then Standing(Pending, "close_not_executed", Some(tick.liqPrice), Some(tick.snapshot.mark), None)
      else Standing(Gone, "liquidated", Some(tick.liqPrice), Some(tick.snapshot.mark), Some(close))
  }

  /** The stamped position; refused for anything but a standing that carries its close. */
  function MarkClosed(p: Settlement.Position, standing: Standing): Result<Settlement.Position> {
    if !standing.phase.Gone? || standing.close.None? then Err("mark_closed requires a liquidated result with a close fill")
    else Ok(p.(status := Settlement.Liquidated))
  }

  /** Worth committing: a close that the position does not have yet. */
  predicate ShouldPersist(p: Settlement.Position, standing: Standing) {
    standing.phase.Gone? && standing.close.Some? && !p.status.Liquidated?
  }

  /** The standings of a position watched tick after tick, each evaluation given the standing before it. */
  function Watch(p: Settlement.Position, ticks: seq<Tick>, bps: int, feeRate: real): (r: seq<Standing>)
    ensures |r| == |ticks|
  {
    if ticks == [] then []
    else
      var n := |ticks| - 1;
      var before := Watch(p, ticks[..n], bps, feeRate);
      before + [Evaluate(p, ticks[n], if n == 0 then None else Some(before[n - 1]), bps, feeRate)]
  }

  /** The first tick that is triggered on a fresh market; the number of ticks when there is none. */
  function FirstExecutable(p: Settlement.Position, ticks: seq<Tick>, from: nat): (k: nat)
    requires from <= |ticks|
    ensures from <= k <= |ticks|
    ensures forall j :: from <= j < k ==> !(Triggered(p, ticks[j]) && ticks[j].isFresh)
    ensures k < |ticks| ==> Triggered(p, ticks[k]) && ticks[k].isFresh
    decreases |ticks| - from
  {
    if from == |ticks| || (Triggered(p, ticks[from]) && ticks[from].isFresh) then from else FirstExecutable(p, ticks, from + 1)
  }

  lemma WatchStep(p: Settlement.Position, ticks: seq<Tick>, bps: int, feeRate: real, j: nat)
    requires j < |ticks|
    ensures Watch(p, ticks, bps, feeRate)[j] ==
            Evaluate(p, ticks[j], if j == 0 then None else Some(Watch(p, ticks, bps, feeRate)[j - 1]), bps, feeRate)
    decreases |ticks|
  {
    hide Evaluate;
    var n := |ticks| - 1;
    if j < n {
      WatchStep(p, ticks[..n], bps, feeRate, j);
    }
  }

  lemma FullCloseSucceeds(p: Settlement.Position, s: Snapshot, bps: int, feeRate: real)
    requires p.qty > 0.0
    ensures SettlementProtocol.CloseInFull(p, s, bps, feeRate).closed
  {
    FullClose(SettlementProtocol.ToExecutionPosition(p), s, bps, feeRate);
  }

  /**
   An open position is closed exactly once, at the first tick that is triggered on a fresh market, at
   that tick's prices: nothing before it carries a close, and everything after it repeats the same one.
   */
  lemma {:induction false} ClosedAtFirstExecutable(p: Settlement.Position, ticks: seq<Tick>, bps: int, feeRate: real,
                                                   j: nat)
    requires p.status.Open? && p.qty > 0.0 && j < |ticks|
    ensures var k, r := FirstExecutable(p, ticks, 0), Watch(p, ticks, bps, feeRate)[j];
            && (j < k ==> !r.phase.Gone? && r.close.None? && (r.phase.Pending? <==> Triggered(p, ticks[j])))
            && (j >= k ==> r.phase.Gone? && r.close == Some(SettlementProtocol.CloseInFull(p, ticks[k].snapshot, bps, feeRate))
                           && (r.reason == "liquidated" <==> j == k))
    decreases j
  {
    hide Watch, FirstExecutable, SettlementProtocol.CloseInFull, Triggered;
    WatchStep(p, ticks, bps, feeRate, j);
    FullCloseSucceeds(p, ticks[j].snapshot, bps, feeRate);
    if j > 0 {
      ClosedAtFirstExecutable(p, ticks, bps, feeRate, j - 1);
    }
  }

  /** The mark has reached the liquidation price: fallen to it for a long, risen to it for a short. */
  predicate Reached(side: Side, mark: real, price: real) {
    (side.Long? ==> mark <= price) && (side.Short? ==> mark >= price)
  }

  /**
   In prices: at any tick an open position is gone exactly if at that tick or before it the mark of a fresh
   market had reached the liquidation price; it was closed in full at the first such tick, at that tick's
   market; and until then it is pending exactly while the mark stands beyond the price.
   */
  lemma GoneExactly(p: Settlement.Position, ticks: seq<Tick>, bps: int, feeRate: real, j: nat)
    requires p.status.Open? && p.qty > 0.0 && j < |ticks|
    ensures var r := Watch(p, ticks, bps, feeRate)[j];
            && (r.phase.Gone? <==>
                exists k :: 0 <= k <= j && ticks[k].isFresh && Reached(p.side, ticks[k].snapshot.mark, ticks[k].liqPrice))
            && (!r.phase.Gone? ==> (r.phase.Pending? <==> Reached(p.side, ticks[j].snapshot.mark, ticks[j].liqPrice)))
            && (ShouldPersist(p, r) <==> r.phase.Gone?)
            && (r.phase.Gone? ==>
                  r.close.Some?
                  && exists k :: 0 <= k <= j && ticks[k].isFresh && Reached(p.side, ticks[k].snapshot.mark, ticks[k].liqPrice)
                       && (forall m :: 0 <= m < k ==>
                             !(ticks[m].isFresh && Reached(p.side, ticks[m].snapshot.mark, ticks[m].liqPrice)))
                       && ClosesAt(p, ticks[k].snapshot, bps, r.close.value))
  {
    hide Watch, FirstExecutable, SettlementProtocol.CloseInFull;
    ClosedAtFirstExecutable(p, ticks, bps, feeRate, j);
    var k := FirstExecutable(p, ticks, 0);
    forall m | 0 <= m < |ticks|
      ensures Triggered(p, ticks[m]) <==> Reached(p.side, ticks[m].snapshot.mark, ticks[m].liqPrice) {}
    if k <= j {
      ClosesAtTick(p, ticks[k].snapshot, bps, feeRate);
      assert ticks[k].isFresh && Reached(p.side, ticks[k].snapshot.mark, ticks[k].liqPrice);
    }
  }

  /** The close takes everything at the bid for a long, at the ask for a short, slipped against the position. */
  predicate ClosesAt(p: Settlement.Position, s: Snapshot, bps: int, r: CloseResult) {
    && r.closed && r.closedQty == p.qty
    && 10000.0 * r.closePrice == if p.side.Long? then s.bid * (10000 - bps) as real else s.ask * (10000 + bps) as real
  }

  lemma ClosesAtTick(p: Settlement.Position, s: Snapshot, bps: int, feeRate: real)
    requires p.qty > 0.0
    ensures ClosesAt(p, s, bps, SettlementProtocol.CloseInFull(p, s, bps, feeRate))
  {
    hide ExecuteClose;
    CloseAtMarket(SettlementProtocol.ToExecutionPosition(p), s, Some(p.qty), bps, feeRate);
  }

  /** Once the status is stored, no tick of any later watch is worth committing again, a restarted one included. */
  lemma {:induction false} StoredIsFinal(p: Settlement.Position, standing: Standing, ticks: seq<Tick>, bps: int,
                                         feeRate: real, j: nat)
    requires MarkClosed(p, standing).Ok? && j < |ticks|
    ensures var stored := MarkClosed(p, standing).value;
            var again := Watch(stored, ticks, bps, feeRate)[j];
            again.phase.Gone? && again.close.None? && !ShouldPersist(stored, again)
    decreases j
  {
    hide Watch;
    var stored := MarkClosed(p, standing).value;
    WatchStep(stored, ticks, bps, feeRate, j);
    if j > 0 {
      StoredIsFinal(p, standing, ticks, bps, feeRate, j - 1);
    }
  }
}
