/**
 Every run of settlement: any number of runners that open, close, crash and recover, forced
 liquidations beside them, and order cancellations at any moment.
 */
module SettlementProtocol {
  import opened Arithmetic
  import opened Journal
  import opened Market
  import opened Monetary
  import opened Settlement
  import opened Wrappers
  import Execution

  type RunnerId = int
  type Book = map<PositionId, Position>

  // ---------------------------------------------------------------------------
  // What a database keeps
  // ---------------------------------------------------------------------------

  ghost predicate RowsDistinct(rows: seq<Position>) {
    forall i, j :: 0 <= i < j < |rows| ==> rows[i].id != rows[j].id
  }

  ghost predicate HasFill(db: Db, order: OrderId, isClose: bool) {
    exists f :: f in db.fills && db.fills[f].order == order && db.fills[f].isClose == isClose
  }

  /** A posting of the exit of a position: through its closing fill, or through its liquidation. */
  predicate ClosingPosting(db: Db, p: Posting, id: PositionId) {
    && p.bucket in {ExitFee, RealizedGross, ReleasedMargin}
    && ((p.ref.FillRef? && p.ref.fill in db.fills && db.fills[p.ref.fill].order == id && db.fills[p.ref.fill].isClose)
        || p.ref == LiquidationRef(id))
  }

  ghost predicate HasClosingPosting(db: Db, id: PositionId) {
    exists k :: 0 <= k < |db.postings| && ClosingPosting(db, db.postings[k], id)
  }

  /** The stored net is within one unit of the exact one. */
  predicate NetNear(p: Position) {
    -1.0 / GRID <= p.net - (p.gross - p.exitFee - p.entryFee) <= 1.0 / GRID
  }

  predicate MoneyRow(p: Position) {
    && p.margin >= 0.0 && OnGrid(p.margin) && OnGrid(p.entryFee) && OnGrid(p.gross) && OnGrid(p.exitFee)
    && (p.status.Open? || NetNear(p))
  }

  /** A row belongs to an order that can no longer be filled, has its opening fill, and is terminal iff it was closed. */
  ghost predicate RowOk(db: Db, p: Position) {
    && p.id in db.orders && !Fillable(db.orders[p.id].state)
    && HasFill(db, p.id, false)
    && (HasFill(db, p.id, true) <==> !p.status.Open?)
    && (HasClosingPosting(db, p.id) <==> !p.status.Open?)
    && MoneyRow(p)
  }

  ghost predicate RowsOk(db: Db) {
    forall i :: 0 <= i < |db.positions| ==> RowOk(db, db.positions[i])
  }

  /** Each order is opened by at most one fill and closed by at most one. */
  ghost predicate FillsUnique(db: Db) {
    forall f, g :: f in db.fills && g in db.fills && SameUse(db.fills[f], db.fills[g]) ==> f == g
  }

  predicate SameUse(f: Fill, g: Fill) { f.order == g.order && f.isClose == g.isClose }

  /** Nothing is filled or liquidated without a row. */
  ghost predicate NoStrays(db: Db) {
    && (forall f :: f in db.fills ==> RowOf(db.positions, db.fills[f].order).Some?)
    && forall k :: 0 <= k < |db.postings| && db.postings[k].ref.LiquidationRef? ==>
         RowOf(db.positions, db.postings[k].ref.position).Some?
  }

  /** What a position has moved on its account so far. */
  function Worth(p: Position, account: AccountId): real {
    if p.account != account then 0.0
    else if p.status.Open? then -(p.margin + p.entryFee)
    else p.gross - p.exitFee - p.entryFee
  }

  function RowsWorth(rows: seq<Position>, account: AccountId): real {
    if rows == [] then 0.0 else RowsWorth(rows[..|rows| - 1], account) + Worth(rows[|rows| - 1], account)
  }

  function Deposit(db: Db, account: AccountId): real { if account in db.accounts then db.accounts[account] else 0.0 }

  /** Available balance is the deposit, plus every closed result, less everything tied up in open positions. */
  ghost predicate Balanced(db: Db) {
    forall account :: BalanceOf(db.postings, account) == Deposit(db, account) + RowsWorth(db.positions, account)
  }

  ghost predicate DbOk(db: Db) {
    && RowsDistinct(db.positions) && RowsOk(db) && FillsUnique(db) && NoStrays(db) && Balanced(db) && AmountsOnGrid(db.postings)
  }

  // ---------------------------------------------------------------------------
  // Rows
  // ---------------------------------------------------------------------------

  lemma WorthAppend(rows: seq<Position>, p: Position, account: AccountId)
    ensures RowsWorth(rows + [p], account) == RowsWorth(rows, account) + Worth(p, account)
  {
    hide Worth;
    assert (rows + [p])[..|rows|] == rows;
  }

  lemma {:induction false} WorthUpdate(rows: seq<Position>, i: nat, p: Position, account: AccountId)
    requires i < |rows|
    ensures RowsWorth(rows[i := p], account) == RowsWorth(rows, account) - Worth(rows[i], account) + Worth(p, account)
    decreases |rows|
  {
    hide Worth;
    var n := |rows| - 1;
    if i == n {
      assert rows[i := p][..n] == rows[..n];
    } else {
      assert rows[i := p][..n] == rows[..n][i := p];
      WorthUpdate(rows[..n], i, p, account);
    }
  }

  lemma RowOfAppend(rows: seq<Position>, p: Position, id: PositionId)
    ensures RowOf(rows + [p], id) == if p.id == id then Some(|rows|) else RowOf(rows, id)
  {
    assert (rows + [p])[..|rows|] == rows;
  }

  lemma RowOfDistinct(rows: seq<Position>, i: nat)
    requires RowsDistinct(rows) && i < |rows|
    ensures RowOf(rows, rows[i].id) == Some(i)
  {
  }

  /** Three roundings of a result on the money grid stay within one unit. */
  lemma RoundedNetNear(gross: real, fee: real, entryFee: real)
    requires OnGrid(entryFee)
    ensures -1.0 / GRID <= Money(gross - fee - entryFee) - (Money(gross) - Money(fee) - entryFee) <= 1.0 / GRID
  {
    MoneyNear(gross);
    MoneyNear(fee);
    MoneyNear(gross - fee - entryFee);
    MoneyOnGrid(gross);
    MoneyOnGrid(fee);
    MoneyOnGrid(gross - fee - entryFee);
    hide Money, OnGrid;
    var a, b := Money(gross - fee - entryFee), Money(gross) - Money(fee) - entryFee;
    GridSum(Money(gross), Money(fee));
    GridSum(Money(gross) - Money(fee), entryFee);
    GridGap(a, b);
    GridGap(b, a);
  }

  // ---------------------------------------------------------------------------
  // Fills and postings only grow
  // ---------------------------------------------------------------------------

  /** `db2` has one fill more, and the postings of its entry. */
  ghost predicate Grows(db: Db, db2: Db, f: Fill, added: seq<Posting>) {
    && f.id !in db.fills && db2.fills == db.fills[f.id := f]
    && db2.postings == db.postings + added
  }

  lemma FillGrows(db: Db, db2: Db, f: Fill, added: seq<Posting>, order: OrderId, isClose: bool)
    requires Grows(db, db2, f, added)
    ensures HasFill(db2, order, isClose) <==> HasFill(db, order, isClose) || (f.order == order && f.isClose == isClose)
  {
    if HasFill(db, order, isClose) {
      var g :| g in db.fills && db.fills[g].order == order && db.fills[g].isClose == isClose;
      assert db2.fills[g] == db.fills[g];
    }
    assert db2.fills[f.id] == f;
  }

  /** Postings that are not an exit of `id` change nothing for it. */
  lemma ClosingUnchanged(db: Db, db2: Db, f: Fill, added: seq<Posting>, id: PositionId)
    requires Grows(db, db2, f, added)
    requires !(f.order == id && f.isClose)
    requires forall k :: 0 <= k < |added| ==>
               added[k].ref == FillRef(f.id) || (added[k].ref.LiquidationRef? && added[k].ref.position != id)
    ensures HasClosingPosting(db2, id) <==> HasClosingPosting(db, id)
  {
    if HasClosingPosting(db, id) {
      var k :| 0 <= k < |db.postings| && ClosingPosting(db, db.postings[k], id);
      assert db2.postings[k] == db.postings[k];
      assert ClosingPosting(db2, db2.postings[k], id);
    }
    forall k | |db.postings| <= k < |db2.postings| ensures !ClosingPosting(db2, db2.postings[k], id) {
      assert db2.postings[k] == added[k - |db.postings|];
    }
    if HasClosingPosting(db2, id) {
      var k :| 0 <= k < |db2.postings| && ClosingPosting(db2, db2.postings[k], id);
      assert db2.postings[k] == db.postings[k];
      assert ClosingPosting(db, db.postings[k], id);
    }
  }

  lemma ClosingAppears(db: Db, db2: Db, f: Fill, added: seq<Posting>, k: nat)
    requires Grows(db, db2, f, added) && f.isClose
    requires k < |added| && added[k].bucket == ExitFee
    requires added[k].ref == FillRef(f.id) || added[k].ref == LiquidationRef(f.order)
    ensures HasClosingPosting(db2, f.order)
  {
    assert db2.postings[|db.postings| + k] == added[k];
    assert ClosingPosting(db2, db2.postings[|db.postings| + k], f.order);
  }

  lemma UniqueGrows(db: Db, db2: Db, f: Fill, added: seq<Posting>)
    requires Grows(db, db2, f, added) && FillsUnique(db) && !HasFill(db, f.order, f.isClose)
    ensures FillsUnique(db2)
  {
    forall g, h | g in db2.fills && h in db2.fills && SameUse(db2.fills[g], db2.fills[h]) ensures g == h {
      assert g != f.id ==> db2.fills[g] == db.fills[g];
      assert h != f.id ==> db2.fills[h] == db.fills[h];
    }
  }

  lemma EntryOfDistinctEvent(postings: seq<Posting>, account: AccountId)
    requires forall k :: 0 <= k < |postings| ==> postings[k].account == account && postings[k].bucket != RealizedNet
    ensures EventDelta(postings) == BalanceOf(postings, account)
  {
  }

  // ---------------------------------------------------------------------------
  // Opening
  // ---------------------------------------------------------------------------

  /** One executed opening order, before rounding. */
  datatype Opening = Opening(order: OrderId, account: AccountId, day: DayId, instrument: string, side: Side,
                             price: real, qty: real, margin: real, fee: real, fill: FillId, event: EventId, second: int)

  function OpeningFill(o: Opening): Fill {
    Fill(o.fill, o.order, o.account, FillQuote(o.order, o.second), Money(o.price), Money(o.qty), Money(o.fee), false)
  }

  function OpeningPosition(o: Opening): Position {
    Position(o.order, o.account, o.day, o.instrument, o.side, Money(o.qty), Money(o.price), Money(o.margin), Money(o.fee),
             Open, None, 0.0, 0.0, 0.0)
  }

  function OpeningPostings(o: Opening): seq<Posting> {
    OpenPostings(o.account, o.event, FillRef(o.fill), o.fee, Money(o.margin))
  }

  function CommitOpening(db: Db, o: Opening): Result<Db> {
    CommitOpenFill(db, o.order, OpeningFill(o), OpeningPosition(o), OpeningPostings(o))
  }

  lemma OpeningShape(db: Db, o: Opening)
    requires CommitOpening(db, o).Ok?
    ensures var db2 := CommitOpening(db, o).value;
            && Grows(db, db2, OpeningFill(o), OpeningPostings(o))
            && db2.accounts == db.accounts && o.account in db.accounts
            && o.order in db.orders
            && db2.orders == db.orders[o.order := db.orders[o.order].(state := Filled, filledQty := Money(o.qty))]
            && db2.positions == db.positions + [OpeningPosition(o)]
            && OpeningPosition(o).margin >= 0.0 && !Fillable(db2.orders[o.order].state)
            && BalanceOf(db.postings, o.account) + EventDelta(OpeningPostings(o)) >= 0.0
    ensures RowOf(db.positions, o.order).None?
  {
    hide Money, IsEntry, PostingsFit;
  }

  lemma OpeningMoney(o: Opening, account: AccountId)
    ensures AmountsOnGrid(OpeningPostings(o))
    ensures BalanceOf(OpeningPostings(o), account) == Worth(OpeningPosition(o), account)
    ensures EventDelta(OpeningPostings(o)) == BalanceOf(OpeningPostings(o), o.account)
    ensures MoneyRow(OpeningPosition(o)) <==> OpeningPosition(o).margin >= 0.0
  {
    OpenFlow(o.account, o.event, FillRef(o.fill), o.fee, Money(o.margin), account);
    MoneyOnGrid(o.margin);
    MoneyOnGrid(o.fee);
    MoneyFixedIffOnGrid(Money(o.margin));
    MoneyOfZero();
    hide Money, OnGrid;
    EntryOfDistinctEvent(OpeningPostings(o), o.account);
  }

  /** Adding an open row for a filled order, with its opening fill and entry, keeps every row in order. */
  lemma OpeningKeepsRows(db: Db, db2: Db, f: Fill, added: seq<Posting>, row: Position)
    requires RowsOk(db) && NoStrays(db) && Grows(db, db2, f, added) && !f.isClose && f.order == row.id
    requires RowOf(db.positions, row.id).None? && db2.positions == db.positions + [row] && row.status.Open? && MoneyRow(row)
    requires row.id in db2.orders && !Fillable(db2.orders[row.id].state)
    requires forall id :: id in db.orders && id != row.id ==> id in db2.orders && db2.orders[id] == db.orders[id]
    requires forall k :: 0 <= k < |added| ==> added[k].ref == FillRef(f.id)
    ensures RowsOk(db2)
  {
    NothingWithoutRow(db, row.id);
    hide MoneyRow, HasFill, HasClosingPosting, Grows, Fillable, RowOf, NoStrays;
    forall i | 0 <= i < |db2.positions| ensures RowOk(db2, db2.positions[i]) {
      var r := db2.positions[i];
      FillGrows(db, db2, f, added, r.id, false);
      FillGrows(db, db2, f, added, r.id, true);
      ClosingUnchanged(db, db2, f, added, r.id);
      if i < |db.positions| {
        assert r == db.positions[i] && r.id != row.id;
        assert RowOk(db, r);
      }
    }
  }

  lemma OpeningKeepsBalance(db: Db, o: Opening, account: AccountId)
    requires Balanced(db) && CommitOpening(db, o).Ok?
    ensures var db2 := CommitOpening(db, o).value;
            BalanceOf(db2.postings, account) == Deposit(db2, account) + RowsWorth(db2.positions, account)
  {
    OpeningShape(db, o);
    hide CommitOpening, BalanceOf, RowsWorth, Worth, OpeningPostings, OpeningPosition;
    BalanceAppend(db.postings, OpeningPostings(o), account);
    WorthAppend(db.positions, OpeningPosition(o), account);
    OpeningMoney(o, account);
  }

  lemma OpeningRefs(o: Opening)
    ensures forall k :: 0 <= k < |OpeningPostings(o)| ==> OpeningPostings(o)[k].ref == FillRef(o.fill)
  {
    hide Money;
  }

  /** An opening commit keeps everything a database keeps, and never leaves the account negative. */
  lemma OpeningKeepsDb(db: Db, o: Opening)
    requires DbOk(db) && CommitOpening(db, o).Ok?
    ensures DbOk(CommitOpening(db, o).value)
    ensures BalanceOf(CommitOpening(db, o).value.postings, o.account) >= 0.0
  {
    hide CommitOpening, OpeningPostings, MoneyRow, BalanceOf, RowsWorth, Worth, EventDelta, OnGrid, Money, HasFill,
      HasClosingPosting, NoStrays, RowsOk, RowsDistinct, FillsUnique, RowOf;
    var db2, f, p, added := CommitOpening(db, o).value, OpeningFill(o), OpeningPosition(o), OpeningPostings(o);
    OpeningShape(db, o);
    OpeningMoney(o, o.account);
    OpeningRefs(o);
    BalanceAppend(db.postings, added, o.account);
    NothingWithoutRow(db, o.order);
    UniqueGrows(db, db2, f, added);
    OpeningKeepsRows(db, db2, f, added, p);
    NewRowDistinct(db.positions, p);
    NoStraysAfterOpening(db, db2, f, added, p);
    forall account ensures BalanceOf(db2.postings, account) == Deposit(db2, account) + RowsWorth(db2.positions, account) {
      OpeningKeepsBalance(db, o, account);
    }
  }

  lemma NewRowDistinct(rows: seq<Position>, p: Position)
    requires RowsDistinct(rows) && RowOf(rows, p.id).None?
    ensures RowsDistinct(rows + [p])
  {
  }

  lemma NoStraysAfterOpening(db: Db, db2: Db, f: Fill, added: seq<Posting>, p: Position)
    requires Grows(db, db2, f, added) && NoStrays(db) && db2.positions == db.positions + [p] && p.id == f.order
    requires forall k :: 0 <= k < |added| ==> added[k].ref == FillRef(f.id)
    ensures NoStrays(db2)
  {
    assert db2.positions[|db.positions|].id == f.order;
    assert RowOf(db2.positions, f.order).Some?;
    NoStraysGrows(db, db2, f, added);
  }

  lemma NothingWithoutRow(db: Db, id: PositionId)
    requires NoStrays(db) && RowOf(db.positions, id).None?
    ensures !HasFill(db, id, false) && !HasFill(db, id, true) && !HasClosingPosting(db, id)
  {
  }

  lemma NoStraysGrows(db: Db, db2: Db, f: Fill, added: seq<Posting>)
    requires Grows(db, db2, f, added) && NoStrays(db) && RowOf(db2.positions, f.order).Some?
    requires |db2.positions| >= |db.positions|
    requires forall i :: 0 <= i < |db.positions| ==> db2.positions[i].id == db.positions[i].id
    requires forall k :: 0 <= k < |added| ==> added[k].ref == FillRef(f.id) || added[k].ref == LiquidationRef(f.order)
    ensures NoStrays(db2)
  {
    forall id | RowOf(db.positions, id).Some? ensures RowOf(db2.positions, id).Some? {
      assert db2.positions[RowOf(db.positions, id).value].id == id;
    }
    hide RowOf;
    forall g | g in db2.fills ensures RowOf(db2.positions, db2.fills[g].order).Some? {
      assert g != f.id ==> db2.fills[g] == db.fills[g];
    }
    forall k | 0 <= k < |db2.postings| && db2.postings[k].ref.LiquidationRef?
      ensures RowOf(db2.positions, db2.postings[k].ref.position).Some?
    {
      assert k >= |db.postings| ==> db2.postings[k] == added[k - |db.postings|];
      assert k < |db.postings| ==> db2.postings[k] == db.postings[k];
    }
  }

  // ---------------------------------------------------------------------------
  // Closing
  // ---------------------------------------------------------------------------

  predicate SameOpening(p: Position, q: Position) {
    && p.id == q.id && p.account == q.account && p.day == q.day && p.instrument == q.instrument && p.side == q.side
    && p.entryPrice == q.entryPrice && p.margin == q.margin && p.entryFee == q.entryFee
  }

  /** A position someone read or cached: its row still says the same, unless the row was closed since. */
  ghost predicate Known(db: Db, p: Position) {
    && RowOf(db.positions, p.id).Some?
    && var row := db.positions[RowOf(db.positions, p.id).value];
       SameOpening(p, row) && (row.status.Open? ==> p == row)
  }

  /** One executed full close: of what, with what result, and whether it was forced. */
  datatype Closing = Closing(position: Position, result: Execution.CloseResult, fill: FillId, event: EventId, second: int,
                             forced: bool)

  const LEVERAGE := 10

  function ToExecutionPosition(p: Position): Execution.Position {
    Execution.Position(p.side, p.entryPrice, p.qty, LEVERAGE, 0.0, None, p.margin, p.entryFee)
  }

  function CloseInFull(p: Position, s: Snapshot, bps: int, feeRate: real): Execution.CloseResult {
    Execution.ExecuteClose(ToExecutionPosition(p), s, Some(p.qty), bps, feeRate)
  }

  /** The result is that of a full close: its net is the price result less both fees. */
  predicate FullResult(c: Closing) {
    c.result.closed && c.result.realizedNet == c.result.grossPnl - c.result.closeFee - c.position.entryFee
  }

  lemma CloseInFullIsFull(p: Position, s: Snapshot, bps: int, feeRate: real, c: Closing)
    requires c.position == p && c.result == CloseInFull(p, s, bps, feeRate) && c.result.closed
    ensures FullResult(c)
  {
    hide Times, Ratio, ApplySlippage;
    Execution.FullClose(ToExecutionPosition(p), s, bps, feeRate);
  }

  function ClosingFill(c: Closing): Fill {
    Fill(c.fill, c.position.id, c.position.account,
         if c.forced then LiquidationQuote(c.position.id) else CloseQuote(c.position.id, c.second),
         Money(c.result.closePrice), Money(c.result.closedQty), Money(c.result.closeFee), true)
  }

  function ClosingPostings(c: Closing): seq<Posting> {
    if c.forced then
      ClosePostings(c.position.account, c.event, LiquidationSource, LiquidationRef(c.position.id), c.result.closeFee,
                    Money(c.result.grossPnl), c.position.margin, true)
    else
      ClosePostings(c.position.account, c.event, FillSource, FillRef(c.fill), c.result.closeFee,
                    Money(c.result.grossPnl), Money(c.position.margin), false)
  }

  /** The runner's closing commit, or the liquidation's, which rounds its arguments first. */
  function CommitClosing(db: Db, c: Closing): Result<Db> {
    var r := c.result;
    if c.forced then
      CommitPositionClose(db, c.position.id, ClosingFill(c), Money(r.closePrice), Money(r.grossPnl), Money(r.realizedNet),
                          Money(r.closeFee), ClosingPostings(c), Liquidated)
    else
      CommitPositionClose(db, c.position.id, ClosingFill(c), r.closePrice, r.grossPnl, r.realizedNet, r.closeFee,
                          ClosingPostings(c), Closed)
  }

  /** The row a closing leaves behind. */
  function RowAfter(c: Closing): Position {
    ClosedRow(c.position, c.result.closePrice, c.result.grossPnl, c.result.realizedNet, c.result.closeFee,
              if c.forced then Liquidated else Closed)
  }

  lemma MoneyTwice(x: real)
    ensures Money(Money(x)) == Money(x)
  {
    MoneyOnGrid(x);
    MoneyFixedIffOnGrid(Money(x));
  }

  /** It commits exactly over the open row that is the position itself. */
  lemma ClosingShape(db: Db, c: Closing)
    requires Known(db, c.position) && CommitClosing(db, c).Ok?
    ensures var db2, i := CommitClosing(db, c).value, RowOf(db.positions, c.position.id).value;
            && Grows(db, db2, ClosingFill(c), ClosingPostings(c))
            && db2.accounts == db.accounts && db2.orders == db.orders
            && RowOf(db.positions, c.position.id) == Some(i) && i < |db.positions|
            && db.positions[i] == c.position && c.position.status.Open?
            && db2.positions == db.positions[i := RowAfter(c)]
  {
    MoneyTwice(c.result.closePrice);
    MoneyTwice(c.result.grossPnl);
    MoneyTwice(c.result.realizedNet);
    MoneyTwice(c.result.closeFee);
    hide Money, IsEntry, PostingsFit;
  }

  lemma ClosingMoney(c: Closing, account: AccountId)
    requires MoneyRow(c.position) && c.position.status.Open? && FullResult(c)
    ensures AmountsOnGrid(ClosingPostings(c)) && MoneyRow(RowAfter(c))
    ensures BalanceOf(ClosingPostings(c), account) == Worth(RowAfter(c), account) - Worth(c.position, account)
  {
    hide Money, OnGrid, ClosePostings, IsEntry;
    var p, r := c.position, c.result;
    MoneyFixedIffOnGrid(p.margin);
    MoneyTwice(r.grossPnl);
    MoneyOnGrid(r.grossPnl);
    MoneyOnGrid(r.closeFee);
    RoundedNetNear(r.grossPnl, r.closeFee, p.entryFee);
    if c.forced {
      CloseFlow(p.account, c.event, LiquidationSource, LiquidationRef(p.id), r.closeFee, Money(r.grossPnl), p.margin, true,
                account);
    } else {
      CloseFlow(p.account, c.event, FillSource, FillRef(c.fill), r.closeFee, Money(r.grossPnl), Money(p.margin), false,
                account);
    }
  }

  lemma ClosingRefs(c: Closing)
    ensures forall k :: 0 <= k < |ClosingPostings(c)| ==>
              ClosingPostings(c)[k].ref == if c.forced then LiquidationRef(c.position.id) else FillRef(c.fill)
    ensures exists k :: 0 <= k < |ClosingPostings(c)| && ClosingPostings(c)[k].bucket == ExitFee
  {
    hide Money;
    var added := ClosingPostings(c);
    assert added[0].bucket == ExitFee || added[1].bucket == ExitFee;
  }

  /** Replacing the open row `at` by its terminal form, with the closing fill and entry, keeps every row in order. */
  lemma ClosingKeepsRows(db: Db, db2: Db, f: Fill, added: seq<Posting>, at: nat, row: Position)
    requires RowsDistinct(db.positions) && RowsOk(db) && Grows(db, db2, f, added) && db2.orders == db.orders && f.isClose
    requires at < |db.positions| && db2.positions == db.positions[at := row] && row.id == db.positions[at].id == f.order
    requires !row.status.Open? && MoneyRow(row)
    requires forall k :: 0 <= k < |added| ==> added[k].ref == FillRef(f.id) || added[k].ref == LiquidationRef(f.order)
    requires exists k :: 0 <= k < |added| && added[k].bucket == ExitFee
    ensures RowsOk(db2)
  {
    hide MoneyRow, HasFill, HasClosingPosting, Grows, Fillable;
    var exit :| 0 <= exit < |added| && added[exit].bucket == ExitFee;
    ClosingAppears(db, db2, f, added, exit);
    forall i | 0 <= i < |db2.positions| ensures RowOk(db2, db2.positions[i]) {
      var r := db2.positions[i];
      FillGrows(db, db2, f, added, r.id, false);
      FillGrows(db, db2, f, added, r.id, true);
      if i != at {
        assert r == db.positions[i] && r.id != row.id;
        ClosingUnchanged(db, db2, f, added, r.id);
        assert RowOk(db, r);
      } else {
        assert RowOk(db, db.positions[at]);
      }
    }
  }

  lemma ClosingKeepsBalance(db: Db, c: Closing, account: AccountId)
    requires DbOk(db) && Known(db, c.position) && FullResult(c) && CommitClosing(db, c).Ok?
    ensures var db2 := CommitClosing(db, c).value;
            BalanceOf(db2.postings, account) == Deposit(db2, account) + RowsWorth(db2.positions, account)
  {
    ClosingShape(db, c);
    var at := RowOf(db.positions, c.position.id).value;
    assert RowOk(db, db.positions[at]) && MoneyRow(c.position);
    BalanceAppend(db.postings, ClosingPostings(c), account);
    WorthUpdate(db.positions, at, RowAfter(c), account);
    ClosingMoney(c, account);
  }

  /** What is known of the row a closing replaces. */
  lemma ClosingFacts(db: Db, c: Closing)
    requires DbOk(db) && Known(db, c.position) && FullResult(c) && CommitClosing(db, c).Ok?
    ensures MoneyRow(c.position) && AmountsOnGrid(ClosingPostings(c)) && MoneyRow(RowAfter(c))
    ensures !HasFill(db, c.position.id, true)
    ensures !RowAfter(c).status.Open? && RowAfter(c).id == c.position.id
  {
    hide CommitClosing, ClosingPostings, MoneyRow, HasFill, HasClosingPosting, NoStrays, FillsUnique, Balanced,
      RowsDistinct;
    ClosingShape(db, c);
    assert RowOk(db, c.position);
    ClosingMoney(c, c.position.account);
  }

  /** A closing commit keeps everything a database keeps. */
  lemma ClosingKeepsDb(db: Db, c: Closing)
    requires DbOk(db) && Known(db, c.position) && FullResult(c) && CommitClosing(db, c).Ok?
    ensures DbOk(CommitClosing(db, c).value)
  {
    hide CommitClosing, ClosingPostings, MoneyRow, BalanceOf, RowsWorth, Worth, FullResult, HasFill,
      HasClosingPosting, OnGrid,
      Money, NoStrays, RowsOk, RowOf, RowAfter, RowsDistinct, FillsUnique, Known;
    var db2, f, added := CommitClosing(db, c).value, ClosingFill(c), ClosingPostings(c);
    ClosingShape(db, c);
    ClosingRefs(c);
    ClosingFacts(db, c);
    var at := RowOf(db.positions, c.position.id).value;
    UniqueGrows(db, db2, f, added);
    ClosingKeepsRows(db, db2, f, added, at, RowAfter(c));
    NoStraysAfterClosing(db, db2, f, added, at, RowAfter(c));
    RowsStayDistinct(db.positions, at, RowAfter(c));
    forall account ensures BalanceOf(db2.postings, account) == Deposit(db2, account) + RowsWorth(db2.positions, account) {
      ClosingKeepsBalance(db, c, account);
    }
  }

  lemma RowsStayDistinct(rows: seq<Position>, i: nat, row: Position)
    requires RowsDistinct(rows) && i < |rows| && row.id == rows[i].id
    ensures RowsDistinct(rows[i := row])
  {
  }

  lemma NoStraysAfterClosing(db: Db, db2: Db, f: Fill, added: seq<Posting>, at: nat, row: Position)
    requires Grows(db, db2, f, added) && NoStrays(db) && RowsDistinct(db.positions)
    requires at < |db.positions| && db2.positions == db.positions[at := row] && row.id == db.positions[at].id == f.order
    requires forall k :: 0 <= k < |added| ==> added[k].ref == FillRef(f.id) || added[k].ref == LiquidationRef(f.order)
    ensures NoStrays(db2)
  {
    assert db2.positions[at].id == f.order;
    assert RowOf(db2.positions, f.order).Some?;
    NoStraysGrows(db, db2, f, added);
  }

  // ---------------------------------------------------------------------------
  // Runs
  // ---------------------------------------------------------------------------

  /** The database and the open positions each runner remembers. */
  datatype System = System(db: Db, books: map<RunnerId, Book>)

  const START := System(EMPTY, map[])

  function BookOf(s: System, runner: RunnerId): Book { if runner in s.books then s.books[runner] else map[] }

  datatype Action =
    | NewAccount(account: AccountId, event: EventId, deposit: real)
    | NewOrder(order: OrderId, account: AccountId, day: DayId)
    | EndOrder(order: OrderId, state: OrderState)
    | OpenFill(runner: RunnerId, opening: Opening)
    | CloseFill(runner: RunnerId, position: Position, snapshot: Snapshot, bps: int, feeRate: real, fill: FillId,
                event: EventId, second: int)
    | Liquidate(position: Position, snapshot: Snapshot, bps: int, feeRate: real, fill: FillId, event: EventId)
    | Recover(runner: RunnerId, loaded: bool)
    | Crash(runner: RunnerId)

  /**
   Callers only ever end an order as cancelled or rejected, and only close or liquidate a position
   that they read from the database at some time or remember.
   */
  ghost predicate Enabled(s: System, a: Action) {
    match a
    case EndOrder(_, state) => state.Cancelled? || state.Rejected?
    case CloseFill(_, p, _, _, _, _, _, _) => Known(s.db, p)
    case Liquidate(p, _, _, _, _, _) => Known(s.db, p)
    case _ => true
  }

  /** The open rows, by their ids. */
  function OpenRows(rows: seq<Position>): (r: Book)
    ensures forall id :: id in r ==> exists i :: 0 <= i < |rows| && rows[i] == r[id] && rows[i].id == id && rows[i].status.Open?
  {
    if rows == [] then map[]
    else
      var last := rows[|rows| - 1];
      var rest := OpenRows(rows[..|rows| - 1]);
      if last.status.Open? then rest[last.id := last] else rest
  }

  function ClosingOf(a: Action): Closing
    requires a.CloseFill? || a.Liquidate?
  {
    match a
    case CloseFill(_, p, s, bps, feeRate, fill, event, second) =>
      Closing(p, CloseInFull(p, s, bps, feeRate), fill, event, second, false)
    case Liquidate(p, s, bps, feeRate, fill, event) => Closing(p, CloseInFull(p, s, bps, feeRate), fill, event, 0, true)
  }

  function Committed(before: Db, r: Result<Db>): Db { if r.Ok? then r.value else before }

  ghost function Step(s: System, a: Action): System {
    match a
    case NewAccount(account, event, deposit) => s.(db := Committed(s.db, CreateAccount(s.db, account, event, deposit)))
    case NewOrder(order, account, day) => s.(db := Committed(s.db, CreateOrder(s.db, order, account, day)))
    case EndOrder(order, state) => s.(db := UpdateOrderState(s.db, order, state))
    case OpenFill(runner, o) =>
      var r := CommitOpening(s.db, o);
      if r.Ok? then System(r.value, s.books[runner := BookOf(s, runner)[o.order := OpeningPosition(o)]]) else s
    case CloseFill(runner, p, _, _, _, _, _, _) =>
      var c := ClosingOf(a);
      var r := CommitClosing(s.db, c);
      // nothing is attempted when the engine closes nothing; the book changes only after the commit
      if c.result.closed && r.Ok? then System(r.value, s.books[runner := BookOf(s, runner) - {p.id}]) else s
    case Liquidate(p, _, _, _, _, _) =>
      var c := ClosingOf(a);
      if p.status.Open? && c.result.closed then s.(db := Committed(s.db, CommitClosing(s.db, c))) else s
    case Recover(runner, loaded) =>
      // a load that fails is logged and answered by an empty list
      if loaded then s.(books := s.books[runner := BookOf(s, runner) + OpenRows(s.db.positions)]) else s
    case Crash(runner) => s.(books := s.books[runner := map[]])
  }

  ghost predicate Possible(s: System, actions: seq<Action>)
    decreases |actions|
  {
    actions == [] || (Enabled(s, actions[0]) && Possible(Step(s, actions[0]), actions[1..]))
  }

  ghost function After(s: System, actions: seq<Action>): System
    decreases |actions|
  {
    if actions == [] then s else After(Step(s, actions[0]), actions[1..])
  }

  lemma FullClosing(a: Action)
    requires (a.CloseFill? || a.Liquidate?) && ClosingOf(a).result.closed
    ensures FullResult(ClosingOf(a)) && ClosingOf(a).position == a.position
  {
    hide Execution.ExecuteClose;
    CloseInFullIsFull(a.position, a.snapshot, a.bps, a.feeRate, ClosingOf(a));
  }

  lemma AccountKeepsDb(db: Db, account: AccountId, event: EventId, opening: real)
    requires DbOk(db) && CreateAccount(db, account, event, opening).Ok?
    ensures DbOk(CreateAccount(db, account, event, opening).value)
  {
    hide Money, OnGrid, MoneyRow, RowsWorth, RowsDistinct, BalanceOf, RowOf;
    MoneyOnGrid(opening);
    var db2 := CreateAccount(db, account, event, opening).value;
    var added := [Posting(account, event, DepositSource, NoRef, OpeningDeposit, Money(opening))];
    forall i | 0 <= i < |db2.positions| ensures RowOk(db2, db2.positions[i]) {
      assert RowOk(db, db.positions[i]);
      var id := db.positions[i].id;
      if HasClosingPosting(db, id) {
        var k :| 0 <= k < |db.postings| && ClosingPosting(db, db.postings[k], id);
        assert ClosingPosting(db2, db2.postings[k], id);
      }
      if HasClosingPosting(db2, id) {
        var k :| 0 <= k < |db2.postings| && ClosingPosting(db2, db2.postings[k], id);
        assert ClosingPosting(db, db.postings[k], id);
      }
    }
    forall other ensures BalanceOf(db2.postings, other) == Deposit(db2, other) + RowsWorth(db2.positions, other) {
      BalanceAppend(db.postings, added, other);
      SingleFlow(added, other);
    }
  }

  lemma OrdersKeepDb(db: Db, db2: Db)
    requires DbOk(db) && db2 == db.(orders := db2.orders)
    requires forall id :: id in db.orders ==>
               id in db2.orders && (Fillable(db2.orders[id].state) ==> Fillable(db.orders[id].state))
    ensures DbOk(db2)
  {
    hide MoneyRow, BalanceOf, RowsWorth;
    forall i | 0 <= i < |db2.positions| ensures RowOk(db2, db2.positions[i]) {
      assert RowOk(db, db.positions[i]);
    }
  }

  lemma StepKeepsDb(s: System, a: Action)
    requires DbOk(s.db) && Enabled(s, a)
    ensures DbOk(Step(s, a).db)
  {
    hide DbOk, CommitOpening, CommitClosing, CreateAccount, Known, ClosingOf;
    match a
    case NewAccount(account, event, deposit) =>
      if CreateAccount(s.db, account, event, deposit).Ok? { AccountKeepsDb(s.db, account, event, deposit); }
    case NewOrder(_, _, _) => OrdersKeepDb(s.db, Step(s, a).db);
    case EndOrder(_, _) => OrdersKeepDb(s.db, Step(s, a).db);
    case OpenFill(_, o) => if CommitOpening(s.db, o).Ok? { OpeningKeepsDb(s.db, o); }
    case CloseFill(_, _, _, _, _, _, _, _) =>
      if ClosingOf(a).result.closed && CommitClosing(s.db, ClosingOf(a)).Ok? {
        FullClosing(a);
        ClosingKeepsDb(s.db, ClosingOf(a));
      }
    case Liquidate(_, _, _, _, _, _) =>
      if ClosingOf(a).result.closed && CommitClosing(s.db, ClosingOf(a)).Ok? {
        FullClosing(a);
        ClosingKeepsDb(s.db, ClosingOf(a));
      }
    case Recover(_, _) =>
    case Crash(_) =>
  }

  lemma EmptyDbOk()
    ensures DbOk(EMPTY)
  {
  }

  /** In every run the database keeps its rows, fills, entries and balances in agreement. */
  lemma {:induction false} SettlementInvariant(s: System, actions: seq<Action>)
    requires DbOk(s.db) && Possible(s, actions)
    ensures DbOk(After(s, actions).db)
    decreases |actions|
  {
    hide DbOk, Enabled, Step;
    if actions != [] {
      StepKeepsDb(s, actions[0]);
      SettlementInvariant(Step(s, actions[0]), actions[1..]);
    }
  }

  // ---------------------------------------------------------------------------
  // What was read stays true
  // ---------------------------------------------------------------------------

  /** Rows are only appended, and only change by becoming terminal. */
  ghost predicate RowsMove(rows: seq<Position>, later: seq<Position>) {
    && |rows| <= |later|
    && forall i :: 0 <= i < |rows| ==>
         later[i] == rows[i] || (SameOpening(rows[i], later[i]) && rows[i].status.Open? && !later[i].status.Open?)
  }

  lemma StepMovesRows(s: System, a: Action)
    requires Enabled(s, a)
    ensures RowsMove(s.db.positions, Step(s, a).db.positions)
  {
    hide CommitOpening, CommitClosing, Known, ClosingOf, Execution.ExecuteClose, RowAfter;
    match a
    case OpenFill(_, o) => if CommitOpening(s.db, o).Ok? { OpeningShape(s.db, o); }
    case CloseFill(_, p, _, _, _, _, _, _) =>
      ClosingOfPosition(a);
      if CommitClosing(s.db, ClosingOf(a)).Ok? { ClosingShape(s.db, ClosingOf(a)); RowAfterTerminal(ClosingOf(a)); }
    case Liquidate(p, _, _, _, _, _) =>
      ClosingOfPosition(a);
      if CommitClosing(s.db, ClosingOf(a)).Ok? { ClosingShape(s.db, ClosingOf(a)); RowAfterTerminal(ClosingOf(a)); }
    case _ =>
  }

  lemma ClosingOfPosition(a: Action)
    requires a.CloseFill? || a.Liquidate?
    ensures ClosingOf(a).position == a.position
  {
    hide Execution.ExecuteClose;
  }

  lemma RowAfterTerminal(c: Closing)
    ensures SameOpening(c.position, RowAfter(c)) && !RowAfter(c).status.Open? && RowAfter(c).id == c.position.id
  {
    hide Money;
  }

  lemma KnownMoves(db: Db, db2: Db, p: Position)
    requires Known(db, p) && RowsDistinct(db2.positions) && RowsMove(db.positions, db2.positions)
    ensures Known(db2, p)
  {
    var i := RowOf(db.positions, p.id).value;
    RowOfDistinct(db2.positions, i);
  }

  /** A position read once stays known: a later read differs from it only by the row having been closed. */
  lemma {:induction false} KnownForever(s: System, actions: seq<Action>, p: Position)
    requires DbOk(s.db) && Known(s.db, p) && Possible(s, actions)
    ensures Known(After(s, actions).db, p)
    decreases |actions|
  {
    hide Enabled, Step, Known, RowsMove, RowsOk, FillsUnique, NoStrays, Balanced;
    if actions != [] {
      var t := Step(s, actions[0]);
      StepMovesRows(s, actions[0]);
      StepKeepsDb(s, actions[0]);
      KnownMoves(s.db, t.db, p);
      KnownForever(t, actions[1..], p);
    }
  }

  // ---------------------------------------------------------------------------
  // Main results
  // ---------------------------------------------------------------------------

  /**
   Under every race between exits, manual closes, day closes and liquidations: an order is opened
   by at most one fill and a position closed by at most one, and the closing fill and the closing
   postings exist exactly when the position is closed or liquidated.
   */
  lemma SettledOnce(actions: seq<Action>)
    requires Possible(START, actions)
    ensures var db := After(START, actions).db;
            && (forall f, g :: f in db.fills && g in db.fills && SameUse(db.fills[f], db.fills[g]) ==> f == g)
            && (forall i :: 0 <= i < |db.positions| ==>
                  var p := db.positions[i];
                  && HasFill(db, p.id, false)
                  && (HasFill(db, p.id, true) <==> p.status.Closed? || p.status.Liquidated?)
                  && (HasClosingPosting(db, p.id) <==> p.status.Closed? || p.status.Liquidated?))
            && (forall f :: f in db.fills ==> exists i :: 0 <= i < |db.positions| && db.positions[i].id == db.fills[f].order)
  {
    hide HasFill, HasClosingPosting, MoneyRow, Possible, After;
    EmptyDbOk();
    SettlementInvariant(START, actions);
    var db := After(START, actions).db;
    forall i | 0 <= i < |db.positions|
      ensures var p := db.positions[i];
              && HasFill(db, p.id, false)
              && (HasFill(db, p.id, true) <==> p.status.Closed? || p.status.Liquidated?)
              && (HasClosingPosting(db, p.id) <==> p.status.Closed? || p.status.Liquidated?)
    {
      assert RowOk(db, db.positions[i]);
    }
  }

  /** In every run the available balance of every account is exact. */
  lemma BalanceConserved(actions: seq<Action>, account: AccountId)
    requires Possible(START, actions)
    ensures var db := After(START, actions).db;
            BalanceOf(db.postings, account) == Deposit(db, account) + RowsWorth(db.positions, account)
  {
    hide Possible, After, BalanceOf, RowsWorth;
    EmptyDbOk();
    SettlementInvariant(START, actions);
  }

  /** The same sum with the stored net results in place of the components. */
  function NetWorth(rows: seq<Position>, account: AccountId): real {
    if rows == [] then 0.0
    else
      var p := rows[|rows| - 1];
      NetWorth(rows[..|rows| - 1], account)
      + if p.account != account then 0.0 else if p.status.Open? then -(p.margin + p.entryFee) else p.net
  }

  function ClosedCount(rows: seq<Position>, account: AccountId): nat {
    if rows == [] then 0
    else
      var p := rows[|rows| - 1];
      ClosedCount(rows[..|rows| - 1], account) + if p.account == account && !p.status.Open? then 1 else 0
  }

  lemma {:induction false} NetWorthNear(rows: seq<Position>, account: AccountId)
    requires forall i :: 0 <= i < |rows| ==> MoneyRow(rows[i])
    ensures var slack := ClosedCount(rows, account) as real / GRID;
            -slack <= NetWorth(rows, account) - RowsWorth(rows, account) <= slack
  {
    hide OnGrid;
    if rows != [] {
      NetWorthNear(rows[..|rows| - 1], account);
      assert MoneyRow(rows[|rows| - 1]);
    }
  }

  /** With the stored net column the balance is off by at most one unit of 1e-8 per closed position. */
  lemma NetColumnNear(actions: seq<Action>, account: AccountId)
    requires Possible(START, actions)
    ensures var db := After(START, actions).db;
            var slack := ClosedCount(db.positions, account) as real / GRID;
            -slack <= BalanceOf(db.postings, account) - (Deposit(db, account) + NetWorth(db.positions, account)) <= slack
  {
    hide Possible, After, BalanceOf, RowsWorth, NetWorth, ClosedCount, HasFill, HasClosingPosting, MoneyRow;
    EmptyDbOk();
    SettlementInvariant(START, actions);
    var db := After(START, actions).db;
    forall i | 0 <= i < |db.positions| ensures MoneyRow(db.positions[i]) {
      assert RowOk(db, db.positions[i]);
    }
    NetWorthNear(db.positions, account);
  }

  /** In every run, an opening commit leaves its account at zero or more. */
  lemma OpeningNeverOverdraws(actions: seq<Action>, o: Opening)
    requires Possible(START, actions) && CommitOpening(After(START, actions).db, o).Ok?
    ensures BalanceOf(CommitOpening(After(START, actions).db, o).value.postings, o.account) >= 0.0
  {
    hide Possible, After, BalanceOf, CommitOpening, DbOk;
    EmptyDbOk();
    SettlementInvariant(START, actions);
    OpeningKeepsDb(After(START, actions).db, o);
  }
}
