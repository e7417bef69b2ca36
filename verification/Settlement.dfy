/**
 Settlement transactions of `paper_trading/repository.py`: opening and closing commits over
 orders, fills, positions and the journal.  A transaction either commits as a whole or
 raises and changes nothing.
 */
module Settlement {
  import opened Journal
  import opened Market
  import opened Monetary
  import opened Wrappers

  type OrderId = PositionId

  datatype OrderState = Pending | Submitted | PartiallyFilled | Filled | Cancelled | Rejected | Expired

  datatype Order = Order(account: AccountId, day: DayId, state: OrderState, filledQty: real)

  datatype Quote =
    | FillQuote(order: OrderId, second: int)
    | CloseQuote(position: PositionId, second: int)
    | LiquidationQuote(position: PositionId)

  datatype Fill = Fill(id: FillId, order: OrderId, account: AccountId, quote: Quote, price: real, qty: real, fee: real,
                       isClose: bool)

  datatype PositionStatus = Open | Closed | Liquidated

  datatype Position = Position(
    id: PositionId, account: AccountId, day: DayId, instrument: string, side: Side,
    qty: real, entryPrice: real, margin: real, entryFee: real,
    status: PositionStatus, closePrice: Option<real>, gross: real, net: real, exitFee: real)

  /** The tables; accounts are kept with their opening deposit. */
  datatype Db = Db(accounts: map<AccountId, real>, orders: map<OrderId, Order>, fills: map<FillId, Fill>,
                   positions: seq<Position>, postings: seq<Posting>)

  const EMPTY := Db(map[], map[], map[], [], [])

  // ---------------------------------------------------------------------------
  // Constraints of the database
  // ---------------------------------------------------------------------------

  /** A null source never clashes. */
  predicate Clash(p: Posting, q: Posting) {
    p.ref != NoRef && p.source == q.source && p.ref == q.ref && p.bucket == q.bucket
  }

  predicate PostingsFit(stored: seq<Posting>, added: seq<Posting>) {
    && (forall i, j :: 0 <= i < |stored| && 0 <= j < |added| ==> !Clash(stored[i], added[j]))
    && forall i, j :: 0 <= i < j < |added| ==> !Clash(added[i], added[j])
  }

  /** Primary key, unique quote per order, and the order it belongs to. */
  predicate FillFits(db: Db, f: Fill) {
    && f.id !in db.fills && f.order in db.orders && f.account in db.accounts
    && forall id :: id in db.fills ==> !(db.fills[id].quote == f.quote && db.fills[id].order == f.order)
  }

  /** Primary key, sign checks, and at most one open position per account and instrument. */
  predicate PositionFits(db: Db, p: Position) {
    && p.qty >= 0.0 && p.margin >= 0.0
    && forall i :: 0 <= i < |db.positions| ==>
         && db.positions[i].id != p.id
         && !(db.positions[i].status.Open? && db.positions[i].account == p.account
              && db.positions[i].instrument == p.instrument)
  }

  /** Where the row of a position is. */
  function RowOf(rows: seq<Position>, id: PositionId): (r: Option<nat>)
    ensures r.Some? ==> r.value < |rows| && rows[r.value].id == id
    ensures r.None? ==> forall i :: 0 <= i < |rows| ==> rows[i].id != id
  {
    if rows == [] then None
    else if rows[|rows| - 1].id == id then Some(|rows| - 1)
    else RowOf(rows[..|rows| - 1], id)
  }

  // ---------------------------------------------------------------------------
  // Transactions
  // ---------------------------------------------------------------------------

  function CreateAccount(db: Db, account: AccountId, event: EventId, opening: real): Result<Db> {
    if account in db.accounts then Err("duplicate account")
    else
      var deposit := Money(opening);
      Ok(db.(accounts := db.accounts[account := deposit],
             postings := db.postings + [Posting(account, event, DepositSource, NoRef, OpeningDeposit, deposit)]))
  }

  function CreateOrder(db: Db, id: OrderId, account: AccountId, day: DayId): Result<Db> {
    if id in db.orders || account !in db.accounts then Err("order constraint")
    else Ok(db.(orders := db.orders[id := Order(account, day, Pending, 0.0)]))
  }

  /** Written whatever the state was. */
  function UpdateOrderState(db: Db, id: OrderId, state: OrderState): Db {
    if id in db.orders then db.(orders := db.orders[id := db.orders[id].(state := state)]) else db
  }

  function EventDelta(postings: seq<Posting>): real {
    if postings == [] then 0.0 else EventDelta(postings[..|postings| - 1]) + postings[|postings| - 1].amount
  }

  predicate Fillable(s: OrderState) { s.Pending? || s.Submitted? }

  function CommitOpenFill(db: Db, order: OrderId, fill: Fill, position: Position, postings: seq<Posting>): Result<Db> {
    if fill.order != order then Err("fill.order_id must match order_id")
    else if position.id != order then Err("position_id must equal its originating order_id")
    else if fill.account != position.account then Err("fill and position must belong to one account")
    else if !IsEntry(postings) then Err("not a journal entry")
    else if BalanceOf(db.postings, position.account) + EventDelta(postings) < 0.0 then
      Err("insufficient account balance at commit")
    else if order !in db.orders then Err("order not found")
    else if db.orders[order].account != position.account then Err("order account does not match fill account")
    else if !Fillable(db.orders[order].state) then Err("order is not fillable")
    else
      var filled := db.orders[order].(state := Filled, filledQty := fill.qty);
      var inserted := position.(status := Open, closePrice := None, gross := 0.0, net := 0.0, exitFee := 0.0);
      if !FillFits(db, fill) || !PositionFits(db, inserted) || !PostingsFit(db.postings, postings) then
        Err("constraint violation")
      else
        Ok(Db(db.accounts, db.orders[order := filled], db.fills[fill.id := fill],
              db.positions + [inserted], db.postings + postings))
  }

  /** What a close writes into the row. */
  function ClosedRow(p: Position, price: real, gross: real, net: real, exitFee: real, status: PositionStatus): Position {
    p.(qty := 0.0, status := status, closePrice := Some(Money(price)),
       gross := Money(gross), net := Money(net), exitFee := Money(exitFee))
  }

  function CommitPositionClose(db: Db, id: PositionId, fill: Fill, price: real, gross: real, net: real, exitFee: real,
                                     postings: seq<Posting>, status: PositionStatus): Result<Db>
  {
    if status.Open? then Err("close commit requires a terminal status")
    else if fill.order != id then Err("close fill must reference the originating order/position id")
    else if !IsEntry(postings) then Err("not a journal entry")
    else if RowOf(db.positions, id).None? then Err("position not found")
    else
      var i := RowOf(db.positions, id).value;
      var row := db.positions[i];
      if row.account != fill.account then Err("position account does not match fill account")
      else if !row.status.Open? then Err("position is not open")
      else if !FillFits(db, fill) || !PostingsFit(db.postings, postings) then Err("constraint violation")
      else Ok(db.(fills := db.fills[fill.id := fill],
                  positions := db.positions[i := ClosedRow(row, price, gross, net, exitFee, status)],
                  postings := db.postings + postings))
  }
}
