/**
 What the fill and journal tables say of a position, in every run: prices, quantities, fees and the
 buckets of its postings.  With it the database refuses nothing but what it should: which openings and
 which closes commit is told without naming a single constraint of the schema.
 */
module Records {
  import opened Journal
  import opened Market
  import opened Monetary
  import opened RunnerBook
  import opened Settlement
  import opened SettlementProtocol
  import opened Wrappers
  import Arithmetic
  import Execution

  // ---------------------------------------------------------------------------
  // What is on record
  // ---------------------------------------------------------------------------

  /** The row of an order. */
  ghost predicate RowIs(db: Db, id: OrderId, row: Position) {
    RowOf(db.positions, id).Some? && db.positions[RowOf(db.positions, id).value] == row
  }

  /** A fill tells the price, the fee and the whole quantity of what it opened or closed. */
  predicate FillTells(f: Fill, order: Order, row: Position) {
    && f.account == row.account == order.account && f.qty == order.filledQty
    && if f.isClose then
         && !row.status.Open? && row.closePrice == Some(f.price) && f.fee == row.exitFee
         && (row.status.Liquidated? <==> f.quote == LiquidationQuote(row.id))
         && (row.status.Closed? ==> f.quote.CloseQuote? && f.quote.position == row.id)
       else f.quote.FillQuote? && f.quote.order == row.id && f.price == row.entryPrice && f.fee == row.entryFee
  }

  /** A posting of an opening takes the margin or the entry fee. */
  predicate OpeningTells(p: Posting, row: Position) {
    && p.account == row.account
    && match p.bucket
       case ReservedMargin => p.amount == -row.margin
       case EntryFee => p.amount == -row.entryFee
       case _ => false
  }

  /** A posting of an exit returns the margin, takes the exit fee or books the result. */
  predicate ClosingTells(p: Posting, row: Position) {
    && p.account == row.account && !row.status.Open?
    && match p.bucket
       case ReleasedMargin => p.amount == row.margin
       case ExitFee => p.amount == -row.exitFee
       case RealizedGross => p.amount == row.gross
       case _ => false
  }

  /** The row holds the filled quantity while it is open, and nothing afterwards. */
  predicate QuantityOk(order: Order, row: Position) {
    row.qty == (if row.status.Open? then order.filledQty else 0.0) && OnGrid(order.filledQty)
  }

  ghost predicate OrderOk(db: Db, id: OrderId)
    requires id in db.orders
  {
    && db.orders[id].account in db.accounts
    && forall row :: RowIs(db, id, row) ==> row.account == db.orders[id].account && QuantityOk(db.orders[id], row)
  }

  ghost predicate FillOk(db: Db, id: FillId)
    requires id in db.fills
  {
    var f := db.fills[id];
    f.order in db.orders && exists row :: RowIs(db, f.order, row) && FillTells(f, db.orders[f.order], row)
  }

  ghost predicate PostingOk(db: Db, p: Posting) {
    match p.ref
    case NoRef => p.bucket.OpeningDeposit?
    case FillRef(id) =>
      id in db.fills
      && exists row :: RowIs(db, db.fills[id].order, row)
                       && if db.fills[id].isClose then row.status.Closed? && ClosingTells(p, row) else OpeningTells(p, row)
    case LiquidationRef(id) => exists row :: RowIs(db, id, row) && row.status.Liquidated? && ClosingTells(p, row)
  }

  ghost predicate RecordsOk(db: Db) {
    && (forall id :: id in db.orders ==> OrderOk(db, id))
    && (forall id :: id in db.fills ==> FillOk(db, id))
    && forall k :: 0 <= k < |db.postings| ==> PostingOk(db, db.postings[k])
  }

  // ---------------------------------------------------------------------------
  // Nothing recorded is disturbed
  // ---------------------------------------------------------------------------

  /** Every row is still there and says what it said, or has become terminal. */
  ghost predicate RowsStay(db: Db, db2: Db) {
    forall id, row :: RowIs(db, id, row) ==>
      exists later :: RowIs(db2, id, later)
                      && (later == row || (row.status.Open? && !later.status.Open? && SameOpening(row, later)))
  }

  lemma TellsStay(f: Fill, order: Order, row: Position, later: Position)
    requires FillTells(f, order, row)
    requires later == row || (row.status.Open? && !later.status.Open? && SameOpening(row, later))
    ensures FillTells(f, order, later)
  {
  }

  lemma FillStays(db: Db, db2: Db, id: FillId)
    requires id in db.fills && FillOk(db, id) && RowsStay(db, db2) && id in db2.fills && db2.fills[id] == db.fills[id]
    requires var order := db.fills[id].order;
             order in db.orders ==>
               order in db2.orders && db2.orders[order].filledQty == db.orders[order].filledQty
               && db2.orders[order].account == db.orders[order].account
    ensures FillOk(db2, id)
  {
    hide RowIs;
    var f := db.fills[id];
    var row :| RowIs(db, f.order, row) && FillTells(f, db.orders[f.order], row);
    var later :| RowIs(db2, f.order, later)
                 && (later == row || (row.status.Open? && !later.status.Open? && SameOpening(row, later)));
    TellsStay(f, db.orders[f.order], row, later);
    assert FillTells(f, db2.orders[f.order], later);
  }

  lemma PostingStays(db: Db, db2: Db, p: Posting)
    requires PostingOk(db, p) && RowsStay(db, db2)
    requires forall id :: id in db.fills ==> id in db2.fills && db2.fills[id] == db.fills[id]
    ensures PostingOk(db2, p)
  {
    hide RowIs;
    match p.ref
    case NoRef =>
    case FillRef(id) =>
      var row :| RowIs(db, db.fills[id].order, row)
                 && if db.fills[id].isClose then row.status.Closed? && ClosingTells(p, row) else OpeningTells(p, row);
      var later :| RowIs(db2, db.fills[id].order, later)
                   && (later == row || (row.status.Open? && !later.status.Open? && SameOpening(row, later)));
    case LiquidationRef(id) =>
      var row :| RowIs(db, id, row) && row.status.Liquidated? && ClosingTells(p, row);
      var later :| RowIs(db2, id, later)
                   && (later == row || (row.status.Open? && !later.status.Open? && SameOpening(row, later)));
  }

  // ---------------------------------------------------------------------------
  // Opening
  // ---------------------------------------------------------------------------

  lemma AppendStays(db: Db, db2: Db, row: Position)
    requires db2.positions == db.positions + [row] && RowOf(db.positions, row.id).None?
    ensures RowsStay(db, db2) && RowIs(db2, row.id, row)
    ensures forall id, r :: RowIs(db2, id, r) ==> if id == row.id then r == row else RowIs(db, id, r)
  {
    hide RowOf;
    forall id, r | RowIs(db, id, r) ensures RowIs(db2, id, r) {
      RowOfAppend(db.positions, row, id);
    }
    RowOfAppend(db.positions, row, row.id);
    forall id, r | RowIs(db2, id, r) ensures if id == row.id then r == row else RowIs(db, id, r) {
      RowOfAppend(db.positions, row, id);
    }
  }

  /** What the opening entry of a position posts. */
  lemma OpeningPosts(o: Opening)
    ensures var p := OpeningPostings(o);
            forall k :: 0 <= k < |p| ==> p[k].ref == FillRef(o.fill) && OpeningTells(p[k], OpeningPosition(o))
  {
    NegatedMoney(o.margin);
    NegatedMoney(o.fee);
    NegatedMoney(Money(o.margin));
    MoneyTwice(o.margin);
    hide Money, OnGrid;
  }

  lemma OpeningKeepsRecords(db: Db, o: Opening)
    requires DbOk(db) && RecordsOk(db) && CommitOpening(db, o).Ok?
    ensures RecordsOk(CommitOpening(db, o).value)
  {
    hide DbOk, CommitOpening, FillOk, PostingOk, RowsStay, FillTells, OpeningPostings, RowIs, RowOf, Money, OnGrid;
    var db2, f, row, added := CommitOpening(db, o).value, OpeningFill(o), OpeningPosition(o), OpeningPostings(o);
    OpeningShape(db, o);
    OpenedOrder(db, o);
    AppendStays(db, db2, row);
    OpeningPosts(o);
    forall id | id in db2.orders ensures OrderOk(db2, id) {
      if id != o.order {
        assert OrderOk(db, id) && db2.orders[id] == db.orders[id];
      }
    }
    forall id | id in db2.fills ensures FillOk(db2, id) {
      if id == f.id {
        OpenedFill(db2, o);
      } else {
        assert FillOk(db, id);
        FilledHasRow(db, id);
        FillStays(db, db2, id);
      }
    }
    forall k | 0 <= k < |db2.postings| ensures PostingOk(db2, db2.postings[k]) {
      if k < |db.postings| {
        assert PostingOk(db, db.postings[k]);
        PostingStays(db, db2, db.postings[k]);
      } else {
        OpenedPosting(db2, o, added[k - |db.postings|]);
      }
    }
  }

  lemma FilledHasRow(db: Db, id: FillId)
    requires id in db.fills && FillOk(db, id)
    ensures RowOf(db.positions, db.fills[id].order).Some?
  {
    hide RowOf;
  }

  lemma OpenedOrder(db: Db, o: Opening)
    requires CommitOpening(db, o).Ok?
    ensures o.order in db.orders && db.orders[o.order].account == o.account && o.account in db.accounts
    ensures OnGrid(Money(o.qty))
    ensures OpeningPosition(o).account == o.account && OpeningPosition(o).qty == Money(o.qty) && OpeningPosition(o).status.Open?
  {
    MoneyOnGrid(o.qty);
    hide Money, OnGrid, IsEntry, PostingsFit, BalanceOf, EventDelta;
  }

  lemma OpenedFill(db2: Db, o: Opening)
    requires o.fill in db2.fills && db2.fills[o.fill] == OpeningFill(o) && o.order in db2.orders
    requires db2.orders[o.order].account == o.account && db2.orders[o.order].filledQty == Money(o.qty)
    requires RowIs(db2, o.order, OpeningPosition(o))
    ensures FillOk(db2, o.fill)
  {
    hide RowIs, Money;
    assert FillTells(OpeningFill(o), db2.orders[o.order], OpeningPosition(o));
  }

  lemma OpenedPosting(db2: Db, o: Opening, p: Posting)
    requires o.fill in db2.fills && db2.fills[o.fill] == OpeningFill(o) && RowIs(db2, o.order, OpeningPosition(o))
    requires p.ref == FillRef(o.fill) && OpeningTells(p, OpeningPosition(o))
    ensures PostingOk(db2, p)
  {
    hide RowIs, Money, OpeningTells;
  }

  // ---------------------------------------------------------------------------
  // Closing
  // ---------------------------------------------------------------------------

  lemma ReplaceStays(db: Db, db2: Db, at: nat, row: Position)
    requires RowsDistinct(db.positions) && Replaces(db.positions, db2.positions, at, row) && db.positions[at].status.Open?
    ensures RowsStay(db, db2) && RowIs(db2, row.id, row) && RowIs(db, row.id, db.positions[at])
    ensures forall id, r :: RowIs(db2, id, r) ==> if id == row.id then r == row else RowIs(db, id, r)
  {
    hide RowOf;
    RowOfDistinct(db.positions, at);
    forall id ensures RowOf(db2.positions, id) == RowOf(db.positions, id) {
      RowOfReplaced(db.positions, db2.positions, at, row, id);
    }
    forall id, r | RowIs(db, id, r)
      ensures exists later :: RowIs(db2, id, later)
                              && (later == r || (r.status.Open? && !later.status.Open? && SameOpening(r, later)))
    {
      var later := db2.positions[RowOf(db.positions, id).value];
      assert RowIs(db2, id, later);
    }
    forall id, r | RowIs(db2, id, r) ensures if id == row.id then r == row else RowIs(db, id, r) {
      RowOfIs(db.positions, id);
    }
  }

  /** A full close: what a runner or a liquidation commits. */
  predicate IsFull(c: Closing) {
    c.result.closed && FullResult(c) && c.result.closedQty == c.position.qty
  }

  lemma CloseIsFull(a: SettlementProtocol.Action)
    requires (a.CloseFill? || a.Liquidate?) && ClosingOf(a).result.closed
    ensures IsFull(ClosingOf(a)) && ClosingOf(a).position == a.position && a.position.qty > 0.0
  {
    hide Execution.ExecuteClose;
    FullClosing(a);
    ClosesAll(a.position, a.snapshot, a.bps, a.feeRate);
  }

  lemma ClosesAll(p: Position, s: Snapshot, bps: int, feeRate: real)
    ensures var r := CloseInFull(p, s, bps, feeRate); (r.closed <==> p.qty > 0.0) && (r.closed ==> r.closedQty == p.qty)
  {
    hide Arithmetic.Times, Arithmetic.Ratio, ApplySlippage;
    if p.qty > 0.0 {
      Execution.FullClose(ToExecutionPosition(p), s, bps, feeRate);
    }
  }

  /** What the closing entry of a position posts. */
  lemma ClosingPosts(c: Closing)
    requires OnGrid(c.position.margin)
    ensures var p := ClosingPostings(c);
            forall k :: 0 <= k < |p| ==>
              && p[k].ref == (if c.forced then LiquidationRef(c.position.id) else FillRef(c.fill))
              && ClosingTells(p[k], RowAfter(c))
  {
    NegatedMoney(c.result.closeFee);
    MoneyTwice(c.result.grossPnl);
    MoneyFixedIffOnGrid(c.position.margin);
    hide Money, OnGrid;
  }

  lemma ClosedFill(db: Db, db2: Db, c: Closing)
    requires IsFull(c) && c.fill in db2.fills && db2.fills[c.fill] == ClosingFill(c)
    requires c.position.id in db2.orders && db2.orders[c.position.id].account == c.position.account
    requires QuantityOk(db2.orders[c.position.id], c.position) && c.position.status.Open?
    requires RowIs(db2, c.position.id, RowAfter(c))
    ensures FillOk(db2, c.fill)
  {
    MoneyFixedIffOnGrid(c.position.qty);
    hide RowIs, Money, OnGrid;
    assert FillTells(ClosingFill(c), db2.orders[c.position.id], RowAfter(c));
  }

  lemma ClosedPosting(db2: Db, c: Closing, p: Posting)
    requires c.fill in db2.fills && db2.fills[c.fill] == ClosingFill(c) && RowIs(db2, c.position.id, RowAfter(c))
    requires p.ref == (if c.forced then LiquidationRef(c.position.id) else FillRef(c.fill)) && ClosingTells(p, RowAfter(c))
    ensures PostingOk(db2, p)
  {
    hide RowIs, Money, ClosingTells;
  }

  lemma ClosingKeepsRecords(db: Db, c: Closing)
    requires DbOk(db) && RecordsOk(db) && Known(db, c.position) && IsFull(c) && CommitClosing(db, c).Ok?
    ensures RecordsOk(CommitClosing(db, c).value)
  {
    hide DbOk, CommitClosing, FillOk, PostingOk, RowsStay, FillTells, ClosingPostings, RowIs, RowOf, Money, OnGrid,
      Known, IsFull, QuantityOk, SameOpening;
    var db2, f, row, added := CommitClosing(db, c).value, ClosingFill(c), RowAfter(c), ClosingPostings(c);
    ClosingShape(db, c);
    var at := RowOf(db.positions, c.position.id).value;
    RowAfterTerminal(c);
    DistinctRows(db);
    ClosedMargin(db, c);
    ReplaceStays(db, db2, at, row);
    ClosingPosts(c);
    forall id | id in db2.orders ensures OrderOk(db2, id) {
      assert OrderOk(db, id);
      if id == row.id {
        ClosedQuantity(db2.orders[id], c);
      }
    }
    ClosedOrder(db, c);
    forall id | id in db2.fills ensures FillOk(db2, id) {
      if id == f.id {
        ClosedFill(db, db2, c);
      } else {
        assert FillOk(db, id);
        FilledHasRow(db, id);
        FillStays(db, db2, id);
      }
    }
    forall k | 0 <= k < |db2.postings| ensures PostingOk(db2, db2.postings[k]) {
      if k < |db.postings| {
        assert PostingOk(db, db.postings[k]);
        PostingStays(db, db2, db.postings[k]);
      } else {
        ClosedPosting(db2, c, added[k - |db.postings|]);
      }
    }
  }

  lemma ClosedQuantity(order: Order, c: Closing)
    requires QuantityOk(order, c.position) && RowAfter(c).account == order.account
    ensures QuantityOk(order, RowAfter(c))
  {
    hide Money, OnGrid;
  }

  lemma ClosedMargin(db: Db, c: Closing)
    requires DbOk(db) && Known(db, c.position) && db.positions[RowOf(db.positions, c.position.id).value] == c.position
    ensures OnGrid(c.position.margin) && RowAfter(c).account == c.position.account
    ensures c.position.id in db.orders
  {
    hide RowOf, HasFill, HasClosingPosting, OnGrid, FillsUnique, NoStrays, Balanced, RowsDistinct, Money;
    assert RowOk(db, c.position);
  }

  lemma ClosedOrder(db: Db, c: Closing)
    requires RecordsOk(db) && c.position.id in db.orders && RowIs(db, c.position.id, c.position)
    ensures db.orders[c.position.id].account == c.position.account && QuantityOk(db.orders[c.position.id], c.position)
  {
    hide RowIs, FillOk, PostingOk, QuantityOk;
    assert OrderOk(db, c.position.id);
  }

  // ---------------------------------------------------------------------------
  // Every run
  // ---------------------------------------------------------------------------

  /** Accounts and orders only grow, and an order keeps its account and what was filled. */
  ghost predicate OrdersGrow(db: Db, db2: Db) {
    && db2.fills == db.fills && db2.positions == db.positions
    && (forall a :: a in db.accounts ==> a in db2.accounts)
    && (forall id :: id in db.orders ==>
          id in db2.orders && db2.orders[id].account == db.orders[id].account
          && db2.orders[id].filledQty == db.orders[id].filledQty)
    && forall id :: id in db2.orders && id !in db.orders ==>
         db2.orders[id].account in db2.accounts && RowOf(db.positions, id).None?
  }

  lemma SamePositions(db: Db, db2: Db)
    requires db2.positions == db.positions
    ensures RowsStay(db, db2) && forall id, row :: RowIs(db2, id, row) <==> RowIs(db, id, row)
  {
    hide RowOf;
    forall id, row | RowIs(db, id, row)
      ensures exists later :: RowIs(db2, id, later)
                              && (later == row || (row.status.Open? && !later.status.Open? && SameOpening(row, later)))
    {
      assert RowIs(db2, id, row);
    }
  }

  lemma GrowingKeepsRecords(db: Db, db2: Db)
    requires RecordsOk(db) && OrdersGrow(db, db2)
    requires |db2.postings| >= |db.postings| && db2.postings[..|db.postings|] == db.postings
    requires forall k :: |db.postings| <= k < |db2.postings| ==>
               db2.postings[k].ref == NoRef && db2.postings[k].bucket.OpeningDeposit?
    ensures RecordsOk(db2)
  {
    hide FillOk, PostingOk, RowsStay, RowOf, RowIs;
    SamePositions(db, db2);
    forall id | id in db2.orders ensures OrderOk(db2, id) {
      if id in db.orders {
        assert OrderOk(db, id);
      } else {
        NoRowNoQuantity(db, id);
      }
    }
    forall id | id in db2.fills ensures FillOk(db2, id) {
      assert FillOk(db, id);
      FilledHasOrder(db, id);
      FillStays(db, db2, id);
    }
    forall k | 0 <= k < |db2.postings| ensures PostingOk(db2, db2.postings[k]) {
      if k < |db.postings| {
        assert db2.postings[k] == db2.postings[..|db.postings|][k] && PostingOk(db, db.postings[k]);
        PostingStays(db, db2, db.postings[k]);
      } else {
        DepositPosting(db2, db2.postings[k]);
      }
    }
  }

  lemma DepositPosting(db: Db, p: Posting)
    requires p.ref == NoRef && p.bucket.OpeningDeposit?
    ensures PostingOk(db, p)
  {
  }

  lemma FilledHasOrder(db: Db, id: FillId)
    requires id in db.fills && FillOk(db, id)
    ensures db.fills[id].order in db.orders
  {
  }

  lemma NoRowNoQuantity(db: Db, id: OrderId)
    requires RowOf(db.positions, id).None?
    ensures forall row :: !RowIs(db, id, row)
  {
  }

  /** Only a committed opening or closing does more than add accounts, orders and deposits. */
  lemma OtherGrows(s: System, a: SettlementProtocol.Action)
    requires DbOk(s.db) && Enabled(s, a) && !Opens(s, a) && !Closes(s, a)
    ensures var t := Step(s, a);
            && OrdersGrow(s.db, t.db) && |t.db.postings| >= |s.db.postings| && t.db.postings[..|s.db.postings|] == s.db.postings
            && forall k :: |s.db.postings| <= k < |t.db.postings| ==>
                 t.db.postings[k].ref == NoRef && t.db.postings[k].bucket.OpeningDeposit?
  {
    hide CommitOpening, CommitClosing, ClosingOf, Known, OpenRows, Money, FillsUnique, NoStrays, Balanced, RowsDistinct,
      HasFill, HasClosingPosting, MoneyRow, RowOf;
    if a.NewOrder? && a.order !in s.db.orders {
      NoRowYet(s.db, a.order);
    }
  }

  lemma NoRowYet(db: Db, id: OrderId)
    requires RowsOk(db) && id !in db.orders
    ensures RowOf(db.positions, id).None?
  {
    hide HasFill, HasClosingPosting, MoneyRow;
    forall i | 0 <= i < |db.positions| ensures db.positions[i].id != id {
      assert RowOk(db, db.positions[i]);
    }
  }

  lemma StepKeepsRecords(s: System, a: SettlementProtocol.Action)
    requires DbOk(s.db) && RecordsOk(s.db) && Enabled(s, a)
    ensures RecordsOk(Step(s, a).db)
  {
    hide DbOk, RecordsOk, CommitOpening, CommitClosing, ClosingOf, OrdersGrow, OpenRows, Known, IsFull;
    if Opens(s, a) {
      OpeningKeepsRecords(s.db, a.opening);
    } else if Closes(s, a) {
      CloseIsFull(a);
      ClosingKeepsRecords(s.db, ClosingOf(a));
      CommittedClose(s, a);
    } else {
      OtherGrows(s, a);
      GrowingKeepsRecords(s.db, Step(s, a).db);
    }
  }

  lemma CommittedClose(s: System, a: SettlementProtocol.Action)
    requires Closes(s, a)
    ensures Step(s, a).db == CommitClosing(s.db, ClosingOf(a)).value
  {
    hide CommitClosing, ClosingOf, Known;
    ClosingOfPosition(a);
    ClosingOpen(s.db, ClosingOf(a));
  }

  lemma ClosingOpen(db: Db, c: Closing)
    requires Known(db, c.position) && CommitClosing(db, c).Ok?
    ensures c.position.status.Open?
  {
    hide CommitClosing, Known;
    ClosingShape(db, c);
  }

  lemma {:induction false} RecordsInvariant(s: System, actions: seq<SettlementProtocol.Action>)
    requires DbOk(s.db) && RecordsOk(s.db) && Possible(s, actions)
    ensures DbOk(After(s, actions).db) && RecordsOk(After(s, actions).db)
    decreases |actions|
  {
    hide DbOk, RecordsOk, Enabled, Step;
    if actions != [] {
      StepKeepsDb(s, actions[0]);
      StepKeepsRecords(s, actions[0]);
      RecordsInvariant(Step(s, actions[0]), actions[1..]);
    }
  }

  lemma EmptyRecordsOk()
    ensures RecordsOk(EMPTY)
  {
  }

  /**
   In every run: a fill carries the price, the fee and the whole quantity of its order's opening or close
   as its position's row has them, and a posting the amount that belongs to its bucket.
   */
  lemma RecordsTell(actions: seq<SettlementProtocol.Action>)
    requires Possible(START, actions)
    ensures var db := After(START, actions).db;
            && (forall id :: id in db.fills ==>
                  var f := db.fills[id];
                  && f.order in db.orders && f.qty == db.orders[f.order].filledQty
                  && exists row :: RowIs(db, f.order, row)
                       && if f.isClose then row.closePrice == Some(f.price) && f.fee == row.exitFee
                          else f.price == row.entryPrice && f.fee == row.entryFee)
            && forall k :: 0 <= k < |db.postings| && db.postings[k].ref != NoRef ==>
                 exists id, row :: RowIs(db, id, row) && (OpeningTells(db.postings[k], row) || ClosingTells(db.postings[k], row))
  {
    hide RowIs, OpeningTells, ClosingTells, Possible, After, DbOk;
    EmptyDbOk();
    EmptyRecordsOk();
    RecordsInvariant(START, actions);
    var db := After(START, actions).db;
    forall id | id in db.fills
      ensures var f := db.fills[id];
              && f.order in db.orders && f.qty == db.orders[f.order].filledQty
              && exists row :: RowIs(db, f.order, row)
                   && if f.isClose then row.closePrice == Some(f.price) && f.fee == row.exitFee
                      else f.price == row.entryPrice && f.fee == row.entryFee
    {
      assert FillOk(db, id);
    }
    forall k | 0 <= k < |db.postings| && db.postings[k].ref != NoRef
      ensures exists id, row :: RowIs(db, id, row) && (OpeningTells(db.postings[k], row) || ClosingTells(db.postings[k], row))
    {
      assert PostingOk(db, db.postings[k]);
    }
  }

  // ---------------------------------------------------------------------------
  // What commits
  // ---------------------------------------------------------------------------

  /** A close under a new fill is refused exactly when its position is not open any more. */
  lemma ClosingCommitsExactly(db: Db, c: Closing)
    requires DbOk(db) && RecordsOk(db) && Known(db, c.position) && IsFull(c)
    ensures CommitClosing(db, c).Ok? <==>
            db.positions[RowOf(db.positions, c.position.id).value].status.Open? && c.fill !in db.fills
  {
    hide DbOk, RecordsOk, IsFull, Money, OnGrid, IsEntry, PostingsFit, ClosingPostings, RowOf, FillFits, ClosedRow;
    ClosingEntry(c);
    var row := db.positions[RowOf(db.positions, c.position.id).value];
    if row.status.Open? && c.fill !in db.fills {
      ClosingFillFits(db, c);
      ClosingPostingsFit(db, c);
    } else if c.fill in db.fills {
      TakenFill(db, c);
    }
  }

  lemma TakenFill(db: Db, c: Closing)
    requires c.fill in db.fills
    ensures !FillFits(db, ClosingFill(c))
  {
    hide Money;
  }

  lemma ClosingEntry(c: Closing)
    ensures IsEntry(ClosingPostings(c))
  {
    hide Money, IsEntry, ClosePostings;
    if c.forced {
      CloseEntry(c.position.account, c.event, LiquidationSource, LiquidationRef(c.position.id), c.result.closeFee,
                 Money(c.result.grossPnl), c.position.margin, true);
    } else {
      CloseEntry(c.position.account, c.event, FillSource, FillRef(c.fill), c.result.closeFee, Money(c.result.grossPnl),
                 Money(c.position.margin), false);
    }
  }

  lemma ClosingFillFits(db: Db, c: Closing)
    requires DbOk(db) && RecordsOk(db) && Known(db, c.position) && c.fill !in db.fills
    requires db.positions[RowOf(db.positions, c.position.id).value].status.Open?
    ensures FillFits(db, ClosingFill(c))
  {
    hide Money, DbOk, FillOk, PostingOk, RowOf, QuantityOk;
    var row := c.position;
    assert RowIs(db, row.id, row);
    RowHasOrder(db, row);
    assert OrderOk(db, row.id);
    forall id | id in db.fills ensures !(db.fills[id].quote == ClosingFill(c).quote && db.fills[id].order == row.id) {
      assert FillOk(db, id);
      QuoteOfOpen(db, id, row);
    }
  }

  lemma RowHasOrder(db: Db, row: Position)
    requires DbOk(db) && RowIs(db, row.id, row)
    ensures row.id in db.orders && !Fillable(db.orders[row.id].state)
    ensures !HasClosingPosting(db, row.id) || !row.status.Open?
  {
    hide HasFill, HasClosingPosting, MoneyRow, RowsDistinct, FillsUnique, NoStrays, Balanced, RowOf;
    assert RowOk(db, row);
  }

  lemma QuoteOfOpen(db: Db, id: FillId, row: Position)
    requires id in db.fills && FillOk(db, id) && RowIs(db, row.id, row) && row.status.Open?
    ensures db.fills[id].order == row.id ==> db.fills[id].quote.FillQuote?
  {
    hide RowOf;
  }

  lemma ClosingPostingsFit(db: Db, c: Closing)
    requires DbOk(db) && RecordsOk(db) && Known(db, c.position) && c.fill !in db.fills
    requires db.positions[RowOf(db.positions, c.position.id).value].status.Open?
    ensures PostingsFit(db.postings, ClosingPostings(c))
  {
    hide Money, DbOk, FillOk, OrderOk, RowOf, ClosingPostings, ClosingTells, OpeningTells, PostingOk;
    ClosingEntry(c);
    ClosingRefs(c);
    var added := ClosingPostings(c);
    assert RowIs(db, c.position.id, c.position);
    forall i, j | 0 <= i < |db.postings| && 0 <= j < |added| ensures !Clash(db.postings[i], added[j]) {
      assert PostingOk(db, db.postings[i]);
      NoPostingYet(db, db.postings[i], c);
    }
  }

  lemma NoPostingYet(db: Db, p: Posting, c: Closing)
    requires PostingOk(db, p) && c.fill !in db.fills && RowIs(db, c.position.id, c.position) && c.position.status.Open?
    ensures p.ref != FillRef(c.fill) && p.ref != LiquidationRef(c.position.id)
  {
    hide RowOf, ClosingTells, OpeningTells;
  }

  /**
   An opening under a new fill is refused exactly for an order that is not there, not the account's or not
   fillable, for a negative quantity or margin, for a balance that does not cover it, or for another open
   position of the account on the instrument.
   */
  lemma OpeningCommitsExactly(db: Db, o: Opening)
    requires DbOk(db) && RecordsOk(db) && o.fill !in db.fills
    ensures CommitOpening(db, o).Ok? <==>
            && o.order in db.orders && db.orders[o.order].account == o.account
            && db.orders[o.order].state in {Pending, Submitted}
            && Money(o.qty) >= 0.0 && Money(o.margin) >= 0.0
            && BalanceOf(db.postings, o.account) >= Money(o.margin) + Money(o.fee)
            && forall i :: 0 <= i < |db.positions| ==>
                 !(db.positions[i].status.Open? && db.positions[i].account == o.account
                   && db.positions[i].instrument == o.instrument)
  {
    hide DbOk, RecordsOk, Money, OnGrid, IsEntry, PostingsFit, OpeningPostings, RowOf, FillFits, BalanceOf, EventDelta;
    OpeningMoney(o, o.account);
    OpeningIsEntry(o);
    if o.order in db.orders && Fillable(db.orders[o.order].state) && db.orders[o.order].account == o.account {
      NewRow(db, o.order);
      OpeningFillFits(db, o);
      OpeningPostingsFit(db, o);
    }
  }

  lemma OpeningIsEntry(o: Opening)
    ensures IsEntry(OpeningPostings(o))
    ensures EventDelta(OpeningPostings(o)) == -Money(o.margin) - Money(o.fee)
  {
    OpenFlow(o.account, o.event, FillRef(o.fill), o.fee, Money(o.margin), o.account);
    MoneyTwice(o.margin);
    OpeningMoney(o, o.account);
  }

  /** A fillable order has no row yet. */
  lemma NewRow(db: Db, id: OrderId)
    requires DbOk(db) && id in db.orders && Fillable(db.orders[id].state)
    ensures RowOf(db.positions, id).None? && forall i :: 0 <= i < |db.positions| ==> db.positions[i].id != id
  {
    hide HasFill, HasClosingPosting, MoneyRow, RowsDistinct, FillsUnique, NoStrays, Balanced;
    forall i | 0 <= i < |db.positions| ensures db.positions[i].id != id {
      assert RowOk(db, db.positions[i]);
    }
  }

  lemma OpeningFillFits(db: Db, o: Opening)
    requires DbOk(db) && RecordsOk(db) && o.fill !in db.fills && RowOf(db.positions, o.order).None?
    requires o.order in db.orders && db.orders[o.order].account == o.account
    ensures FillFits(db, OpeningFill(o))
  {
    hide Money, DbOk, FillOk, PostingOk, RowOf;
    assert OrderOk(db, o.order);
    forall id | id in db.fills ensures db.fills[id].order != o.order {
      assert FillOk(db, id);
      FilledHasRow(db, id);
    }
  }

  lemma OpeningPostingsFit(db: Db, o: Opening)
    requires RecordsOk(db) && o.fill !in db.fills
    ensures PostingsFit(db.postings, OpeningPostings(o))
  {
    hide Money, FillOk, OrderOk, RowOf, OpeningPostings, ClosingTells, OpeningTells, PostingOk;
    OpeningIsEntry(o);
    OpeningRefs(o);
    var added := OpeningPostings(o);
    forall i, j | 0 <= i < |db.postings| && 0 <= j < |added| ensures !Clash(db.postings[i], added[j]) {
      assert PostingOk(db, db.postings[i]);
      NoFillPosting(db, db.postings[i], o.fill);
    }
  }

  lemma NoFillPosting(db: Db, p: Posting, fill: FillId)
    requires PostingOk(db, p) && fill !in db.fills
    ensures p.ref != FillRef(fill)
  {
  }

  // ---------------------------------------------------------------------------
  // What a close writes
  // ---------------------------------------------------------------------------

  /** Where a position is closed: at the bid for a long, at the ask for a short, slipped against it. */
  function MarketPrice(side: Side, s: Snapshot, bps: int): real {
    if side.Long? then s.bid * (10000 - bps) as real / 10000.0 else s.ask * (10000 + bps) as real / 10000.0
  }

  predicate NearMoney(x: real, exact: real) { -HALF_UNIT <= x - exact <= HALF_UNIT }

  /**
   A close that goes through leaves a row with nothing open, closed or liquidated as it was asked, whose
   price, result and exit fee are those of the market at which it was closed, rounded to the unit.
   */
  lemma ClosedAtMarket(s: System, a: SettlementProtocol.Action)
    requires DbOk(s.db) && Closes(s, a)
    ensures var p, price := a.position, MarketPrice(a.position.side, a.snapshot, a.bps);
            var base := Arithmetic.Times(p.qty, a.snapshot.contractSize);
            exists row :: RowIs(Step(s, a).db, p.id, row) && SameOpening(p, row) && row.qty == 0.0
              && row.status == (if a.Liquidate? then Liquidated else Closed)
              && row.closePrice.Some? && NearMoney(row.closePrice.value, price)
              && NearMoney(row.gross, Arithmetic.Times(base, if p.side.Long? then price - p.entryPrice else p.entryPrice - price))
              && NearMoney(row.exitFee, Arithmetic.Times(a.feeRate, Arithmetic.Times(base, price)))
  {
    hide DbOk, CommitClosing, ClosingOf, Closes, Step, RowOf, Arithmetic.Times, Money;
    ClosesKind(s, a);
    CommittedClose(s, a);
    ClosingRow(s, a);
    CloseMoney(a);
  }

  lemma ClosingRow(s: System, a: SettlementProtocol.Action)
    requires DbOk(s.db) && Closes(s, a)
    ensures var c := ClosingOf(a);
            c.result.closed && CommitClosing(s.db, c).Ok? && RowIs(CommitClosing(s.db, c).value, a.position.id, RowAfter(c))
    ensures var row := RowAfter(ClosingOf(a));
            SameOpening(a.position, row) && row.qty == 0.0 && row.status == if a.Liquidate? then Liquidated else Closed
  {
    hide DbOk, CommitClosing, CloseInFull, RowOf, Money;
    var c := ClosingOf(a);
    ClosingOfPosition(a);
    ClosingShape(s.db, c);
    RowAfterTerminal(c);
    DistinctRows(s.db);
    var at := RowOf(s.db.positions, c.position.id).value;
    ReplaceStays(s.db, CommitClosing(s.db, c).value, at, RowAfter(c));
  }

  lemma CloseMoney(a: SettlementProtocol.Action)
    requires a.CloseFill? || a.Liquidate?
    requires ClosingOf(a).result.closed
    ensures var p, price := a.position, MarketPrice(a.position.side, a.snapshot, a.bps);
            var base, row := Arithmetic.Times(p.qty, a.snapshot.contractSize), RowAfter(ClosingOf(a));
            && row.closePrice.Some? && NearMoney(row.closePrice.value, price)
            && NearMoney(row.gross, Arithmetic.Times(base, if p.side.Long? then price - p.entryPrice else p.entryPrice - price))
            && NearMoney(row.exitFee, Arithmetic.Times(a.feeRate, Arithmetic.Times(base, price)))
  {
    hide Arithmetic.Times, CloseInFull, Money, MarketPrice;
    var p, r := a.position, ClosingOf(a).result;
    ClosingOfPosition(a);
    assert r == CloseInFull(p, a.snapshot, a.bps, a.feeRate);
    EngineClose(p, a.snapshot, a.bps, a.feeRate);
    MoneyNear(r.closePrice);
    MoneyNear(r.grossPnl);
    MoneyNear(r.closeFee);
  }

  lemma EngineClose(p: Position, s: Snapshot, bps: int, feeRate: real)
    ensures var r, price := CloseInFull(p, s, bps, feeRate), MarketPrice(p.side, s, bps);
            var base := Arithmetic.Times(p.qty, s.contractSize);
            r.closed ==>
              && r.closePrice == price
              && r.grossPnl == Arithmetic.Times(base, if p.side.Long? then price - p.entryPrice else p.entryPrice - price)
              && r.closeFee == Arithmetic.Times(feeRate, Arithmetic.Times(base, price))
  {
    hide Execution.ExecuteClose, Arithmetic.Times;
    Execution.CloseAtMarket(ToExecutionPosition(p), s, Some(p.qty), bps, feeRate);
  }

  /** An opening that goes through leaves an open row of its order, day, instrument and side, each amount rounded to the unit. */
  lemma OpenedAs(s: System, a: SettlementProtocol.Action)
    requires Opens(s, a)
    ensures var o := a.opening;
            exists row :: RowIs(Step(s, a).db, o.order, row) && row.status.Open? && row.account == o.account && row.day == o.day
              && row.instrument == o.instrument && row.side == o.side && NearMoney(row.qty, o.qty)
              && NearMoney(row.entryPrice, o.price) && NearMoney(row.margin, o.margin) && NearMoney(row.entryFee, o.fee)
              && BookOf(Step(s, a), a.runner) == BookOf(s, a.runner)[o.order := row]
  {
    hide Opens, Step, Money, RowOf;
    OpensKind(s, a);
    var o, row := a.opening, OpeningPosition(a.opening);
    OpenStep(s, a);
    AppendStays(s.db, Step(s, a).db, row);
    MoneyNear(o.qty);
    MoneyNear(o.price);
    MoneyNear(o.margin);
    MoneyNear(o.fee);
  }
}
