/**
 The repository's settlement methods in the order they work: checks, then one statement after
 another, and a rollback when a constraint of the database refuses one of them.
 */
module Repository {
  import opened DayClose
  import opened Journal
  import opened Monetary
  import opened Settlement
  import opened Wrappers

  datatype Outcome = Returns | Raises(reason: string)

  class PaperRepository {
    var accounts: map<AccountId, real>
    var orders: map<OrderId, Order>
    var fills: map<FillId, Fill>
    var positions: seq<Position>
    var postings: seq<Posting>
    var days: Days

    /** The contents of the tables. */
    function Tables(): Db
      reads this
    {
      Db(accounts, orders, fills, positions, postings)
    }

    constructor ()
      ensures Tables() == EMPTY && days == map[]
    {
      days := map[];
      accounts, orders, fills, positions, postings := map[], map[], map[], [], [];
    }

    method Restore(saved: Db)
      modifies this
      ensures Tables() == saved && days == old(days)
    {
      accounts, orders, fills := saved.accounts, saved.orders, saved.fills;
      positions, postings := saved.positions, saved.postings;
    }

    method CreateAccount(account: AccountId, event: EventId, opening: real) returns (r: Outcome)
      modifies this
      ensures days == old(days)
      ensures match Settlement.CreateAccount(old(Tables()), account, event, opening)
              case Ok(after) => r.Returns? && Tables() == after
              case Err(_) => r.Raises? && Tables() == old(Tables())
      ensures r.Returns? ==> forall other ::
                BalanceOf(postings, other) == BalanceOf(old(postings), other) + if other == account then Money(opening) else 0.0
      ensures r.Raises? <==> account in old(accounts)
    {
      hide BalanceOf, Money;
      var deposit := Money(opening);
      if account in accounts {
        return Raises("duplicate account");
      }
      accounts := accounts[account := deposit];
      var posting := Posting(account, event, DepositSource, NoRef, OpeningDeposit, deposit);
      forall other ensures BalanceOf(postings + [posting], other)
                           == BalanceOf(postings, other) + if other == account then deposit else 0.0
      {
        BalanceAppend(postings, [posting], other);
        SingleFlow([posting], other);
      }
      postings := postings + [posting];
      return Returns;
    }

    method CreateOrder(id: OrderId, account: AccountId, day: DayId) returns (r: Outcome)
      modifies this
      ensures days == old(days)
      ensures match Settlement.CreateOrder(old(Tables()), id, account, day)
              case Ok(after) => r.Returns? && Tables() == after
              case Err(_) => r.Raises? && Tables() == old(Tables())
    {
      if id in orders || account !in accounts {
        return Raises("order constraint");
      }
      orders := orders[id := Order(account, day, Pending, 0.0)];
      return Returns;
    }

    method UpdateOrderState(id: OrderId, state: OrderState)
      modifies this
      ensures Tables() == Settlement.UpdateOrderState(old(Tables()), id, state) && days == old(days)
    {
      if id in orders {
        orders := orders[id := orders[id].(state := state)];
      }
    }

    /** Appends an entry posting by posting; false, with some of it written, when one breaks the unique key. */
    method InsertPostings(added: seq<Posting>) returns (ok: bool)
      modifies this`postings
      ensures ok <==> PostingsFit(old(postings), added)
      ensures ok ==> postings == old(postings) + added
    {
      ghost var stored := postings;
      for k := 0 to |added|
        invariant postings == stored + added[..k]
        invariant PostingsFit(stored, added[..k])
      {
        var p := added[k];
        if exists i :: 0 <= i < |postings| && Clash(postings[i], p) {
          ghost var i :| 0 <= i < |postings| && Clash(postings[i], p);
          assert i >= |stored| ==> postings[i] == added[i - |stored|];
          return false;
        }
        assert forall i :: 0 <= i < |stored| ==> stored[i] == postings[i];
        assert forall i :: 0 <= i < k ==> added[i] == postings[|stored| + i];
        postings := postings + [p];
        assert added[..k + 1] == added[..k] + [p];
      }
      assert added[..|added|] == added;
      return true;
    }

    method CommitOpenFill(order: OrderId, fill: Fill, position: Position, entry: seq<Posting>) returns (r: Outcome)
      modifies this
      ensures days == old(days)
      ensures match Settlement.CommitOpenFill(old(Tables()), order, fill, position, entry)
              case Ok(after) => r.Returns? && Tables() == after
              case Err(_) => r.Raises? && Tables() == old(Tables())
    {
      hide IsEntry, PostingsFit, FillFits, PositionFits, BalanceOf, Flow;
      if fill.order != order {
        return Raises("fill.order_id must match order_id");
      }
      if position.id != order {
        return Raises("position_id must equal its originating order_id");
      }
      if fill.account != position.account {
        return Raises("fill and position must belong to one account");
      }
      var validated := PostEntry(position.account, entry);
      if validated.Err? {
        return Raises(validated.reason);
      }
      var saved := Tables();
      var available := BalanceOf(postings, position.account);
      var delta := EventDelta(validated.value);
      if available + delta < 0.0 {
        return Raises("insufficient account balance at commit");
      }
      if order !in orders {
        return Raises("order not found");
      }
      if orders[order].account != position.account {
        return Raises("order account does not match fill account");
      }
      if !(orders[order].state.Pending? || orders[order].state.Submitted?) {
        return Raises("order is not fillable");
      }
      orders := orders[order := orders[order].(state := Filled, filledQty := fill.qty)];
      SameFit(saved, Tables(), fill);
      if !FillFits(Tables(), fill) {
        Restore(saved);
        return Raises("fill constraint");
      }
      fills := fills[fill.id := fill];
      var row := position.(status := Open, closePrice := None, gross := 0.0, net := 0.0, exitFee := 0.0);
      SamePlace(saved, Tables(), row);
      if !PositionFits(Tables(), row) {
        Restore(saved);
        return Raises("position constraint");
      }
      positions := positions + [row];
      var inserted := InsertPostings(validated.value);
      if !inserted {
        Restore(saved);
        return Raises("posting constraint");
      }
      return Returns;
    }

    method CommitPositionClose(id: PositionId, fill: Fill, price: real, gross: real, net: real, exitFee: real,
                               entry: seq<Posting>, status: PositionStatus) returns (r: Outcome)
      modifies this
      ensures days == old(days) && orders == old(orders)
      ensures match Settlement.CommitPositionClose(old(Tables()), id, fill, price, gross, net, exitFee, entry, status)
              case Ok(after) => r.Returns? && Tables() == after
              case Err(_) => r.Raises? && Tables() == old(Tables())
    {
      hide IsEntry, PostingsFit, FillFits, Money;
      if status.Open? {
        return Raises("close commit requires a terminal status");
      }
      if fill.order != id {
        return Raises("close fill must reference the originating order/position id");
      }
      var validated := PostEntry(fill.account, entry);
      if validated.Err? {
        return Raises(validated.reason);
      }
      var saved := Tables();
      var found := RowOf(positions, id);
      if found.None? {
        return Raises("position not found");
      }
      var i := found.value;
      if positions[i].account != fill.account {
        return Raises("position account does not match fill account");
      }
      if !positions[i].status.Open? {
        return Raises("position is not open");
      }
      if !FillFits(Tables(), fill) {
        return Raises("fill constraint");
      }
      fills := fills[fill.id := fill];
      positions := positions[i := positions[i].(qty := 0.0, status := status, closePrice := Some(Money(price)),
                                                gross := Money(gross), net := Money(net), exitFee := Money(exitFee))];
      var inserted := InsertPostings(validated.value);
      if !inserted {
        Restore(saved);
        return Raises("posting constraint");
      }
      return Returns;
    }

    /** A new idle day; raises when the day exists or its owner has an incomplete one. */
    method CreateDay(day: DayId, owner: int) returns (r: Outcome)
      modifies this`days
      ensures r.Returns? <==> day !in old(days)
                              && forall other :: other in old(days) && old(days)[other].owner == owner ==> !Incomplete(old(days)[other])
      ensures days == if r.Returns? then old(days)[day := Day(owner, Idle)] else old(days)
    {
      if day in days || exists other :: other in days && days[other].owner == owner && Incomplete(days[other]) {
        return Raises("uq_days_one_incomplete");
      }
      days := days[day := Day(owner, Idle)];
      return Returns;
    }

    /**
     Writes the state of a day, when it is there and in the expected state; raises when the owner
     would have two incomplete days.
     */
    method UpdateDayState(day: DayId, state: DayState, expected: Option<DayState>) returns (r: Result<bool>)
      modifies this`days
      ensures r.Ok? ==> (r.value <==> day in old(days) && (expected.Some? ==> old(days)[day].state == expected.value))
      ensures r.Ok? && r.value ==> MaySet(old(days), day, state)
      ensures r.Ok? && r.value ==> day in days && days == Set(old(days), day, state) && days[day].state == state
      ensures !(r.Ok? && r.value) ==> days == old(days)
      ensures r.Err? ==> !MaySet(old(days), day, state)
      ensures r.Err? <==>
              && day in old(days) && (expected.Some? ==> old(days)[day].state == expected.value) && state != DayClosed
              && exists other :: other in old(days) && other != day && old(days)[other].owner == old(days)[day].owner
                                 && old(days)[other].state != DayClosed
    {
      if day !in days {
        return Ok(false);
      }
      if expected.Some? && days[day].state != expected.value {
        return Ok(false);
      }
      if state != DayClosed
         && exists other :: other in days && other != day && days[other].owner == days[day].owner && Incomplete(days[other])
      {
        return Err("uq_days_one_incomplete");
      }
      days := days[day := days[day].(state := state)];
      return Ok(true);
    }

    /** Unfilled orders of a day. */
    method GetUnfilledOrdersByDay(day: DayId) returns (found: set<OrderId>)
      ensures found == set id | id in orders && orders[id].day == day && orders[id].state in {Pending, Submitted}
    {
      found := set id | id in orders && orders[id].day == day && Fillable(orders[id].state);
    }

    /** Days whose closing is due, `ended` being the days whose end time has passed, or was put off. */
    method GetDaysNeedingClosure(ended: set<DayId>) returns (due: set<DayId>)
      ensures forall day :: day in due <==>
                day in days && (days[day].state in {Closing, SettlementPending} || (days[day].state == Running && day in ended))
    {
      due := set day | day in days && MayBeDue(days[day]) && (days[day].state.Running? ==> day in ended);
    }

    /** Open positions of a trading day, in the order they were opened. */
    method GetOpenPositionsByDay(day: DayId) returns (found: seq<Position>)
      ensures forall p :: p in found <==> p in positions && p.day == day && p.status.Open?
    {
      found := [];
      for i := 0 to |positions|
        invariant forall p :: p in found <==> p in positions[..i] && p.day == day && p.status.Open?
      {
        assert positions[..i + 1] == positions[..i] + [positions[i]];
        if positions[i].day == day && positions[i].status.Open? {
          found := found + [positions[i]];
        }
      }
      assert positions[..|positions|] == positions;
    }
  }

  /** Writing an order moves no fill. */
  lemma SameFit(db: Db, db2: Db, f: Fill)
    requires db2 == db.(orders := db2.orders) && db2.orders.Keys == db.orders.Keys
    ensures FillFits(db2, f) <==> FillFits(db, f)
  {
  }

  lemma SamePlace(db: Db, db2: Db, p: Position)
    requires db2.positions == db.positions
    ensures PositionFits(db2, p) <==> PositionFits(db, p)
  {
  }
}
