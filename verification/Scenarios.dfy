/**
 Concrete runs.  Each begins with nothing and ends in a state that shows why a condition of a main
 result is needed, so that none of those conditions is about states that cannot arise.
 */
module Scenarios {
  import opened Arithmetic
  import opened DayClose
  import opened Journal
  import opened Market
  import opened Monetary
  import opened Records
  import opened Repository
  import opened Runner
  import opened RunnerBook
  import opened Settlement
  import opened Wrappers
  import Commands
  import Execution
  import SP = SettlementProtocol

  type Action = DayClose.Action

  const DAY: DayId := "D"

  // ---------------------------------------------------------------------------
  // A first position
  // ---------------------------------------------------------------------------

  function DepositPosting(o: SP.Opening, deposit: real): Posting {
    Posting(o.account, 0, DepositSource, NoRef, OpeningDeposit, Money(deposit))
  }

  /** The database after an account, an order and the order's fill. */
  function FirstDb(o: SP.Opening, deposit: real): Db {
    Db(map[o.account := Money(deposit)], map[o.order := Order(o.account, o.day, Filled, Money(o.qty))],
       map[o.fill := SP.OpeningFill(o)], [SP.OpeningPosition(o)], [DepositPosting(o, deposit)] + SP.OpeningPostings(o))
  }

  function FirstSystem(o: SP.Opening, deposit: real, runner: SP.RunnerId): SP.System {
    SP.System(FirstDb(o, deposit), map[runner := map[o.order := SP.OpeningPosition(o)]])
  }

  /** The opening has a size and a margin, and the deposit pays for it. */
  predicate Affordable(o: SP.Opening, deposit: real) {
    Money(o.qty) > 0.0 && Money(o.margin) >= 0.0 && Money(o.margin) + Money(o.fee) <= Money(deposit)
  }

  lemma NewAccountStep(o: SP.Opening, deposit: real)
    ensures SP.Step(SP.START, SP.NewAccount(o.account, 0, deposit)) ==
            SP.System(Db(map[o.account := Money(deposit)], map[], map[], [], [DepositPosting(o, deposit)]), map[])
  {
    hide Money;
  }

  lemma NewOrderStep(s: SP.System, o: SP.Opening)
    requires o.account in s.db.accounts && o.order !in s.db.orders
    ensures SP.Step(s, SP.NewOrder(o.order, o.account, o.day)) ==
            s.(db := s.db.(orders := s.db.orders[o.order := Order(o.account, o.day, Pending, 0.0)]))
  {
  }

  lemma FirstFill(o: SP.Opening, deposit: real, runner: SP.RunnerId)
    requires Affordable(o, deposit)
    ensures var db := Db(map[o.account := Money(deposit)], map[o.order := Order(o.account, o.day, Pending, 0.0)], map[], [],
                         [DepositPosting(o, deposit)]);
            SP.CommitOpening(db, o) == Ok(FirstDb(o, deposit))
  {
    hide Money, OnGrid, BalanceOf, EventDelta;
    SP.OpeningMoney(o, o.account);
    OpenFlow(o.account, o.event, FillRef(o.fill), o.fee, Money(o.margin), o.account);
    SP.MoneyTwice(o.margin);
    SingleFlow([DepositPosting(o, deposit)], o.account);
    var db := Db(map[o.account := Money(deposit)], map[o.order := Order(o.account, o.day, Pending, 0.0)], map[], [],
                         [DepositPosting(o, deposit)]);
    assert IsEntry(SP.OpeningPostings(o)) && PostingsFit(db.postings, SP.OpeningPostings(o));
    assert SP.CommitOpening(db, o).Ok?;
    var after := SP.CommitOpening(db, o).value;
    assert after.positions == [SP.OpeningPosition(o)] && after.fills == FirstDb(o, deposit).fills;
    assert after.orders == FirstDb(o, deposit).orders;
  }

  /** From nothing to one open position, remembered by the runner that opened it. */
  lemma FirstOpening(o: SP.Opening, deposit: real, runner: SP.RunnerId)
    requires Affordable(o, deposit)
    ensures var s1 := SP.Step(SP.START, SP.NewAccount(o.account, 0, deposit));
            var s2 := SP.Step(s1, SP.NewOrder(o.order, o.account, o.day));
            SP.Step(s2, SP.OpenFill(runner, o)) == FirstSystem(o, deposit, runner)
  {
    hide Money, SP.CommitOpening, SP.CommitClosing, SP.ClosingOf, SP.OpeningPosition, SP.OpeningPostings;
    NewAccountStep(o, deposit);
    var s1 := SP.Step(SP.START, SP.NewAccount(o.account, 0, deposit));
    NewOrderStep(s1, o);
    var s2 := SP.Step(s1, SP.NewOrder(o.order, o.account, o.day));
    assert s2.db == Db(map[o.account := Money(deposit)], map[o.order := Order(o.account, o.day, Pending, 0.0)], map[], [],
                       [DepositPosting(o, deposit)]);
    FirstFill(o, deposit, runner);
  }

  // ---------------------------------------------------------------------------
  // Its close
  // ---------------------------------------------------------------------------

  /** A first position can be closed by anyone, by hand or by force, under a new fill. */
  lemma FirstClosing(o: SP.Opening, deposit: real, c: SP.Closing)
    requires Affordable(o, deposit) && c.position == SP.OpeningPosition(o) && c.fill != o.fill
    ensures SP.Known(FirstDb(o, deposit), c.position) && SP.CommitClosing(FirstDb(o, deposit), c).Ok?
    ensures SP.CommitClosing(FirstDb(o, deposit), c).value.positions == [SP.RowAfter(c)]
  {
    hide Money, OnGrid, SP.RowAfter, SP.OpeningPostings, SP.ClosingPostings;
    var db := FirstDb(o, deposit);
    assert RowOf(db.positions, o.order) == Some(0);
    assert SP.Known(db, c.position);
    ClosingFits(o, deposit, c);
    SP.ClosingShape(db, c);
  }

  lemma ClosingFits(o: SP.Opening, deposit: real, c: SP.Closing)
    requires Affordable(o, deposit) && c.position == SP.OpeningPosition(o) && c.fill != o.fill
    ensures SP.CommitClosing(FirstDb(o, deposit), c).Ok?
  {
    hide Money, OnGrid;
    var r := c.result;
    CloseEntry(c.position.account, c.event, FillSource, FillRef(c.fill), r.closeFee, Money(r.grossPnl), Money(c.position.margin),
               false);
    CloseEntry(c.position.account, c.event, LiquidationSource, LiquidationRef(c.position.id), r.closeFee, Money(r.grossPnl),
               c.position.margin, true);
    SP.ClosingRefs(c);
    var db, added := FirstDb(o, deposit), SP.ClosingPostings(c);
    assert RowOf(db.positions, o.order) == Some(0);
    forall i, j | 0 <= i < |db.postings| && 0 <= j < |added| ensures !Clash(db.postings[i], added[j]) {
      assert db.postings[i].ref in {NoRef, FillRef(o.fill)};
    }
    assert FillFits(db, SP.ClosingFill(c)) && PostingsFit(db.postings, added);
  }

  lemma ClosesInFull(o: SP.Opening, s: Snapshot, bps: int, feeRate: real)
    requires Money(o.qty) > 0.0
    ensures SP.CloseInFull(SP.OpeningPosition(o), s, bps, feeRate).closed
  {
    hide Times, Ratio, Money;
    Execution.FullClose(SP.ToExecutionPosition(SP.OpeningPosition(o)), s, bps, feeRate);
  }

  /** Liquidating a first position, or closing it from another runner, leaves its runner with a stale entry. */
  lemma FirstGoesStale(o: SP.Opening, deposit: real, runner: SP.RunnerId, a: SP.Action)
    requires Affordable(o, deposit) && (a.CloseFill? || a.Liquidate?) && a.position == SP.OpeningPosition(o)
    requires a.fill != o.fill && (a.CloseFill? ==> a.runner != runner)
    ensures var s := FirstSystem(o, deposit, runner);
            && SP.Enabled(s, a) && ClosedElsewhere(s, a, runner) && IsStale(SP.Step(s, a), runner, SP.OpeningPosition(o))
            && Within(s.db, SP.BookOf(s, runner)) && !Within(SP.Step(s, a).db, SP.BookOf(SP.Step(s, a), runner))
  {
    hide Money, SP.CommitClosing, SP.CloseInFull, SP.RowAfter, SP.OpeningPostings, SP.Step;
    var s, p := FirstSystem(o, deposit, runner), SP.OpeningPosition(o);
    ClosesInFull(o, a.snapshot, a.bps, a.feeRate);
    FirstClosing(o, deposit, SP.ClosingOf(a));
    assert RowOf(s.db.positions, p.id) == Some(0);
    assert OpenRow(s.db, p.id, p);
    assert ClosedElsewhere(s, a, runner);
    ClosedElsewhereIsStale(s, a, runner);
    WithinExactly(s, a, runner);
  }

  // ---------------------------------------------------------------------------
  // Runs of settlement
  // ---------------------------------------------------------------------------

  function FirstRun(o: SP.Opening, deposit: real, runner: SP.RunnerId): seq<SP.Action> {
    [SP.NewAccount(o.account, 0, deposit), SP.NewOrder(o.order, o.account, o.day), SP.OpenFill(runner, o)]
  }

  lemma RunOfFour(a: SP.Action, b: SP.Action, c: SP.Action, d: SP.Action)
    requires var s1 := SP.Step(SP.START, a); var s2 := SP.Step(s1, b); var s3 := SP.Step(s2, c);
             SP.Enabled(SP.START, a) && SP.Enabled(s1, b) && SP.Enabled(s2, c) && SP.Enabled(s3, d)
    ensures var run := [a, b, c, d];
            && SP.Possible(SP.START, run)
            && SP.After(SP.START, run) == SP.Step(SP.Step(SP.Step(SP.Step(SP.START, a), b), c), d)
  {
    hide SP.Step, SP.Enabled;
    var s1 := SP.Step(SP.START, a);
    var s2 := SP.Step(s1, b);
    var s3 := SP.Step(s2, c);
    assert [a, b, c, d][1..] == [b, c, d] && [b, c, d][1..] == [c, d] && [c, d][1..] == [d] && [d][1..] == [];
    assert SP.Possible(s3, [d]) && SP.After(s3, [d]) == SP.Step(s3, d);
    assert SP.Possible(s2, [c, d]) && SP.After(s2, [c, d]) == SP.Step(s3, d);
    assert SP.Possible(s1, [b, c, d]) && SP.After(s1, [b, c, d]) == SP.Step(s3, d);
  }

  /** A fourth step after the first opening. */
  lemma FirstRunThen(o: SP.Opening, deposit: real, runner: SP.RunnerId, a: SP.Action)
    requires Affordable(o, deposit) && SP.Enabled(FirstSystem(o, deposit, runner), a)
    ensures var run := FirstRun(o, deposit, runner) + [a];
            SP.Possible(SP.START, run) && SP.After(SP.START, run) == SP.Step(FirstSystem(o, deposit, runner), a)
  {
    hide SP.Step, SP.Known, Money;
    FirstOpening(o, deposit, runner);
    var run := FirstRun(o, deposit, runner);
    assert run + [a] == [run[0], run[1], run[2], a];
    RunOfFour(run[0], run[1], run[2], a);
  }

  /** From nothing: a position is opened, and closed from elsewhere; its runner goes on remembering it. */
  lemma StaleRun(o: SP.Opening, deposit: real, runner: SP.RunnerId, a: SP.Action)
    requires Affordable(o, deposit) && (a.CloseFill? || a.Liquidate?) && a.position == SP.OpeningPosition(o)
    requires a.fill != o.fill && (a.CloseFill? ==> a.runner != runner)
    ensures var run := FirstRun(o, deposit, runner) + [a];
            && SP.Possible(SP.START, run) && IsStale(SP.After(SP.START, run), runner, SP.OpeningPosition(o))
            && !OwnCloses(SP.START, run, runner)
  {
    hide SP.Step, SP.Enabled, IsStale, Money, Affordable, ClosedElsewhere, SP.OpeningPosition;
    FirstGoesStale(o, deposit, runner, a);
    FirstRunThen(o, deposit, runner, a);
    FirstOpening(o, deposit, runner);
    var run := FirstRun(o, deposit, runner);
    var s1 := SP.Step(SP.START, run[0]);
    var s2 := SP.Step(s1, run[1]);
    var s3 := SP.Step(s2, run[2]);
    assert (run + [a])[1..][1..][1..] == [a];
    assert !OwnCloses(s3, [a], runner);
    assert !OwnCloses(s2, (run + [a])[2..], runner);
    assert !OwnCloses(s1, (run + [a])[1..], runner);
  }

  const UNIT: real := 1.0 / GRID

  /** One contract of size 1 bought at one unit of money, free of margin and fee. */
  const CHEAP := SP.Opening(2, 1, DAY, "BTC-USDT", Long, UNIT, 1.0, 0.0, 0.0, 3, 4, 5)

  /** A market at 2.4 units. */
  const UP := Snapshot(2.4 * UNIT, 2.4 * UNIT, 2.4 * UNIT, 2.4 * UNIT, 1.0, 1.0, None)

  /** Sold there at a fee of a quarter, which is 0.6 units. */
  const SALE := SP.CloseFill(1, SP.OpeningPosition(CHEAP), UP, 0, 0.25, 6, 7, 8)

  lemma CheapMoney()
    ensures Money(UNIT) == UNIT && Money(1.0) == 1.0 && Money(0.0) == 0.0
    ensures Money(1.4 * UNIT) == UNIT && Money(0.6 * UNIT) == UNIT && Money(0.8 * UNIT) == UNIT
  {
  }

  lemma SaleResult()
    ensures var r := SP.ClosingOf(SALE).result;
            r.closed && r.grossPnl == 1.4 * UNIT && r.closeFee == 0.6 * UNIT && r.realizedNet == 0.8 * UNIT
  {
    CheapMoney();
    assert Ratio(1.0, 1.0) == 1.0;
  }

  /** From nothing: one sale after which the balance with the stored net is off by a whole unit. */
  lemma NetColumnOffByOne()
    ensures var run := FirstRun(CHEAP, 0.0, 1) + [SALE];
            SP.Possible(SP.START, run)
            && var db := SP.After(SP.START, run).db;
               && SP.ClosedCount(db.positions, 1) == 1
               && SP.Deposit(db, 1) + SP.NetWorth(db.positions, 1) - BalanceOf(db.postings, 1) == 1.0 / GRID
  {
    hide SP.Step, SP.CommitClosing, SP.CommitOpening, SP.CloseInFull, Money, Execution.ExecuteClose, BalanceOf,
      SP.Possible, SP.After,
      RowOf;
    CheapMoney();
    SaleResult();
    var c := SP.ClosingOf(SALE);
    SP.ClosingOfPosition(SALE);
    FirstClosing(CHEAP, 0.0, c);
    FirstRunThen(CHEAP, 0.0, 1, SALE);
    var run := FirstRun(CHEAP, 0.0, 1) + [SALE];
    SP.BalanceConserved(run, 1);
    SaleStep();
    SaleWorth();
  }

  lemma SaleStep()
    requires Affordable(CHEAP, 0.0) && SP.ClosingOf(SALE).result.closed
    requires SP.CommitClosing(FirstDb(CHEAP, 0.0), SP.ClosingOf(SALE)).Ok?
    ensures SP.Step(FirstSystem(CHEAP, 0.0, 1), SALE).db == SP.CommitClosing(FirstDb(CHEAP, 0.0), SP.ClosingOf(SALE)).value
  {
    hide SP.CommitClosing, SP.ClosingOf, Money;
  }

  lemma SaleWorth()
    ensures var rows := [SP.RowAfter(SP.ClosingOf(SALE))];
            SP.NetWorth(rows, 1) == UNIT && SP.RowsWorth(rows, 1) == 0.0 && SP.ClosedCount(rows, 1) == 1
  {
    hide SP.CloseInFull, Money;
    CheapMoney();
    SaleResult();
    var row := SP.RowAfter(SP.ClosingOf(SALE));
    assert [row][..0] == [];
  }

  // ---------------------------------------------------------------------------
  // Runs of one day
  // ---------------------------------------------------------------------------

  const FINISH: Commands.CommandId := 7

  function FinishCommand(status: Commands.Status, at: int): Commands.Command {
    Commands.NewCommand(1, FinishKey(DAY), "finish_day", Some(DAY), map[], None, 0).(status := status, updatedAt := at)
  }

  /** One owner with one day and its finish command. */
  function Day1(sys: SP.System, state: DayState, status: Commands.Status, at: int, phases: map<Job, Phase>,
                clean: set<DayId>): World {
    World(sys, map[DAY := Day(1, state)], map[FINISH := FinishCommand(status, at)], phases, clean, {})
  }

  /** A run from nothing leads to `w`, and no start command of it reaches a finished day. */
  ghost predicate Leads(actions: seq<Action>, w: World) {
    Possible(DAWN, actions) && After(DAWN, actions) == w && NoLateStart(DAWN, actions)
  }

  ghost predicate NoLateStart(w: World, actions: seq<Action>)
    requires Possible(w, actions)
    decreases |actions|
  {
    actions == [] || (!LateStart(w, actions[0]) && NoLateStart(Step(w, actions[0]), actions[1..]))
  }

  lemma {:induction false} PossibleSnoc(w: World, actions: seq<Action>, a: Action)
    requires Possible(w, actions) && Enabled(After(w, actions), a)
    ensures Possible(w, actions + [a]) && After(w, actions + [a]) == Step(After(w, actions), a)
    ensures NoLateStart(w, actions) && !LateStart(After(w, actions), a) ==> NoLateStart(w, actions + [a])
    decreases |actions|
  {
    hide Step, Enabled, LateStart;
    if actions == [] {
      assert [a][1..] == [] && actions + [a] == [a];
      assert Possible(Step(w, a), []);
    } else {
      assert (actions + [a])[1..] == actions[1..] + [a];
      PossibleSnoc(Step(w, actions[0]), actions[1..], a);
    }
  }

  lemma Extend(actions: seq<Action>, w: World, a: Action)
    requires Leads(actions, w) && Enabled(w, a) && !LateStart(w, a)
    ensures Leads(actions + [a], Step(w, a))
  {
    hide Step, Enabled, LateStart;
    PossibleSnoc(DAWN, actions, a);
  }

  lemma BeginDay() returns (actions: seq<Action>)
    ensures Leads(actions, DAWN.(days := map[DAY := Day(1, Running)])) && actions == [NewDay(DAY, 1), StartDay(DAY)]
  {
    hide SP.Step, SP.Enabled, DayHasOpen;
    assert Leads([], DAWN);
    Extend([], DAWN, NewDay(DAY, 1));
    assert [] + [NewDay(DAY, 1)] == [NewDay(DAY, 1)];
    var w := Step(DAWN, NewDay(DAY, 1));
    assert w == DAWN.(days := map[DAY := Day(1, Idle)]);
    assert !LateStart(w, StartDay(DAY)) by {
      assert forall id :: !Finished(w, id);
    }
    Extend([NewDay(DAY, 1)], w, StartDay(DAY));
    assert Step(w, StartDay(DAY)) == DAWN.(days := map[DAY := Day(1, Running)]);
    actions := [NewDay(DAY, 1)] + [StartDay(DAY)];
    assert actions == [NewDay(DAY, 1), StartDay(DAY)];
  }

  /** From nothing to a running day with one open position, which runner 1 remembers. */
  lemma UntilOpened() returns (actions: seq<Action>)
    ensures Leads(actions, DAWN.(days := map[DAY := Day(1, Running)], sys := Opened())) && NoSweep(actions)
  {
    hide Step, Enabled, LateStart, Leads, SP.Step, DayHasOpen, NoneRemembered, MergeDay, Money, SP.OpeningPosition,
      SP.OpeningPostings;
    BoughtAffordable();
    FirstOpening(BOUGHT, 0.0, 1);
    actions := BeginDay();
    var w := DAWN.(days := map[DAY := Day(1, Running)]);
    actions, w := TradeNext(actions, w, SP.NewAccount(1, 0, 0.0));
    actions, w := TradeNext(actions, w, SP.NewOrder(2, 1, DAY));
    actions, w := TradeNext(actions, w, SP.OpenFill(1, BOUGHT));
    assert w.sys == Opened();
  }

  predicate NoSweep(actions: seq<Action>) { forall i :: 0 <= i < |actions| ==> !actions[i].Sweep? }

  lemma SubmitAt(w: World)
    requires w.days == map[DAY := Day(1, Running)] && w.rows == map[] && w.phases == map[] && w.clean == w.dirty == {}
    ensures Enabled(w, SubmitFinish(DAY, FINISH, 0))
    ensures Step(w, SubmitFinish(DAY, FINISH, 0)) == Day1(w.sys, Running, Commands.Accepted, 0, map[], {})
  {
  }

  lemma ClaimAt(sys: SP.System, state: DayState, at: int, phases: map<Job, Phase>, clean: set<DayId>, r: RunnerId, now: int)
    requires Job(r, FINISH) !in phases
    ensures var w := Day1(sys, state, Commands.Accepted, at, phases, clean);
            && Enabled(w, Claim(r, FINISH, now))
            && Step(w, Claim(r, FINISH, now)) == Day1(sys, state, Commands.Processing, now, phases[Job(r, FINISH) := Taken], clean)
  {
  }

  lemma SweepAt(sys: SP.System, state: DayState, at: int, phases: map<Job, Phase>, clean: set<DayId>, now: int, maxAge: int)
    requires at < now - maxAge
    ensures var w := Day1(sys, state, Commands.Processing, at, phases, clean);
            && Enabled(w, Sweep(now, maxAge))
            && Step(w, Sweep(now, maxAge)) == Day1(sys, state, Commands.Accepted, now, phases, clean)
  {
  }

  lemma MarkAt(sys: SP.System, state: DayState, status: Commands.Status, at: int, phases: map<Job, Phase>,
               clean: set<DayId>, r: RunnerId)
    requires Job(r, FINISH) in phases && phases[Job(r, FINISH)] == Taken
    ensures var w := Day1(sys, state, status, at, phases, clean);
            && Enabled(w, Mark(r, FINISH, false))
            && Step(w, Mark(r, FINISH, false)) == Day1(sys, Closing, status, at, phases[Job(r, FINISH) := Marked], clean)
  {
  }

  lemma MergeAt(sys: SP.System, state: DayState, status: Commands.Status, at: int, phases: map<Job, Phase>,
                clean: set<DayId>, r: RunnerId)
    requires Job(r, FINISH) in phases && phases[Job(r, FINISH)] == Marked
    ensures var w := Day1(sys, state, status, at, phases, clean);
            && Enabled(w, Merge(r, FINISH, true))
            && Step(w, Merge(r, FINISH, true))
               == Day1(MergeDay(sys, r, DAY), state, status, at, phases[Job(r, FINISH) := Merged(true)], clean)
  {
  }

  lemma CloseDayAt(sys: SP.System, state: DayState, status: Commands.Status, at: int, phases: map<Job, Phase>, clean: set<DayId>,
                   r: RunnerId)
    requires Job(r, FINISH) in phases && phases[Job(r, FINISH)] == Merged(true)
    requires NoneRemembered(SP.BookOf(sys, r), DAY) && !DayHasOpen(sys.db, DAY)
    ensures var w := Day1(sys, state, status, at, phases, clean);
            && Enabled(w, CloseDay(r, FINISH))
            && Step(w, CloseDay(r, FINISH)) == Day1(sys, DayClosed, status, at, phases[Job(r, FINISH) := Done], clean + {DAY})
  {
  }

  lemma SettleAt(sys: SP.System, state: DayState, at: int, phases: map<Job, Phase>, clean: set<DayId>, r: RunnerId,
                 now: int)
    requires Job(r, FINISH) in phases && phases[Job(r, FINISH)] == Done
    ensures var w := Day1(sys, state, Commands.Processing, at, phases, clean);
            && Enabled(w, Settle(r, FINISH, false, now))
            && Step(w, Settle(r, FINISH, false, now))
               == Day1(sys, state, Commands.Completed, now, phases - {Job(r, FINISH)}, clean)
  {
  }

  lemma TradeAt(w: World, a: SP.Action)
    requires SP.Enabled(w.sys, a) && !a.Crash?
    ensures Enabled(w, Trade(a)) && Step(w, Trade(a)) == w.(sys := SP.Step(w.sys, a))
  {
  }

  /**
   From nothing: a day is started, finished and closed, and its finish command completed; then a start
   command arrives, and the day is orphaned.
   */
  lemma LateStartRun() returns (actions: seq<Action>)
    ensures Possible(DAWN, actions + [StartDay(DAY)]) && Orphaned(After(DAWN, actions + [StartDay(DAY)]), DAY, FINISH)
    ensures Possible(DAWN, actions) && NoLateStart(DAWN, actions) && LateStart(After(DAWN, actions), StartDay(DAY))
  {
    hide Step, Enabled, LateStart, SP.Step, DayHasOpen, NoneRemembered, MergeDay;
    var one := Job(1, FINISH);
    actions := BeginDay();
    var w := DAWN.(days := map[DAY := Day(1, Running)]);
    SubmitAt(w);
    actions := Next(actions, w, SubmitFinish(DAY, FINISH, 0));
    var none: map<Job, Phase> := map[];
    ClaimAt(SP.START, Running, 0, none, {}, 1, 0);
    actions := Next(actions, Day1(SP.START, Running, Commands.Accepted, 0, none, {}), Claim(1, FINISH, 0));
    var p1 := none[one := Taken];
    MarkAt(SP.START, Running, Commands.Processing, 0, p1, {}, 1);
    actions := Next(actions, Day1(SP.START, Running, Commands.Processing, 0, p1, {}), Mark(1, FINISH, false));
    var p2 := p1[one := Marked];
    MergeAt(SP.START, Closing, Commands.Processing, 0, p2, {}, 1);
    actions := Next(actions, Day1(SP.START, Closing, Commands.Processing, 0, p2, {}), Merge(1, FINISH, true));
    var p3, sys := p2[one := Merged(true)], MergeDay(SP.START, 1, DAY);
    NothingThere();
    CloseDayAt(sys, Closing, Commands.Processing, 0, p3, {}, 1);
    actions := Next(actions, Day1(sys, Closing, Commands.Processing, 0, p3, {}), CloseDay(1, FINISH));
    var p4 := p3[one := Done];
    SettleAt(sys, DayClosed, 0, p4, {} + {DAY}, 1, 0);
    actions := Next(actions, Day1(sys, DayClosed, Commands.Processing, 0, p4, {} + {DAY}), Settle(1, FINISH, false, 0));
    var closed := Day1(sys, DayClosed, Commands.Completed, 0, p4 - {one}, {} + {DAY});
    LateStartOrphans(closed, DAY, FINISH);
    StartEnabled(closed);
    PossibleSnoc(DAWN, actions, StartDay(DAY));
  }

  lemma StartEnabled(w: World)
    ensures Enabled(w, StartDay(DAY))
  {
  }

  /** One more step that is no start command. */
  lemma Next(actions: seq<Action>, w: World, a: Action) returns (longer: seq<Action>)
    requires Leads(actions, w) && Enabled(w, a) && !a.StartDay?
    ensures longer == actions + [a] && Leads(longer, Step(w, a))
  {
    hide Step, Enabled, Leads;
    NotAStart(w, a);
    Extend(actions, w, a);
    longer := actions + [a];
  }

  lemma NotAStart(w: World, a: Action)
    requires !a.StartDay?
    ensures !LateStart(w, a)
  {
  }

  lemma NothingThere()
    ensures var sys := MergeDay(SP.START, 1, DAY); NoneRemembered(SP.BookOf(sys, 1), DAY) && !DayHasOpen(sys.db, DAY)
  {
  }

  // ---------------------------------------------------------------------------
  // The second handler
  // ---------------------------------------------------------------------------

  /** A position of the day, as runner 1 opens it. */
  const BOUGHT := SP.Opening(2, 1, DAY, "BTC-USDT", Long, 1.0, 1.0, 0.0, 0.0, 3, 4, 5)

  const MARKET := Snapshot(1.0, 1.0, 1.0, 1.0, 1.0, 1.0, None)

  /** Its close by runner 1 while the day is being closed, and the attempt of runner 2 to close its copy. */
  const SOLD := SP.CloseFill(1, SP.OpeningPosition(BOUGHT), MARKET, 0, 0.0, 6, 7, 8)

  const SOLD_AGAIN := SP.CloseFill(2, SP.OpeningPosition(BOUGHT), MARKET, 0, 0.0, 9, 10, 11)

  function Opened(): SP.System { FirstSystem(BOUGHT, 0.0, 1) }

  /** Runner 2 has started and loaded the position. */
  ghost function Shared(): SP.System { SP.Step(Opened(), SP.Recover(2, true)) }

  ghost function Sold(): SP.System { SP.Step(MergeDay(Shared(), 1, DAY), SOLD) }

  lemma BoughtAffordable()
    ensures Affordable(BOUGHT, 0.0)
  {
  }

  /** Both runners remember the position, which is the only row. */
  lemma SharedBooks()
    ensures var s := MergeDay(Shared(), 1, DAY);
            && s.db == FirstDb(BOUGHT, 0.0)
            && SP.BookOf(s, 1) == SP.BookOf(s, 2) == map[2 := SP.OpeningPosition(BOUGHT)]
  {
    hide Money, SP.Step, SP.OpenRows, DayRows, SP.OpeningPosition, MergeDay;
    var p := SP.OpeningPosition(BOUGHT);
    BoughtShape();
    OneRow(p, DAY);
    RecoverStep(Opened(), 2, true);
    MergedBook(Shared(), 1, 1, DAY);
    MergedBook(Shared(), 1, 2, DAY);
    assert map[] + map[2 := p] == map[2 := p] == map[2 := p] + map[2 := p];
  }

  lemma BoughtShape()
    ensures var p := SP.OpeningPosition(BOUGHT); p.id == 2 && p.day == DAY && p.status.Open?
  {
  }

  /** One row as what a recovery and a day's read make of it. */
  lemma OneRow(p: Position, day: DayId)
    ensures SP.OpenRows([p]) == if p.status.Open? then map[p.id := p] else map[]
    ensures p.day == day || !p.status.Open? ==> DayRows([p], day) == SP.OpenRows([p])
  {
    assert [p][..0] == [];
  }

  lemma MergedBook(sys: SP.System, runner: RunnerId, other: RunnerId, day: DayId)
    ensures var t := MergeDay(sys, runner, day);
            && t.db == sys.db
            && SP.BookOf(t, other) ==
               if other == runner then SP.BookOf(sys, runner) + DayRows(sys.db.positions, day) else SP.BookOf(sys, other)
  {
    hide DayRows;
  }

  /** Runner 1 closes it; the row is closed, runner 1 forgets it, runner 2 does not. */
  lemma SoldBooks()
    ensures SP.Enabled(MergeDay(Shared(), 1, DAY), SOLD)
    ensures NoneRemembered(SP.BookOf(Sold(), 1), DAY) && !DayHasOpen(Sold().db, DAY)
    ensures SP.BookOf(Sold(), 2) == map[2 := SP.OpeningPosition(BOUGHT)]
    ensures |Sold().db.positions| == 1 && !Sold().db.positions[0].status.Open? && SP.Known(Sold().db, SP.OpeningPosition(BOUGHT))
  {
    hide Money, SP.CommitOpening, SP.CommitClosing, SP.CloseInFull, SP.OpenRows, SP.RowAfter, MergeDay, Shared,
      SP.Known, RowOf;
    BoughtAffordable();
    SharedBooks();
    ClosesInFull(BOUGHT, MARKET, 0, 0.0);
    FirstClosing(BOUGHT, 0.0, SP.ClosingOf(SOLD));
    SP.RowAfterTerminal(SP.ClosingOf(SOLD));
    SP.StepMovesRows(MergeDay(Shared(), 1, DAY), SOLD);
    SoldDistinct();
    SP.KnownMoves(MergeDay(Shared(), 1, DAY).db, Sold().db, SP.OpeningPosition(BOUGHT));
  }

  lemma SoldDistinct()
    requires |Sold().db.positions| <= 1
    ensures SP.RowsDistinct(Sold().db.positions)
  {
    hide Sold;
  }

  /** What runner 2 loads when it takes up the command is nothing new, and its copy cannot be closed. */
  lemma SecondBook()
    ensures var s := MergeDay(Sold(), 2, DAY);
            && s.db == Sold().db && SP.BookOf(s, 2) == map[2 := SP.OpeningPosition(BOUGHT)]
            && SP.Enabled(s, SOLD_AGAIN) && SP.Step(s, SOLD_AGAIN) == s
            && !NoneRemembered(SP.BookOf(s, 2), DAY)
  {
    hide Money, SP.Step, SP.OpenRows, DayRows, SP.OpeningPosition, MergeDay, Sold, SP.CloseInFull;
    SoldBooks();
    BoughtShape();
    var rows, s, p := Sold().db.positions, MergeDay(Sold(), 2, DAY), SP.OpeningPosition(BOUGHT);
    assert rows == [rows[0]];
    OneRow(rows[0], DAY);
    MergedBook(Sold(), 2, 2, DAY);
    assert SP.BookOf(s, 2) == map[2 := p] + map[] == map[2 := p];
    RefusedStep(s, SOLD_AGAIN);
    assert InScope(SP.BookOf(s, 2)[2], Some(DAY));
  }

  /** Attempting to close what is no longer open changes nothing. */
  lemma RefusedStep(s: SP.System, a: SP.Action)
    requires a.CloseFill? && SP.Known(s.db, a.position)
    requires !s.db.positions[RowOf(s.db.positions, a.position.id).value].status.Open?
    ensures SP.Step(s, a) == s
  {
    hide SP.CommitClosing, RowOf, SP.CloseInFull;
    TerminalRefusesClose(s.db, SP.ClosingOf(a));
  }

  /**
   From nothing: runner 1 is slow with the finish of a day, runner 2 starts, frees the command and
   claims it too; runner 1 closes the position and the day and completes the command; runner 2 puts
   the day back to closing, cannot close its copy of the position, and puts the day off.  No start is
   late, and the day is orphaned.
   */
  lemma SecondHandlerRun() returns (actions: seq<Action>)
    ensures Possible(DAWN, actions) && NoLateStart(DAWN, actions) && Orphaned(After(DAWN, actions), DAY, FINISH)
  {
    hide Step, Enabled, LateStart, Leads, SP.Step, SP.Enabled, DayHasOpen, NoneRemembered, MergeDay, Shared, Sold, Orphaned;
    var w: World;
    actions, w := UntilBothClaimed();
    actions, w := UntilCompleted(actions, w);
    actions, w := UntilPutOff(actions, w);
    LeadsUnfolded(actions, w);
    OrphanedAt(w);
  }

  lemma LeadsUnfolded(actions: seq<Action>, w: World)
    requires Leads(actions, w)
    ensures Possible(DAWN, actions) && NoLateStart(DAWN, actions) && After(DAWN, actions) == w
  {
  }

  lemma OrphanedAt(w: World)
    requires w.days == map[DAY := Day(1, SettlementPending)]
    requires FINISH in w.rows && w.rows[FINISH] == FinishCommand(Commands.Completed, 110)
    ensures Orphaned(w, DAY, FINISH)
  {
  }

  const ONE := Job(1, FINISH)
  const TWO := Job(2, FINISH)
  const TAKEN_TWICE: map<Job, Phase> := map[ONE := Taken, TWO := Taken]

  lemma UntilBothClaimed() returns (actions: seq<Action>, w: World)
    ensures w == Day1(Shared(), Running, Commands.Processing, 100, TAKEN_TWICE, {}) && Leads(actions, w)
  {
    hide Step, Enabled, LateStart, Leads, SP.Step, DayHasOpen, NoneRemembered, MergeDay, Money, SP.OpeningPosition,
      SP.OpeningPostings;
    actions := UntilOpened();
    w := DAWN.(days := map[DAY := Day(1, Running)], sys := Opened());
    SubmitAt(w);
    actions := Next(actions, w, SubmitFinish(DAY, FINISH, 0));
    var none: map<Job, Phase> := map[];
    w := Day1(Opened(), Running, Commands.Accepted, 0, none, {});
    ClaimAt(Opened(), Running, 0, none, {}, 1, 0);
    actions := Next(actions, w, Claim(1, FINISH, 0));
    var p1 := none[ONE := Taken];
    w := Day1(Opened(), Running, Commands.Processing, 0, p1, {});
    SweepAt(Opened(), Running, 0, p1, {}, 100, 60);
    actions := Next(actions, w, Sweep(100, 60));
    w := Day1(Opened(), Running, Commands.Accepted, 100, p1, {});
    actions, w := TradeNext(actions, w, SP.Recover(2, true));
    ClaimAt(Shared(), Running, 100, p1, {}, 2, 100);
    actions := Next(actions, w, Claim(2, FINISH, 100));
    w := Day1(Shared(), Running, Commands.Processing, 100, p1[TWO := Taken], {});
  }

  lemma TradeNext(actions: seq<Action>, w: World, a: SP.Action) returns (longer: seq<Action>, t: World)
    requires Leads(actions, w) && SP.Enabled(w.sys, a) && !a.Crash?
    ensures t == w.(sys := SP.Step(w.sys, a)) && Leads(longer, t) && longer == actions + [Trade(a)]
  {
    hide Step, Enabled, Leads, SP.Step, SP.Enabled;
    TradeAt(w, a);
    longer := Next(actions, w, Trade(a));
    t := w.(sys := SP.Step(w.sys, a));
  }

  const DONE_TAKEN: map<Job, Phase> := map[TWO := Taken]

  lemma UntilCompleted(before: seq<Action>, start: World) returns (actions: seq<Action>, w: World)
    requires start == Day1(Shared(), Running, Commands.Processing, 100, TAKEN_TWICE, {}) && Leads(before, start)
    ensures w == Day1(Sold(), DayClosed, Commands.Completed, 110, DONE_TAKEN, {DAY}) && Leads(actions, w)
  {
    hide Step, Enabled, LateStart, Leads, SP.Step, SP.Enabled, DayHasOpen, NoneRemembered, MergeDay, Shared;
    SoldBooks();
    MarkAt(Shared(), Running, Commands.Processing, 100, TAKEN_TWICE, {}, 1);
    actions := Next(before, start, Mark(1, FINISH, false));
    var p1 := TAKEN_TWICE[ONE := Marked];
    w := Day1(Shared(), Closing, Commands.Processing, 100, p1, {});
    MergeAt(Shared(), Closing, Commands.Processing, 100, p1, {}, 1);
    actions := Next(actions, w, Merge(1, FINISH, true));
    var p2 := p1[ONE := Merged(true)];
    w := Day1(MergeDay(Shared(), 1, DAY), Closing, Commands.Processing, 100, p2, {});
    actions, w := TradeNext(actions, w, SOLD);
    CloseDayAt(Sold(), Closing, Commands.Processing, 100, p2, {}, 1);
    actions := Next(actions, w, CloseDay(1, FINISH));
    var p3 := p2[ONE := Done];
    w := Day1(Sold(), DayClosed, Commands.Processing, 100, p3, {} + {DAY});
    SettleAt(Sold(), DayClosed, 100, p3, {} + {DAY}, 1, 110);
    actions := Next(actions, w, Settle(1, FINISH, false, 110));
    var nothing: set<DayId> := {};
    assert p3 - {ONE} == DONE_TAKEN && nothing + {DAY} == {DAY};
    w := Day1(Sold(), DayClosed, Commands.Completed, 110, DONE_TAKEN, {DAY});
  }

  lemma UntilPutOff(before: seq<Action>, start: World) returns (actions: seq<Action>, w: World)
    requires start == Day1(Sold(), DayClosed, Commands.Completed, 110, DONE_TAKEN, {DAY}) && Leads(before, start)
    ensures Leads(actions, w) && w.days == map[DAY := Day(1, SettlementPending)]
    ensures FINISH in w.rows && w.rows[FINISH] == FinishCommand(Commands.Completed, 110)
  {
    hide Step, Enabled, LateStart, Leads, SP.Step, SP.Enabled, DayHasOpen, NoneRemembered, MergeDay, Sold;
    SecondBook();
    MarkAt(Sold(), DayClosed, Commands.Completed, 110, DONE_TAKEN, {DAY}, 2);
    actions := Next(before, start, Mark(2, FINISH, false));
    var p1 := DONE_TAKEN[TWO := Marked];
    w := Day1(Sold(), Closing, Commands.Completed, 110, p1, {DAY});
    MergeAt(Sold(), Closing, Commands.Completed, 110, p1, {DAY}, 2);
    actions := Next(actions, w, Merge(2, FINISH, true));
    var p2 := p1[TWO := Merged(true)];
    w := Day1(MergeDay(Sold(), 2, DAY), Closing, Commands.Completed, 110, p2, {DAY});
    actions, w := TradeNext(actions, w, SOLD_AGAIN);
    actions, w := PutOffAt(actions, MergeDay(Sold(), 2, DAY), p2);
  }

  lemma PutOffAt(before: seq<Action>, sys: SP.System, phases: map<Job, Phase>) returns (actions: seq<Action>, w: World)
    requires Leads(before, Day1(sys, Closing, Commands.Completed, 110, phases, {DAY}))
    requires TWO in phases && phases[TWO] == Merged(true)
    ensures Leads(actions, w) && w.days == map[DAY := Day(1, SettlementPending)]
    ensures FINISH in w.rows && w.rows[FINISH] == FinishCommand(Commands.Completed, 110)
  {
    hide LateStart, Leads, SP.Step, SP.Enabled, DayHasOpen, NoneRemembered, MergeDay;
    var start := Day1(sys, Closing, Commands.Completed, 110, phases, {DAY});
    actions := Next(before, start, Defer(2, FINISH, true));
    w := Step(start, Defer(2, FINISH, true));
    actions := Next(actions, w, Requeue(2, FINISH, false, 111));
    w := Step(w, Requeue(2, FINISH, false, 111));
    assert w.rows == map[FINISH := FinishCommand(Commands.Completed, 110)];
  }

  // ---------------------------------------------------------------------------
  // A day closed with an open position
  // ---------------------------------------------------------------------------

  /** Runner 1 has restarted and its load has failed. */
  function Forgetful(): SP.System { SP.System(FirstDb(BOUGHT, 0.0), map[1 := map[]]) }

  /** The read of the day's positions fails too. */
  lemma UnreadAt(phases: map<Job, Phase>)
    requires ONE in phases && phases[ONE] == Marked
    ensures var w := Day1(Forgetful(), Closing, Commands.Processing, 0, phases, {});
            && Enabled(w, Merge(1, FINISH, false))
            && Step(w, Merge(1, FINISH, false)) ==
               Day1(Forgetful(), Closing, Commands.Processing, 0, phases[ONE := Merged(false)], {})
  {
    hide Forgetful;
  }

  /** The day is closed over the open position. */
  lemma DirtyCloseAt(phases: map<Job, Phase>)
    requires ONE in phases && phases[ONE] == Merged(false)
    ensures var w := Day1(Forgetful(), Closing, Commands.Processing, 0, phases, {});
            && Enabled(w, CloseDay(1, FINISH))
            && Step(w, CloseDay(1, FINISH)) ==
               Day1(Forgetful(), DayClosed, Commands.Processing, 0, phases[ONE := Done], {}).(dirty := {DAY})
  {
    hide SP.OpeningPosition, Money;
    OpenInForgetful();
  }

  lemma OpenInForgetful()
    ensures DayHasOpen(Forgetful().db, DAY)
  {
    hide Money;
    BoughtShape();
    assert InScope(FirstDb(BOUGHT, 0.0).positions[0], Some(DAY));
  }

  lemma Restarts()
    ensures var w := DAWN.(days := map[DAY := Day(1, Running)], sys := Opened());
            && Enabled(w, Stop(1)) && Step(w, Stop(1)) == w.(sys := Forgetful())
            && SP.Enabled(Forgetful(), SP.Recover(1, false)) && SP.Step(Forgetful(), SP.Recover(1, false)) == Forgetful()
  {
    hide SP.OpeningPosition, Money;
  }

  lemma SettledDirty(phases: map<Job, Phase>)
    requires ONE in phases && phases[ONE] == Done
    ensures var w := Day1(Forgetful(), DayClosed, Commands.Processing, 0, phases, {}).(dirty := {DAY});
            && Enabled(w, Settle(1, FINISH, false, 0))
            && Step(w, Settle(1, FINISH, false, 0)) ==
               Day1(Forgetful(), DayClosed, Commands.Completed, 0, phases - {ONE}, {}).(dirty := {DAY})
  {
  }

  /**
   From nothing, with one runner, no late start and no sweep: the runner opens a position and stops;
   its load fails when it restarts, and its read fails when it takes up the finish of the day.  The
   command is completed, and the day closed over the open position.
   */
  lemma ClosesOverOpenPosition() returns (actions: seq<Action>)
    ensures Possible(DAWN, actions) && NoLateStart(DAWN, actions) && NoSweep(actions)
    ensures var w := After(DAWN, actions);
            && FINISH in w.rows && w.rows[FINISH].status == Commands.Completed
            && DAY in w.days && w.days[DAY].state == DayClosed && w.dirty == {DAY} && DayHasOpen(w.sys.db, DAY)
  {
    hide Step, Enabled, LateStart, Leads, SP.Step, SP.Enabled, DayHasOpen, NoneRemembered, MergeDay, Opened, Forgetful;
    actions := UntilOpened();
    var w := DAWN.(days := map[DAY := Day(1, Running)], sys := Opened());
    Restarts();
    actions := Next(actions, w, Stop(1));
    w := w.(sys := Forgetful());
    actions, w := TradeNext(actions, w, SP.Recover(1, false));
    SubmitAt(w);
    actions := Next(actions, w, SubmitFinish(DAY, FINISH, 0));
    var none: map<Job, Phase> := map[];
    ClaimAt(Forgetful(), Running, 0, none, {}, 1, 0);
    actions := Next(actions, Day1(Forgetful(), Running, Commands.Accepted, 0, none, {}), Claim(1, FINISH, 0));
    var p1 := none[ONE := Taken];
    MarkAt(Forgetful(), Running, Commands.Processing, 0, p1, {}, 1);
    actions := Next(actions, Day1(Forgetful(), Running, Commands.Processing, 0, p1, {}), Mark(1, FINISH, false));
    var p2 := p1[ONE := Marked];
    UnreadAt(p2);
    actions := Next(actions, Day1(Forgetful(), Closing, Commands.Processing, 0, p2, {}), Merge(1, FINISH, false));
    var p3 := p2[ONE := Merged(false)];
    DirtyCloseAt(p3);
    actions := Next(actions, Day1(Forgetful(), Closing, Commands.Processing, 0, p3, {}), CloseDay(1, FINISH));
    var p4 := p3[ONE := Done];
    SettledDirty(p4);
    w := Day1(Forgetful(), DayClosed, Commands.Processing, 0, p4, {}).(dirty := {DAY});
    actions := Next(actions, w, Settle(1, FINISH, false, 0));
    w := Day1(Forgetful(), DayClosed, Commands.Completed, 0, p4 - {ONE}, {}).(dirty := {DAY});
    LeadsUnfolded(actions, w);
    OpenInForgetful();
  }

  // ---------------------------------------------------------------------------
  // A cancel that raises
  // ---------------------------------------------------------------------------

  const FAULTS := Faults(false, false, {2}, false, false, false)

  /** A repository with one running day and one pending entry order of it. */
  method WithOrder() returns (repository: PaperRepository)
    ensures fresh(repository) && SP.DbOk(repository.Tables()) && RecordsOk(repository.Tables())
    ensures repository.days == map[DAY := Day(1, Idle)] && repository.positions == []
    ensures repository.orders == map[2 := Order(1, DAY, Pending, 0.0)]
  {
    hide SP.RowsOk, SP.FillsUnique, SP.NoStrays, SP.Balanced, Money, BalanceOf, RowOf, RecordsOk;
    repository := new PaperRepository();
    SP.EmptyDbOk();
    EmptyRecordsOk();
    var created := repository.CreateDay(DAY, 1);
    var deposited := repository.CreateAccount(1, 0, 100.0);
    SP.AccountKeepsDb(EMPTY, 1, 0, 100.0);
    ghost var before := repository.Tables();
    var placed := repository.CreateOrder(2, 1, DAY);
    SP.OrdersKeepDb(before, repository.Tables());
    StepKeepsRecords(SP.START, SP.NewAccount(1, 0, 100.0));
    StepKeepsRecords(SP.System(before, map[]), SP.NewOrder(2, 1, DAY));
  }

  /**
   A runner closes a day whose only entry order cannot be cancelled: the handler answers true, the day
   is closed, and the order is still open.
   */
  method ClosesWithOpenOrder() returns (runner: PaperRunner, done: Result<bool>)
    ensures done == Ok(true)
    ensures DAY in runner.repository.days && runner.repository.days[DAY].state == DayClosed
    ensures 2 in runner.repository.orders && OpenEntry(runner.repository.orders[2], DAY)
  {
    hide SP.DbOk, RecordsOk, Reaches, Covers, IsStale, RowOf, SP.Known, CanClose, Fresh, AfterRead;
    var repository := WithOrder();
    runner := new PaperRunner(1, repository);
    ghost var w := World(runner.Seen(), repository.days, map[FINISH := FinishCommand(Commands.Processing, 0)],
                         map[ONE := Taken], {}, {});
    ghost var after;
    done, after := runner.HandleFinishDay(DAY, FAULTS, None, 0, 0.0, _ => Draw(0, 0, 0), w, FINISH);
  }
}
