/**
 Closing a trading day (`paper_trading/runner.py`, `paper_trading/service.py`): the persisted
 `finish-{day}` command, its handlers in any number of runners, and everything that may happen around them.
 */
module DayClose {
  import opened Commands
  import opened Journal
  import opened RunnerBook
  import opened Settlement
  import opened Wrappers
  import SP = SettlementProtocol

  type RunnerId = SP.RunnerId

  datatype DayState = Idle | Starting | Running | Closing | DayClosed | RecoveryRequired | SettlementPending

  datatype Day = Day(owner: OwnerId, state: DayState)

  type Days = map<DayId, Day>

  /** How far the handler of a claimed finish command has come; `Merged` says whether its load succeeded. */
  datatype Phase = Taken | Marked | Merged(loaded: bool) | Done | Refused

  /** One runner executing one command. */
  datatype Job = Job(runner: RunnerId, id: CommandId)

  /** Days closed by a handler are `clean` when they had no open position left, else `dirty`. */
  datatype World = World(sys: SP.System, days: Days, rows: Table, phases: map<Job, Phase>,
                         clean: set<DayId>, dirty: set<DayId>)

  const DAWN := World(SP.START, map[], map[], map[], {}, {})

  function FinishKey(day: DayId): string { "finish-" + day }

  lemma FinishKeyInjective(a: DayId, b: DayId)
    requires FinishKey(a) == FinishKey(b)
    ensures a == b
  {
    assert FinishKey(a)[7..] == a && FinishKey(b)[7..] == b;
  }

  predicate IsFinish(c: Command) { c.kind == "finish_day" }

  /** At most one day of an owner is not closed. */
  ghost predicate OneIncomplete(days: Days) {
    forall a, b :: a in days && b in days && BothIncomplete(days[a], days[b]) ==> a == b
  }

  predicate Incomplete(d: Day) { d.state != DayClosed }

  predicate BothIncomplete(d: Day, e: Day) { Incomplete(d) && Incomplete(e) && d.owner == e.owner }

  /** A state write raises when it would leave the owner with two incomplete days; a missing day is no update. */
  ghost predicate MaySet(days: Days, day: DayId, state: DayState) {
    day in days && state != DayClosed ==>
      forall other :: other in days && other != day && days[other].owner == days[day].owner ==> !Incomplete(days[other])
  }

  ghost function Set(days: Days, day: DayId, state: DayState): Days {
    if day in days && MaySet(days, day, state) then days[day := days[day].(state := state)] else days
  }

  /** Selected for closure; the end time of a running day is a matter of the clock. */
  predicate MayBeDue(d: Day) { d.state.Running? || d.state.SettlementPending? || d.state.Closing? }

  ghost predicate DayHasOpen(db: Db, day: DayId) {
    exists i :: 0 <= i < |db.positions| && InScope(db.positions[i], Some(day))
  }

  // ---------------------------------------------------------------------------
  // Steps
  // ---------------------------------------------------------------------------

  datatype Action =
    | NewDay(day: DayId, owner: OwnerId)
    | StartDay(day: DayId)
    | MarkRecovery(day: DayId)
    | SubmitFinish(day: DayId, id: CommandId, now: int)
    | Others(rows: Table)
    | Claim(runner: RunnerId, id: CommandId, now: int)
    | Mark(runner: RunnerId, id: CommandId, raised: bool)
    | Merge(runner: RunnerId, id: CommandId, loaded: bool)
    | Trade(action: SP.Action)
    | CloseDay(runner: RunnerId, id: CommandId)
    | Defer(runner: RunnerId, id: CommandId, pending: bool)
    | Settle(runner: RunnerId, id: CommandId, lost: bool, now: int)
    | Requeue(runner: RunnerId, id: CommandId, lost: bool, now: int)
    | Sweep(now: int, maxAge: int)
    | Stop(runner: RunnerId)

  ghost predicate Finishing(w: World, job: Job, phase: Phase) { job in w.phases && w.phases[job] == phase }

  predicate HasDay(w: World, id: CommandId) { id in w.rows && IsFinish(w.rows[id]) && w.rows[id].day.Some? }

  /** No remembered position of the day is still open. */
  ghost predicate NoneRemembered(book: SP.Book, day: DayId) {
    forall id :: id in book ==> !InScope(book[id], Some(day))
  }

  /** The rest of the command traffic leaves finish commands and their keys alone. */
  ghost predicate LeavesFinish(rows: Table, later: Table) {
    && (forall id :: id in rows && IsFinish(rows[id]) ==> id in later && later[id] == rows[id])
    && (forall id :: id in later && IsFinish(later[id]) ==> id in rows && rows[id] == later[id])
    && forall id, d :: id in later && later[id].key == FinishKey(d) ==> IsFinish(later[id])
  }

  ghost predicate Enabled(w: World, a: Action) {
    match a
    case NewDay(_, _) => true
    case StartDay(_) => true
    case MarkRecovery(day) => day in w.days && w.days[day].state.DayClosed?
    case SubmitFinish(day, id, _) => day in w.days && Incomplete(w.days[day])
    case Others(rows) => LeavesFinish(w.rows, rows) && KeysUnique(rows)
    case Claim(runner, id, _) => HasDay(w, id) && Job(runner, id) !in w.phases
    case Mark(runner, id, _) => HasDay(w, id) && Finishing(w, Job(runner, id), Taken)
    case Merge(runner, id, _) => HasDay(w, id) && Finishing(w, Job(runner, id), Marked)
    case Trade(action) => SP.Enabled(w.sys, action) && !action.Crash?
    case CloseDay(runner, id) =>
      && HasDay(w, id) && Job(runner, id) in w.phases && w.phases[Job(runner, id)].Merged?
      && NoneRemembered(SP.BookOf(w.sys, runner), w.rows[id].day.value)
    case Defer(runner, id, _) => HasDay(w, id) && Job(runner, id) in w.phases && !w.phases[Job(runner, id)].Done?
    case Settle(runner, id, _, _) => Finishing(w, Job(runner, id), Done)
    case Requeue(runner, id, _, _) => Finishing(w, Job(runner, id), Refused)
    case Sweep(_, _) => true
    case Stop(_) => true
  }

  /** Open rows of one day, by id: what the handler loads. */
  function DayRows(rows: seq<Position>, day: DayId): SP.Book {
    map id | id in SP.OpenRows(rows) && SP.OpenRows(rows)[id].day == day :: SP.OpenRows(rows)[id]
  }

  ghost function MergeDay(sys: SP.System, runner: RunnerId, day: DayId): SP.System {
    sys.(books := sys.books[runner := SP.BookOf(sys, runner) + DayRows(sys.db.positions, day)])
  }

  ghost function DayOf(w: World, id: CommandId): DayId
    requires HasDay(w, id)
  {
    w.rows[id].day.value
  }

  /** Submits under the day's key: an equal request is answered by the command that is there. */
  ghost function Submitted(w: World, day: DayId, id: CommandId, now: int): Table
    requires day in w.days
  {
    Inserted(w.rows, id, NewCommand(w.days[day].owner, FinishKey(day), "finish_day", Some(day), map[], None, now))
  }

  ghost function Step(w: World, a: Action): World
    requires Enabled(w, a)
  {
    match a
    case NewDay(day, owner) =>
      if day in w.days || exists other :: other in w.days && w.days[other].owner == owner && Incomplete(w.days[other]) then w
      else w.(days := w.days[day := Day(owner, Idle)])
    case StartDay(day) => w.(days := Set(w.days, day, Running))
    case MarkRecovery(day) => w.(days := Set(w.days, day, RecoveryRequired))
    case SubmitFinish(day, id, now) => w.(rows := Submitted(w, day, id, now))
    case Others(rows) => w.(rows := rows)
    case Claim(runner, id, now) =>
      if w.rows[id].status == Accepted then
        w.(rows := Claimed(w.rows, id, now), phases := w.phases[Job(runner, id) := Taken])
      else w
    case Mark(runner, id, raised) =>
      if raised || !MaySet(w.days, DayOf(w, id), Closing) then w.(phases := w.phases[Job(runner, id) := Refused])
      else w.(days := Set(w.days, DayOf(w, id), Closing), phases := w.phases[Job(runner, id) := Marked])
    case Merge(runner, id, loaded) =>
      w.(phases := w.phases[Job(runner, id) := Merged(loaded)],
         sys := if loaded then MergeDay(w.sys, runner, DayOf(w, id)) else w.sys)
    case Trade(action) => w.(sys := SP.Step(w.sys, action))
    case CloseDay(runner, id) =>
      var day := DayOf(w, id);
      if day !in w.days then w.(phases := w.phases[Job(runner, id) := Refused])
      else
        var closed := w.(days := Set(w.days, day, DayClosed), phases := w.phases[Job(runner, id) := Done]);
        if DayHasOpen(w.sys.db, day) then closed.(dirty := w.dirty + {day}) else closed.(clean := w.clean + {day})
    case Defer(runner, id, pending) =>
      w.(days := if pending then Set(w.days, DayOf(w, id), SettlementPending) else w.days,
         phases := w.phases[Job(runner, id) := Refused])
    case Settle(runner, id, lost, now) =>
      w.(rows := if lost then w.rows else Settled(w.rows, id, None, now), phases := w.phases - {Job(runner, id)})
    case Requeue(runner, id, lost, now) =>
      w.(rows := if lost then w.rows else Requeued(w.rows, id, None, now), phases := w.phases - {Job(runner, id)})
    case Sweep(now, maxAge) => w.(rows := StaleRequeued(w.rows, now, maxAge))
    case Stop(runner) =>
      w.(sys := SP.Step(w.sys, SP.Crash(runner)), phases := map t | t in w.phases && t.runner != runner :: w.phases[t])
  }

  ghost predicate Possible(w: World, actions: seq<Action>)
    decreases |actions|
  {
    actions == [] || (Enabled(w, actions[0]) && Possible(Step(w, actions[0]), actions[1..]))
  }

  ghost function After(w: World, actions: seq<Action>): World
    requires Possible(w, actions)
    decreases |actions|
  {
    if actions == [] then w else After(Step(w, actions[0]), actions[1..])
  }

  ghost predicate Reaches(w: World, t: World) {
    exists actions :: Possible(w, actions) && After(w, actions) == t
  }

  lemma ReachesSelf(w: World)
    ensures Reaches(w, w)
  {
    assert Possible(w, []) && After(w, []) == w;
  }

  lemma {:induction false} RunSnoc(w: World, actions: seq<Action>, a: Action)
    requires Possible(w, actions) && Enabled(After(w, actions), a)
    ensures Possible(w, actions + [a]) && After(w, actions + [a]) == Step(After(w, actions), a)
    decreases |actions|
  {
    hide Step, Enabled;
    if actions == [] {
      assert [a][1..] == [] && actions + [a] == [a];
      assert Possible(Step(w, a), []);
    } else {
      assert (actions + [a])[1..] == actions[1..] + [a];
      RunSnoc(Step(w, actions[0]), actions[1..], a);
    }
  }

  lemma ReachesStep(w: World, t: World, a: Action)
    requires Reaches(w, t) && Enabled(t, a)
    ensures Reaches(w, Step(t, a))
  {
    hide Step, Enabled;
    var actions :| Possible(w, actions) && After(w, actions) == t;
    RunSnoc(w, actions, a);
  }

  // ---------------------------------------------------------------------------
  // What a world keeps
  // ---------------------------------------------------------------------------

  /** A finish command carries its day's key and owner, and asks for nothing else. */
  ghost predicate FinishRow(w: World, c: Command) {
    && c.day.Some? && c.key == FinishKey(c.day.value) && c.request == map[]
    && c.day.value in w.days && c.owner == w.days[c.day.value].owner
  }

  ghost predicate RowKept(w: World, id: CommandId)
    requires id in w.rows
  {
    && (IsFinish(w.rows[id]) ==> FinishRow(w, w.rows[id]))
    && forall d :: w.rows[id].key == FinishKey(d) ==> IsFinish(w.rows[id])
  }

  ghost predicate RowsKept(w: World) {
    KeysUnique(w.rows) && forall id :: id in w.rows ==> RowKept(w, id)
  }

  /** A finish command is pending until it completes, and completes after its day was closed by a handler. */
  ghost predicate Progress(w: World, id: CommandId) {
    id in w.rows && IsFinish(w.rows[id]) ==>
      && w.rows[id].status in {Accepted, Processing, Completed}
      && (w.rows[id].status == Completed ==> w.rows[id].day.Some? && w.rows[id].day.value in w.clean + w.dirty)
  }

  /** A handler is about a finish command, and is done after it closed the day. */
  ghost predicate JobOk(w: World, job: Job) {
    job in w.phases ==>
      HasDay(w, job.id) && (w.phases[job].Done? ==> w.rows[job.id].day.value in w.clean + w.dirty)
  }

  ghost predicate ProgressKept(w: World) { (forall id :: Progress(w, id)) && forall job :: JobOk(w, job) }

  lemma StepKeepsRow(w: World, a: Action, id: CommandId)
    requires Enabled(w, a) && (id in w.rows ==> RowKept(w, id)) && id in Step(w, a).rows
    ensures RowKept(Step(w, a), id)
  {
    hide SP.Step, SP.Enabled, MaySet, DayHasOpen, KeysUnique, KeyFree, NoneRemembered, MergeDay;
  }

  lemma StepKeepsKeys(w: World, a: Action)
    requires KeysUnique(w.rows) && Enabled(w, a)
    ensures KeysUnique(Step(w, a).rows)
  {
    hide SP.Step, SP.Enabled, MaySet, DayHasOpen, NoneRemembered, MergeDay, LeavesFinish, Set;
    if a.SubmitFinish? {
      var c := NewCommand(w.days[a.day].owner, FinishKey(a.day), "finish_day", Some(a.day), map[], None, a.now);
      InsertKeepsKeys(w.rows, a.id, c);
    } else if !a.Others? {
      SameKeys(w.rows, Step(w, a).rows);
    }
  }

  lemma InsertKeepsKeys(t: Table, id: CommandId, c: Command)
    requires KeysUnique(t)
    ensures KeysUnique(Inserted(t, id, c))
  {
  }

  lemma SameKeys(t: Table, u: Table)
    requires KeysUnique(t) && u.Keys == t.Keys && forall id :: id in t ==> u[id].owner == t[id].owner && u[id].key == t[id].key
    ensures KeysUnique(u)
  {
  }

  lemma StepKeepsRows(w: World, a: Action)
    requires RowsKept(w) && Enabled(w, a)
    ensures RowsKept(Step(w, a))
  {
    hide Step, Enabled, KeysUnique, RowKept;
    StepKeepsKeys(w, a);
    forall id | id in Step(w, a).rows ensures RowKept(Step(w, a), id) {
      StepKeepsRow(w, a, id);
    }
  }

  lemma StepKeepsJob(w: World, a: Action, job: Job)
    requires JobOk(w, job) && Enabled(w, a)
    ensures JobOk(Step(w, a), job)
  {
    hide SP.Step, SP.Enabled, MaySet, DayHasOpen, KeysUnique, KeyFree, NoneRemembered, MergeDay;
  }

  lemma StepKeepsRowProgress(w: World, a: Action, id: CommandId)
    requires Progress(w, id) && (forall job :: JobOk(w, job)) && Enabled(w, a)
    ensures Progress(Step(w, a), id)
  {
    hide SP.Step, SP.Enabled, MaySet, DayHasOpen, KeysUnique, KeyFree, NoneRemembered, MergeDay, JobOk;
    if a.Settle? {
      DoneClosed(w, Job(a.runner, a.id));
    }
  }

  lemma DoneClosed(w: World, job: Job)
    requires JobOk(w, job)
    ensures Finishing(w, job, Done) ==> HasDay(w, job.id) && DayOf(w, job.id) in w.clean + w.dirty
  {
  }

  lemma StepKeepsProgress(w: World, a: Action)
    requires ProgressKept(w) && Enabled(w, a)
    ensures ProgressKept(Step(w, a))
  {
    hide Step, Enabled, Progress, JobOk;
    forall id ensures Progress(Step(w, a), id) {
      StepKeepsRowProgress(w, a, id);
    }
    forall job ensures JobOk(Step(w, a), job) {
      StepKeepsJob(w, a, job);
    }
  }

  lemma StepKeepsOneIncomplete(w: World, a: Action)
    requires OneIncomplete(w.days) && Enabled(w, a)
    ensures OneIncomplete(Step(w, a).days)
  {
    hide SP.Step, SP.Enabled, DayHasOpen, KeysUnique, KeyFree, NoneRemembered, MergeDay;
  }

  /** In every run an owner has at most one day that is not closed, so the active day is well defined. */
  lemma {:induction false} OneActiveDay(w: World, actions: seq<Action>)
    requires OneIncomplete(w.days) && Possible(w, actions)
    ensures OneIncomplete(After(w, actions).days)
    decreases |actions|
  {
    hide Step, Enabled, OneIncomplete;
    if actions != [] {
      StepKeepsOneIncomplete(w, actions[0]);
      OneActiveDay(Step(w, actions[0]), actions[1..]);
    }
  }

  /** In every run a finish command is pending, or completed after its handler moved the day to closed. */
  lemma {:induction false} ProgressInvariant(w: World, actions: seq<Action>)
    requires RowsKept(w) && ProgressKept(w) && Possible(w, actions)
    ensures RowsKept(After(w, actions)) && ProgressKept(After(w, actions))
    decreases |actions|
  {
    hide Step, Enabled, RowsKept, ProgressKept;
    if actions != [] {
      StepKeepsRows(w, actions[0]);
      StepKeepsProgress(w, actions[0]);
      ProgressInvariant(Step(w, actions[0]), actions[1..]);
    }
  }

  /**
   With any number of runners, a finish command is accepted or processing until it completes, and it
   completes only after a handler moved its day to closed.
   */
  lemma CompletedMeansClosed(actions: seq<Action>, id: CommandId)
    requires Possible(DAWN, actions) && id in After(DAWN, actions).rows && IsFinish(After(DAWN, actions).rows[id])
    ensures var w := After(DAWN, actions);
            && FinishRow(w, w.rows[id])
            && (w.rows[id].status in {Accepted, Processing}
                || (w.rows[id].status == Completed && w.rows[id].day.value in w.clean + w.dirty))
  {
    hide Step, Enabled, FinishRow;
    ProgressInvariant(DAWN, actions);
    assert Progress(After(DAWN, actions), id) && RowKept(After(DAWN, actions), id);
  }

  // ---------------------------------------------------------------------------
  // A due day is never orphaned
  // ---------------------------------------------------------------------------

  /** Some handler closed the day of the command and has not settled it yet. */
  ghost predicate DoneBySome(w: World, id: CommandId) {
    exists job: Job :: job.id == id && Finishing(w, job, Done)
  }

  /** The command needs no more handling: it is completed, or its handler is done. */
  ghost predicate Finished(w: World, id: CommandId) {
    HasDay(w, id) && (w.rows[id].status == Completed || DoneBySome(w, id))
  }

  predicate AtRest(days: Days, day: DayId) { day in days && (days[day].state.DayClosed? || days[day].state.RecoveryRequired?) }

  /** The day of a finished command is closed, or marked for recovery. */
  ghost predicate DayStays(w: World, id: CommandId) {
    Finished(w, id) ==> AtRest(w.days, w.rows[id].day.value)
  }

  ghost predicate DaysStay(w: World) { forall id :: DayStays(w, id) }

  /** A start command that takes effect on a day whose finish command is finished. */
  ghost predicate LateStart(w: World, a: Action) {
    a.StartDay? && a.day in w.days && MaySet(w.days, a.day, Running) && exists id :: Finished(w, id) && DayOf(w, id) == a.day
  }

  /** A handler that takes up, or puts off, a command that is finished already. */
  ghost predicate Doubles(w: World, a: Action) {
    && (a.Mark? || a.Defer?) && Finished(w, a.id) && DayOf(w, a.id) in w.days
    && if a.Mark? then !a.raised && MaySet(w.days, DayOf(w, a.id), Closing)
       else a.pending && MaySet(w.days, DayOf(w, a.id), SettlementPending)
  }

  lemma OneFinishPerDay(w: World, a: CommandId, b: CommandId)
    requires RowsKept(w) && HasDay(w, a) && HasDay(w, b) && w.rows[a].day == w.rows[b].day
    ensures a == b
  {
    assert RowKept(w, a) && RowKept(w, b);
    assert Owns(w.rows[b], w.rows[a].owner, w.rows[a].key);
  }

  lemma ClosingIsFree(days: Days, day: DayId)
    ensures MaySet(days, day, DayClosed)
  {
  }

  /** What a step does to the finishing of one command and to its day. */
  lemma StepKeepsDay(w: World, a: Action, id: CommandId)
    requires RowsKept(w) && ProgressKept(w) && DayStays(w, id) && Enabled(w, a)
    requires !LateStart(w, a) && !Doubles(w, a)
    ensures DayStays(Step(w, a), id)
  {
    hide SP.Step, SP.Enabled, DayHasOpen, KeysUnique, KeyFree, NoneRemembered, MergeDay, RowsKept, ProgressKept,
      MaySet, FinishKey,
      LeavesFinish, DoneBySome;
    FinishedBefore(w, a, id);
    if a.CloseDay? {
      ClosingIsFree(w.days, DayOf(w, a.id));
    }
    if (a.Mark? || a.Defer?) && HasDay(w, id) && HasDay(w, a.id) && w.rows[id].day == w.rows[a.id].day {
      OneFinishPerDay(w, id, a.id);
    }
  }

  /** A command is finished after a step only if it was before, or the step closes its day. */
  lemma FinishedBefore(w: World, a: Action, id: CommandId)
    requires ProgressKept(w) && Enabled(w, a)
    ensures Finished(Step(w, a), id) ==> HasDay(w, id) && Step(w, a).rows[id].day == w.rows[id].day
    ensures Finished(Step(w, a), id) ==> Finished(w, id) || (a.CloseDay? && a.id == id && DayOf(w, id) in w.days)
  {
    hide SP.Step, SP.Enabled, DayHasOpen, KeysUnique, KeyFree, NoneRemembered, MergeDay, MaySet, Set, FinishKey, Progress;
    var t := Step(w, a);
    if DoneBySome(t, id) {
      var job: Job :| job.id == id && Finishing(t, job, Done);
      assert JobOk(w, job);
      assert Finishing(w, job, Done) || (a.CloseDay? && job == Job(a.runner, a.id));
    }
    if a.Settle? && Finishing(w, Job(a.runner, a.id), Done) {
      assert JobOk(w, Job(a.runner, a.id));
      assert DoneBySome(w, a.id);
    }
  }

  /** What is finished stays finished through starts, marks and deferrals. */
  lemma FinishedAfter(w: World, a: Action, id: CommandId)
    requires Enabled(w, a) && (a.StartDay? || a.Mark? || a.Defer?) && Finished(w, id)
    ensures Finished(Step(w, a), id) && Step(w, a).rows == w.rows
  {
    hide SP.Step, SP.Enabled, DayHasOpen, MaySet, Set;
    if DoneBySome(w, id) {
      var job: Job :| job.id == id && Finishing(w, job, Done);
      assert Finishing(Step(w, a), job, Done);
    }
  }

  /**
   A step keeps the day of every finished command at rest exactly when it is neither a late start nor
   the second handler of a finished command.
   */
  lemma OrphansExactly(w: World, a: Action)
    requires RowsKept(w) && ProgressKept(w) && DaysStay(w) && Enabled(w, a)
    ensures DaysStay(Step(w, a)) <==> !LateStart(w, a) && !Doubles(w, a)
  {
    hide RowsKept, ProgressKept, DayStays, Finished, LateStart, Doubles, MaySet, Step;
    if LateStart(w, a) || Doubles(w, a) {
      Disturbed(w, a);
    } else {
      forall id ensures DayStays(Step(w, a), id) {
        StepKeepsDay(w, a, id);
      }
    }
  }

  lemma Disturbed(w: World, a: Action)
    requires Enabled(w, a) && (LateStart(w, a) || Doubles(w, a))
    ensures exists id :: Finished(w, id) && !DayStays(Step(w, a), id)
  {
    hide SP.Step, SP.Enabled, DayHasOpen, MaySet, DoneBySome;
    var id: CommandId;
    if a.StartDay? {
      id :| Finished(w, id) && DayOf(w, id) == a.day;
    } else {
      id := a.id;
    }
    FinishedAfter(w, a, id);
    assert !DayStays(Step(w, a), id);
  }

  // ---------------------------------------------------------------------------
  // One handler at a time
  // ---------------------------------------------------------------------------

  /** The sweep frees no command that a live runner is still handling. */
  ghost predicate SparesLive(w: World, a: Action) {
    a.Sweep? ==> forall job :: job in w.phases && job.id in w.rows ==> !Stale(w.rows[job.id], a.now, a.maxAge)
  }

  /** A command has at most one handler, and while it has one it is processing. */
  ghost predicate OneHandler(w: World) {
    && (forall s, t :: s in w.phases && t in w.phases && s.id == t.id ==> s == t)
    && forall t :: t in w.phases ==> Handled(w, t.id)
  }

  predicate Handled(w: World, id: CommandId) { HasDay(w, id) && w.rows[id].status == Processing }

  /** Handlers only begin by claiming an accepted command. */
  lemma JobsBegin(w: World, a: Action, job: Job)
    requires Enabled(w, a) && job in Step(w, a).phases
    ensures job in w.phases || (a.Claim? && job == Job(a.runner, a.id) && w.rows[a.id].status == Accepted)
  {
    hide SP.Step, SP.Enabled, MaySet, DayHasOpen, KeysUnique, KeyFree, NoneRemembered, MergeDay, Set, FinishKey, Inserted;
  }

  lemma StepKeepsHandled(w: World, a: Action, job: Job)
    requires job in w.phases && Handled(w, job.id) && Enabled(w, a) && SparesLive(w, a) && job in Step(w, a).phases
    requires (a.Settle? || a.Requeue?) && a.id == job.id ==> a.runner == job.runner
    ensures Handled(Step(w, a), job.id)
  {
    hide SP.Step, SP.Enabled, MaySet, DayHasOpen, KeysUnique, KeyFree, NoneRemembered, MergeDay, Set, FinishKey;
  }

  /** A step keeps it so exactly when it is no sweep over a live handler. */
  lemma OneHandlerExactly(w: World, a: Action)
    requires OneHandler(w) && Enabled(w, a)
    ensures OneHandler(Step(w, a)) <==> SparesLive(w, a)
  {
    hide Step, Enabled, Stale;
    if SparesLive(w, a) {
      forall t | t in Step(w, a).phases ensures Handled(Step(w, a), t.id) {
        JobsBegin(w, a, t);
        if t in w.phases {
          EndsOwnJob(w, a);
          StepKeepsHandled(w, a, t);
        } else {
          ClaimHandles(w, a);
        }
      }
      forall s, t | s in Step(w, a).phases && t in Step(w, a).phases && s.id == t.id ensures s == t {
        JobsBegin(w, a, s);
        JobsBegin(w, a, t);
      }
    } else {
      var job :| job in w.phases && job.id in w.rows && Stale(w.rows[job.id], a.now, a.maxAge);
      SweptHandler(w, a.now, a.maxAge, job);
    }
  }

  lemma EndsOwnJob(w: World, a: Action)
    requires Enabled(w, a)
    ensures a.Settle? || a.Requeue? ==> Job(a.runner, a.id) in w.phases
  {
  }

  lemma ClaimHandles(w: World, a: Action)
    requires Enabled(w, a) && a.Claim? && w.rows[a.id].status == Accepted
    ensures Handled(Step(w, a), a.id)
  {
  }

  lemma SweptHandler(w: World, now: int, maxAge: int, job: Job)
    requires job in w.phases && job.id in w.rows && Stale(w.rows[job.id], now, maxAge)
    ensures job in Step(w, Sweep(now, maxAge)).phases && !Handled(Step(w, Sweep(now, maxAge)), job.id)
  {
  }

  /** With one handler a command, no handler takes up a finished one. */
  lemma NoDouble(w: World, a: Action)
    requires OneHandler(w) && Enabled(w, a)
    ensures !Doubles(w, a)
  {
  }

  /** No start arrives for a finished day, and no sweep hits a live handler. */
  ghost predicate Orderly(w: World, a: Action) { !LateStart(w, a) && SparesLive(w, a) }

  ghost predicate AllOrderly(w: World, actions: seq<Action>)
    requires Possible(w, actions)
    decreases |actions|
  {
    actions == [] || (Orderly(w, actions[0]) && AllOrderly(Step(w, actions[0]), actions[1..]))
  }

  lemma {:induction false} DayInvariant(w: World, actions: seq<Action>)
    requires RowsKept(w) && ProgressKept(w) && OneHandler(w) && DaysStay(w) && Possible(w, actions) && AllOrderly(w, actions)
    ensures var t := After(w, actions); RowsKept(t) && ProgressKept(t) && OneHandler(t) && DaysStay(t)
    decreases |actions|
  {
    hide Step, Enabled, RowsKept, ProgressKept, OneHandler, DaysStay, LateStart, SparesLive, Doubles;
    if actions != [] {
      StepKeepsRows(w, actions[0]);
      StepKeepsProgress(w, actions[0]);
      OneHandlerExactly(w, actions[0]);
      NoDouble(w, actions[0]);
      OrphansExactly(w, actions[0]);
      DayInvariant(Step(w, actions[0]), actions[1..]);
    }
  }

  /**
   With any number of runners: when no start command reaches a finished day and sweeps spare live
   handlers, the finish command of a day that may be due is still accepted or processing.
   */
  lemma NeverOrphaned(actions: seq<Action>, id: CommandId)
    requires Possible(DAWN, actions) && AllOrderly(DAWN, actions)
    requires var w := After(DAWN, actions); HasDay(w, id) && DayOf(w, id) in w.days && MayBeDue(w.days[DayOf(w, id)])
    ensures After(DAWN, actions).rows[id].status in {Accepted, Processing}
  {
    hide Step, Enabled;
    DayInvariant(DAWN, actions);
    assert Progress(After(DAWN, actions), id) && DayStays(After(DAWN, actions), id);
  }

  /** Submitting the finish of a due day leaves a pending command for it. */
  lemma SubmitReaches(actions: seq<Action>, day: DayId, id: CommandId, now: int)
    requires Possible(DAWN, actions) && AllOrderly(DAWN, actions)
    requires var w := After(DAWN, actions); day in w.days && MayBeDue(w.days[day]) && id !in w.rows
    ensures var w := After(DAWN, actions);
            var rows := Submitted(w, day, id, now);
            exists c :: c in rows && IsFinish(rows[c]) && rows[c].day == Some(day) && rows[c].status in {Accepted, Processing}
  {
    hide Step, Enabled;
    DayInvariant(DAWN, actions);
    var w := After(DAWN, actions);
    var rows := Submitted(w, day, id, now);
    if KeyFree(w.rows, w.days[day].owner, FinishKey(day)) {
      assert rows[id].status == Accepted;
    } else {
      var c :| c in w.rows && Owns(w.rows[c], w.days[day].owner, FinishKey(day));
      assert RowKept(w, c);
      FinishKeyInjective(day, w.rows[c].day.value);
      NeverOrphaned(actions, c);
      assert rows == w.rows;
    }
  }

  // ---------------------------------------------------------------------------
  // Orphans
  // ---------------------------------------------------------------------------

  lemma {:induction false} CompletedStays(w: World, actions: seq<Action>, id: CommandId)
    requires RowsKept(w) && ProgressKept(w) && Possible(w, actions)
    requires id in w.rows && IsFinish(w.rows[id]) && w.rows[id].status == Completed
    ensures id in After(w, actions).rows && After(w, actions).rows[id] == w.rows[id]
    decreases |actions|
  {
    hide Step, Enabled, RowsKept, ProgressKept;
    if actions != [] {
      StepKeepsRows(w, actions[0]);
      StepKeepsProgress(w, actions[0]);
      CompletedStep(w, actions[0], id);
      CompletedStays(Step(w, actions[0]), actions[1..], id);
    }
  }

  lemma CompletedStep(w: World, a: Action, id: CommandId)
    requires ProgressKept(w) && Enabled(w, a)
    requires id in w.rows && IsFinish(w.rows[id]) && w.rows[id].status == Completed
    ensures id in Step(w, a).rows && Step(w, a).rows[id] == w.rows[id]
  {
    hide SP.Step, SP.Enabled, MaySet, DayHasOpen, KeysUnique, KeyFree, NoneRemembered, MergeDay, ProgressKept;
  }

  /** The day may be due, but its finish command is completed. */
  ghost predicate Orphaned(w: World, day: DayId, id: CommandId) {
    && HasDay(w, id) && DayOf(w, id) == day && w.rows[id].status == Completed
    && day in w.days && MayBeDue(w.days[day])
  }

  /**
   Once the finish command of a day is completed it stays so for ever, is never claimed again, and
   submitting the finish again changes nothing: an orphaned day has no command left that would close it.
   */
  lemma CompletedForGood(w: World, day: DayId, id: CommandId, later: seq<Action>)
    requires RowsKept(w) && ProgressKept(w) && Possible(w, later)
    requires HasDay(w, id) && DayOf(w, id) == day && w.rows[id].status == Completed
    ensures var t := After(w, later);
            && HasDay(t, id) && t.rows[id].status == Completed
            && forall other, now :: day in t.days && other !in t.rows ==> Submitted(t, day, other, now) == t.rows
  {
    hide Step, Enabled;
    CompletedStays(w, later, id);
    ProgressInvariant(w, later);
    var t := After(w, later);
    assert RowKept(t, id);
    forall other, now | day in t.days && other !in t.rows ensures Submitted(t, day, other, now) == t.rows {
      assert Owns(t.rows[id], t.days[day].owner, FinishKey(day));
    }
  }

  /** A start command that takes effect after the close puts the day back to running: the day is orphaned. */
  lemma LateStartOrphans(w: World, day: DayId, id: CommandId)
    requires HasDay(w, id) && DayOf(w, id) == day && w.rows[id].status == Completed
    requires day in w.days && MaySet(w.days, day, Running)
    ensures LateStart(w, StartDay(day)) && Orphaned(Step(w, StartDay(day)), day, id)
  {
    hide DayHasOpen, SP.Step;
    assert Finished(w, id);
  }

  /**
   A second handler of a command that another one has completed puts the day back to closing, and
   whatever keeps it from closing the day again orphans the day: its own requeue does nothing.
   */
  lemma SecondHandlerOrphans(w: World, day: DayId, id: CommandId, runner: RunnerId, now: int)
    requires HasDay(w, id) && DayOf(w, id) == day && w.rows[id].status == Completed
    requires day in w.days && MaySet(w.days, day, Closing) && Finishing(w, Job(runner, id), Taken)
    ensures var marked := Step(w, Mark(runner, id, false));
            && Doubles(w, Mark(runner, id, false)) && Orphaned(marked, day, id)
            && Enabled(marked, Defer(runner, id, true))
            && var deferred := Step(marked, Defer(runner, id, true));
               && Enabled(deferred, Requeue(runner, id, false, now))
               && Orphaned(Step(deferred, Requeue(runner, id, false, now)), day, id)
  {
    hide DayHasOpen, SP.Step;
    assert Finished(w, id);
    assert MaySet(w.days[day := w.days[day].(state := Closing)], day, SettlementPending);
  }

  // ---------------------------------------------------------------------------
  // A day is closed without open positions
  // ---------------------------------------------------------------------------

  lemma GuardOfClose(w: World, runner: RunnerId, id: CommandId)
    requires Enabled(w, CloseDay(runner, id))
    ensures HasDay(w, id) && NoneRemembered(SP.BookOf(w.sys, runner), DayOf(w, id))
  {
  }

  /** When no remembered position of a day is open, the day has none exactly when none was missed. */
  lemma NothingOpenExactly(db: Db, book: SP.Book, day: DayId)
    requires SP.RowsDistinct(db.positions) && BookKnown(db, book) && NoneRemembered(book, day)
    ensures Covers(db, book, Some(day)) <==> !DayHasOpen(db, day)
  {
    hide RowOf, SP.Known;
    if Covers(db, book, Some(day)) && DayHasOpen(db, day) {
      var i :| 0 <= i < |db.positions| && InScope(db.positions[i], Some(day));
      RememberedIsRow(db, book, i);
      assert false;
    }
  }

  lemma RememberedIsRow(db: Db, book: SP.Book, i: nat)
    requires SP.RowsDistinct(db.positions) && BookKnown(db, book) && i < |db.positions|
    requires db.positions[i].id in book && db.positions[i].status.Open?
    ensures book[db.positions[i].id] == db.positions[i]
  {
    SP.RowOfDistinct(db.positions, i);
    assert SP.Known(db, book[db.positions[i].id]);
  }

  /** A position of a day that a runner does not know to be open. */
  datatype Oversight = Oversight(runner: RunnerId, day: DayId, position: PositionId)

  /** Every open position that some runner does not remember. */
  ghost function Unseen(w: World): iset<Oversight> {
    iset x: Oversight | x.position in Missed(w.sys, x.runner, x.day)
  }

  /**
   The same told from the steps alone: an opening is unseen by every other runner, a crash forgets, a
   close settles the matter, and a read that succeeds shows the rows it reads.
   */
  ghost function UnseenNext(unseen: iset<Oversight>, w: World, a: Action): iset<Oversight>
    requires Enabled(w, a)
  {
    match a
    case Stop(runner) => unseen + Forgotten(w, runner)
    case Merge(runner, id, loaded) =>
      if loaded then iset x | x in unseen && !(x.runner == runner && x.day == DayOf(w, id)) else unseen
    case Trade(action) =>
      if action.Recover? && action.loaded then iset x | x in unseen && x.runner != action.runner
      else if Closes(w.sys, action) then iset x | x in unseen && x.position != action.position.id
      else if Opens(w.sys, action) then unseen + Unnoticed(action)
      else unseen
    case _ => unseen
  }

  /** What a runner remembers of open positions. */
  ghost function Forgotten(w: World, runner: RunnerId): iset<Oversight> {
    iset x: Oversight | x.runner == runner && x.position in SP.BookOf(w.sys, runner) && OpenOn(w.sys.db, x.position, x.day)
  }

  /** An opening as every other runner misses it. */
  ghost function Unnoticed(a: SP.Action): iset<Oversight>
    requires a.OpenFill?
  {
    iset x: Oversight | x.runner != a.runner && x.day == a.opening.day && x.position == a.opening.order
  }

  ghost function UnseenAfter(unseen: iset<Oversight>, w: World, actions: seq<Action>): iset<Oversight>
    requires Possible(w, actions)
    decreases |actions|
  {
    if actions == [] then unseen else UnseenAfter(UnseenNext(unseen, w, actions[0]), Step(w, actions[0]), actions[1..])
  }

  /** Some position of the day is unseen by the runner. */
  ghost predicate Overlooks(unseen: iset<Oversight>, runner: RunnerId, day: DayId) {
    exists p: PositionId :: Oversight(runner, day, p) in unseen
  }

  /** A handler closes a day only while no position of that day is unseen by its runner. */
  ghost predicate Informed(w: World, unseen: iset<Oversight>, a: Action) {
    a.CloseDay? && HasDay(w, a.id) && DayOf(w, a.id) in w.days ==> !Overlooks(unseen, a.runner, DayOf(w, a.id))
  }

  ghost predicate AllInformed(w: World, unseen: iset<Oversight>, actions: seq<Action>)
    requires Possible(w, actions)
    decreases |actions|
  {
    actions == []
    || (Informed(w, unseen, actions[0])
        && AllInformed(Step(w, actions[0]), UnseenNext(unseen, w, actions[0]), actions[1..]))
  }

  ghost predicate BooksKept(w: World) { SP.DbOk(w.sys.db) && BooksKnown(w.sys) }

  lemma MergeKeepsKnown(sys: SP.System, runner: RunnerId, day: DayId)
    requires SP.RowsDistinct(sys.db.positions) && BooksKnown(sys)
    ensures BooksKnown(MergeDay(sys, runner, day)) && MergeDay(sys, runner, day).db == sys.db
  {
    hide RowOf, SP.OpenRows, SP.Known;
    OpenRowsAgree(sys.db);
    var t := MergeDay(sys, runner, day);
    forall r, id | id in SP.BookOf(t, r) ensures SP.BookOf(t, r)[id].id == id && SP.Known(sys.db, SP.BookOf(t, r)[id]) {
      assert BookKnown(sys.db, SP.BookOf(sys, r));
      if r == runner && id in DayRows(sys.db.positions, day) {
        OpenRowKnown(sys.db, id, SP.OpenRows(sys.db.positions)[id]);
      }
    }
  }

  /** A read of a day shows its runner the day, and nothing else to anyone. */
  lemma MergeMisses(sys: SP.System, runner: RunnerId, day: DayId, other: RunnerId, scope: DayId)
    requires SP.RowsDistinct(sys.db.positions)
    ensures Missed(MergeDay(sys, runner, day), other, scope) ==
            if other == runner && scope == day then iset{} else Missed(sys, other, scope)
  {
    hide RowOf, SP.OpenRows;
    OpenRowsAgree(sys.db);
    var rows, all := sys.db.positions, SP.OpenRows(sys.db.positions);
    forall id | OpenOn(sys.db, id, scope) ensures id in DayRows(rows, day) <==> scope == day {
      var i := RowOf(rows, id).value;
      RowOfIs(rows, id);
      OpenRowIs(sys.db, i);
    }
  }

  lemma OpenRowIs(db: Db, i: nat)
    requires SP.RowsDistinct(db.positions) && i < |db.positions| && db.positions[i].status.Open?
    ensures db.positions[i].id in SP.OpenRows(db.positions) && SP.OpenRows(db.positions)[db.positions[i].id] == db.positions[i]
  {
    OpenRowsComplete(db.positions);
  }

  lemma QuietStep(w: World, a: Action)
    requires Enabled(w, a) && !a.Trade? && !a.Merge? && !a.Stop?
    ensures Step(w, a).sys == w.sys && forall unseen :: UnseenNext(unseen, w, a) == unseen
  {
    hide SP.Step, SP.Enabled, MaySet, DayHasOpen, KeysUnique, KeyFree, NoneRemembered, MergeDay;
  }

  lemma WorldKeepsBooks(w: World, a: Action)
    requires BooksKept(w) && Enabled(w, a)
    ensures BooksKept(Step(w, a))
  {
    hide Step, Enabled, SP.DbOk, BooksKnown, SP.Step, SP.Enabled, MergeDay;
    DistinctRows(w.sys.db);
    match a
    case Trade(action) =>
      TradeOfWorld(w, action);
      SP.StepKeepsDb(w.sys, action);
      StepKeepsKnown(w.sys, action);
    case Merge(runner, id, loaded) =>
      MergeOfWorld(w, runner, id, loaded);
      MergeKeepsKnown(w.sys, runner, DayOf(w, id));
    case Stop(runner) =>
      StopOfWorld(w, runner);
      SP.StepKeepsDb(w.sys, SP.Crash(runner));
      StepKeepsKnown(w.sys, SP.Crash(runner));
    case _ => QuietStep(w, a);
  }

  lemma TradeOfWorld(w: World, a: SP.Action)
    requires Enabled(w, Trade(a))
    ensures SP.Enabled(w.sys, a) && !a.Crash? && Step(w, Trade(a)) == w.(sys := SP.Step(w.sys, a))
  {
    hide SP.Step, SP.Enabled;
  }

  lemma MergeOfWorld(w: World, runner: RunnerId, id: CommandId, loaded: bool)
    requires Enabled(w, Merge(runner, id, loaded))
    ensures HasDay(w, id) && HasDay(Step(w, Merge(runner, id, loaded)), id)
    ensures Step(w, Merge(runner, id, loaded)).sys == if loaded then MergeDay(w.sys, runner, DayOf(w, id)) else w.sys
    ensures Step(w, Merge(runner, id, loaded)).rows == w.rows
  {
    hide MergeDay;
  }

  lemma StopOfWorld(w: World, runner: RunnerId)
    requires Enabled(w, Stop(runner))
    ensures SP.Enabled(w.sys, SP.Crash(runner)) && Step(w, Stop(runner)).sys == SP.Step(w.sys, SP.Crash(runner))
  {
    hide SP.Step;
  }

  /** What is unseen after a step is what the step says. */
  lemma UnseenStep(w: World, a: Action)
    requires BooksKept(w) && Enabled(w, a)
    ensures Unseen(Step(w, a)) == UnseenNext(Unseen(w), w, a)
  {
    hide Step, Enabled, SP.DbOk, BookKnown, SP.Step, SP.Enabled, MergeDay, Missed, Opens, Closes, OpenOn;
    DistinctRows(w.sys.db);
    if a.Merge? {
      MergeOfWorld(w, a.runner, a.id, a.loaded);
    } else if a.Trade? {
      TradeOfWorld(w, a.action);
    } else if a.Stop? {
      StopOfWorld(w, a.runner);
    } else {
      QuietStep(w, a);
    }
    var later := UnseenNext(Unseen(w), w, a);
    forall x: Oversight ensures x in Unseen(Step(w, a)) <==> x in later {
      if a.Merge? && a.loaded {
        MergeMisses(w.sys, a.runner, DayOf(w, a.id), x.runner, x.day);
      } else if a.Trade? {
        MissedStep(w.sys, a.action, x.runner, x.day);
        OpensOrCloses(w.sys, a.action);
      } else if a.Stop? {
        MissedStep(w.sys, SP.Crash(a.runner), x.runner, x.day);
        OpensOrCloses(w.sys, SP.Crash(a.runner));
      }
    }
  }

  lemma OpensOrCloses(s: SP.System, a: SP.Action)
    ensures Opens(s, a) ==> a.OpenFill?
    ensures Closes(s, a) ==> a.CloseFill? || a.Liquidate?
  {
  }

  lemma {:induction false} UnseenHistory(w: World, actions: seq<Action>)
    requires BooksKept(w) && Possible(w, actions)
    ensures BooksKept(After(w, actions)) && Unseen(After(w, actions)) == UnseenAfter(Unseen(w), w, actions)
    decreases |actions|
  {
    hide Step, Enabled, BooksKept, Unseen, UnseenNext;
    if actions != [] {
      WorldKeepsBooks(w, actions[0]);
      UnseenStep(w, actions[0]);
      UnseenHistory(Step(w, actions[0]), actions[1..]);
    }
  }

  /** What becomes of one position of one day and one runner depends on nothing else unseen. */
  lemma {:induction false} UnseenApart(a: iset<Oversight>, b: iset<Oversight>, w: World, actions: seq<Action>, x: Oversight)
    requires Possible(w, actions) && (x in a <==> x in b)
    ensures x in UnseenAfter(a, w, actions) <==> x in UnseenAfter(b, w, actions)
    decreases |actions|
  {
    hide Step, Enabled, Closes, Opens, OpenOn;
    if actions != [] {
      UnseenApart(UnseenNext(a, w, actions[0]), UnseenNext(b, w, actions[0]), Step(w, actions[0]), actions[1..], x);
    }
  }

  /** The step takes the day out of a runner's sight: it forgets an open position, or another runner opens one. */
  ghost predicate LosesSight(w: World, a: Action, runner: RunnerId, day: DayId) {
    || (a == Stop(runner) && exists p :: p in SP.BookOf(w.sys, runner) && OpenOn(w.sys.db, p, day))
    || (a.Trade? && Opens(w.sys, a.action) && a.action.runner != runner && a.action.opening.day == day)
  }

  /** A runner that remembers all open positions of a day goes on doing so exactly when no step loses sight of it. */
  lemma SightExactly(w: World, a: Action, runner: RunnerId, day: DayId)
    requires BooksKept(w) && Enabled(w, a) && Covers(w.sys.db, SP.BookOf(w.sys, runner), Some(day))
    ensures var t := Step(w, a).sys; Covers(t.db, SP.BookOf(t, runner), Some(day)) <==> !LosesSight(w, a, runner, day)
  {
    hide Step, Enabled, SP.DbOk, BooksKnown, SP.Step, MergeDay, Missed, Opens, Closes, OpenOn, Covers;
    var t := Step(w, a);
    WorldKeepsBooks(w, a);
    DistinctRows(w.sys.db);
    DistinctRows(t.sys.db);
    NothingMissed(w.sys, runner, day);
    NothingMissed(t.sys, runner, day);
    UnseenStep(w, a);
    if a.Trade? {
      TradeOfWorld(w, a.action);
      OpensOrCloses(w.sys, a.action);
    }
    forall p ensures p in Missed(t.sys, runner, day) <==> Oversight(runner, day, p) in UnseenNext(Unseen(w), w, a) {
      assert Oversight(runner, day, p) in Unseen(t) <==> p in Missed(t.sys, runner, day);
    }
    forall p ensures Oversight(runner, day, p) !in Unseen(w) {
      assert p !in Missed(w.sys, runner, day);
    }
    if LosesSight(w, a, runner, day) {
      var p: PositionId;
      if a.Stop? {
        p :| p in SP.BookOf(w.sys, runner) && OpenOn(w.sys.db, p, day);
      } else {
        p := a.action.opening.order;
      }
      assert Oversight(runner, day, p) in UnseenNext(Unseen(w), w, a);
      assert p in Missed(t.sys, runner, day);
    } else {
      forall p ensures p !in Missed(t.sys, runner, day) {
        assert Oversight(runner, day, p) !in UnseenNext(Unseen(w), w, a);
      }
      assert Missed(t.sys, runner, day) == iset{};
    }
  }

  /** When a handler closes a day, a position of it is open exactly when its runner overlooks one. */
  lemma OpenIsOverlooked(w: World, runner: RunnerId, id: CommandId)
    requires BooksKept(w) && Enabled(w, CloseDay(runner, id))
    ensures HasDay(w, id) && (DayHasOpen(w.sys.db, DayOf(w, id)) <==> Overlooks(Unseen(w), runner, DayOf(w, id)))
  {
    hide Enabled, SP.DbOk, RowOf, SP.Known, Missed, NoneRemembered, DayHasOpen, Covers, BookKnown;
    GuardOfClose(w, runner, id);
    DistinctRows(w.sys.db);
    NothingOpenExactly(w.sys.db, SP.BookOf(w.sys, runner), DayOf(w, id));
    NothingMissed(w.sys, runner, DayOf(w, id));
    var missed := Missed(w.sys, runner, DayOf(w, id));
    if missed != iset{} {
      assert (forall p :: p !in missed) ==> missed == iset{};
      var p :| p in missed;
      assert Oversight(runner, DayOf(w, id), p) in Unseen(w);
    }
  }

  lemma CloseOfWorld(w: World, runner: RunnerId, id: CommandId)
    requires Enabled(w, CloseDay(runner, id)) && DayOf(w, id) in w.days
    ensures var day, t := DayOf(w, id), Step(w, CloseDay(runner, id));
            && day in t.days && t.days[day].state == DayClosed && t.sys == w.sys
            && t.dirty == (if DayHasOpen(w.sys.db, day) then w.dirty + {day} else w.dirty)
            && t.clean == if DayHasOpen(w.sys.db, day) then w.clean else w.clean + {day}
  {
    hide DayHasOpen;
    ClosingIsFree(w.days, DayOf(w, id));
  }

  /**
   From the handler's read of the day's positions to its close of the day, whatever happens between:
   the day is closed with an open position exactly when the read failed and one missed before it is
   still unseen, or one went unseen since.
   */
  lemma DirtyExactly(w: World, runner: RunnerId, id: CommandId, loaded: bool, later: seq<Action>)
    requires BooksKept(w) && Enabled(w, Merge(runner, id, loaded))
    requires Possible(Step(w, Merge(runner, id, loaded)), later)
    requires var t := After(Step(w, Merge(runner, id, loaded)), later);
             Enabled(t, CloseDay(runner, id)) && DayOf(t, id) in t.days && DayOf(t, id) == w.rows[id].day.value
    ensures var read := Step(w, Merge(runner, id, loaded));
            var t := After(read, later);
            var day, closed := DayOf(t, id), Step(t, CloseDay(runner, id));
            && closed.days[day].state == DayClosed
            && (DayHasOpen(closed.sys.db, day) <==>
                Overlooks(UnseenAfter(if loaded then iset{} else Unseen(w), read, later), runner, day))
  {
    hide Step, Enabled, BooksKept, Unseen, DayHasOpen, UnseenAfter;
    var read := Step(w, Merge(runner, id, loaded));
    var t := After(read, later);
    GuardOfClose(t, runner, id);
    var day := DayOf(t, id);
    WorldKeepsBooks(w, Merge(runner, id, loaded));
    UnseenStep(w, Merge(runner, id, loaded));
    UnseenHistory(read, later);
    OpenIsOverlooked(t, runner, id);
    CloseOfWorld(t, runner, id);
    forall p: PositionId
      ensures Oversight(runner, day, p) in UnseenAfter(Unseen(read), read, later) <==>
              Oversight(runner, day, p) in UnseenAfter(if loaded then iset{} else Unseen(w), read, later)
    {
      UnseenApart(Unseen(read), if loaded then iset{} else Unseen(w), read, later, Oversight(runner, day, p));
    }
  }

  lemma StepStaysClean(w: World, a: Action)
    requires BooksKept(w) && Enabled(w, a)
    ensures w.dirty <= Step(w, a).dirty
    ensures w.dirty == {} ==> (Step(w, a).dirty == {} <==> Informed(w, Unseen(w), a))
  {
    hide SP.Step, SP.Enabled, SP.RowsOk, SP.FillsUnique, SP.NoStrays, SP.Balanced, MaySet, KeysUnique,
      KeyFree, MergeDay, RowOf, NoneRemembered, DayHasOpen, BookKnown, Unseen, Overlooks, BooksKept;
    if a.CloseDay? {
      OpenIsOverlooked(w, a.runner, a.id);
    }
  }

  lemma {:induction false} CleanInvariant(w: World, actions: seq<Action>)
    requires BooksKept(w) && Possible(w, actions)
    ensures w.dirty <= After(w, actions).dirty
    ensures w.dirty == {} ==> (After(w, actions).dirty == {} <==> AllInformed(w, Unseen(w), actions))
    decreases |actions|
  {
    hide Step, Enabled, BooksKept, Informed, Unseen, UnseenNext;
    if actions != [] {
      WorldKeepsBooks(w, actions[0]);
      UnseenStep(w, actions[0]);
      StepStaysClean(w, actions[0]);
      CleanInvariant(Step(w, actions[0]), actions[1..]);
    }
  }

  lemma NothingUnseenAtDawn()
    ensures BooksKept(DAWN) && Unseen(DAWN) == iset{}
  {
    SP.EmptyDbOk();
  }

  /**
   In every run, with any number of runners and liquidations: every day was closed without open
   positions of that day exactly when no handler closed one while its runner overlooked a position of
   it; then every completed finish command has a day so closed.
   */
  lemma ClosedWithoutPositions(actions: seq<Action>)
    requires Possible(DAWN, actions)
    ensures After(DAWN, actions).dirty == {} <==> AllInformed(DAWN, iset{}, actions)
    ensures var w := After(DAWN, actions);
            w.dirty == {} ==> forall id :: HasDay(w, id) && w.rows[id].status == Completed ==> DayOf(w, id) in w.clean
  {
    hide Step, Enabled, Informed, UnseenNext, Unseen, BooksKept;
    NothingUnseenAtDawn();
    CleanInvariant(DAWN, actions);
    ProgressInvariant(DAWN, actions);
    var w := After(DAWN, actions);
    if w.dirty == {} {
      forall id | HasDay(w, id) && w.rows[id].status == Completed ensures DayOf(w, id) in w.clean {
        assert Progress(w, id);
      }
    }
  }

  // ---------------------------------------------------------------------------
  // A stale entry blocks the close
  // ---------------------------------------------------------------------------

  lemma StaleWorldStep(w: World, a: Action, runner: RunnerId, p: Position)
    requires SP.DbOk(w.sys.db) && IsStale(w.sys, runner, p) && Enabled(w, a) && a != Stop(runner)
    ensures IsStale(Step(w, a).sys, runner, p)
  {
    hide Step, Enabled, SP.DbOk, IsStale;
    DistinctRows(w.sys.db);
    match a
    case Trade(action) => StaleTrade(w, action, runner, p);
    case Merge(r, id, loaded) => StaleMerge(w, r, id, loaded, runner, p);
    case Stop(r) => StaleStop(w, r, runner, p);
    case _ => QuietStep(w, a);
  }

  lemma StaleTrade(w: World, a: SP.Action, runner: RunnerId, p: Position)
    requires SP.RowsDistinct(w.sys.db.positions) && IsStale(w.sys, runner, p) && Enabled(w, Trade(a))
    ensures IsStale(Step(w, Trade(a)).sys, runner, p)
  {
    hide SP.Step, IsStale, SP.Enabled;
    StaleStep(w.sys, a, runner, p);
  }

  lemma StaleMerge(w: World, r: RunnerId, id: CommandId, loaded: bool, runner: RunnerId, p: Position)
    requires SP.RowsDistinct(w.sys.db.positions) && IsStale(w.sys, runner, p) && Enabled(w, Merge(r, id, loaded))
    ensures IsStale(Step(w, Merge(r, id, loaded)).sys, runner, p)
  {
    hide RowOf, SP.OpenRows;
    OpenRowsAgree(w.sys.db);
    var all := SP.OpenRows(w.sys.db.positions);
    assert p.id in all ==> OpenRow(w.sys.db, p.id, all[p.id]);
  }

  lemma StaleStop(w: World, r: RunnerId, runner: RunnerId, p: Position)
    requires IsStale(w.sys, runner, p) && r != runner
    ensures IsStale(Step(w, Stop(r)).sys, runner, p)
  {
    hide RowOf, SP.OpenRows, SP.CommitOpening, SP.CommitClosing, SP.ClosingOf;
  }

  lemma {:induction false} StaleWorld(w: World, actions: seq<Action>, runner: RunnerId, p: Position)
    requires BooksKept(w) && IsStale(w.sys, runner, p) && Possible(w, actions)
    requires forall i :: 0 <= i < |actions| ==> actions[i] != Stop(runner)
    ensures IsStale(After(w, actions).sys, runner, p)
    decreases |actions|
  {
    hide Step, Enabled, IsStale, SP.DbOk, BooksKnown;
    if actions != [] {
      StaleWorldStep(w, actions[0], runner, p);
      WorldKeepsBooks(w, actions[0]);
      StaleWorld(Step(w, actions[0]), actions[1..], runner, p);
    }
  }

  /**
   A remembered position that somebody else closed or liquidated keeps its runner from closing the
   day, whatever happens, until that runner crashes: it cannot be closed again, and it is not forgotten.
   */
  lemma StaleBlocksClose(w: World, actions: seq<Action>, runner: RunnerId, p: Position, id: CommandId)
    requires BooksKept(w) && Possible(w, actions)
    requires IsStale(w.sys, runner, p) && p.status.Open?
    requires forall i :: 0 <= i < |actions| ==> actions[i] != Stop(runner)
    ensures var t := After(w, actions); HasDay(t, id) && DayOf(t, id) == p.day ==> !Enabled(t, CloseDay(runner, id))
  {
    hide Step;
    StaleWorld(w, actions, runner, p);
    var t := After(w, actions);
    assert InScope(SP.BookOf(t.sys, runner)[p.id], Some(p.day));
  }
}
