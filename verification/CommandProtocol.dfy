/**
 Every run of the command table: clients that submit, any number of runners that claim,
 record, settle, requeue or crash, and the lease sweep that frees abandoned claims.
 */
module CommandProtocol {
  import opened Commands
  import opened Wrappers

  type RunnerId = int

  /**
   The table, and beside each command how often it was claimed and released and which runners
   are executing it.
   */
  datatype State = State(rows: Table, claims: map<CommandId, nat>, releases: map<CommandId, nat>,
                         holders: map<CommandId, set<RunnerId>>)

  const INITIAL := State(map[], map[], map[], map[])

  datatype Action =
    | Insert(id: CommandId, owner: OwnerId, key: string, kind: string, day: Option<string>, request: Payload,
             revision: Option<int>, now: int)
    | Stamp(id: CommandId, request: Payload, now: int)
    | Claim(runner: RunnerId, id: CommandId, now: int)
    | Record(runner: RunnerId, id: CommandId, status: Status, result: Option<Payload>, error: Option<string>, now: int)
    | Settle(runner: RunnerId, id: CommandId, result: Option<Payload>, now: int)
    | Requeue(runner: RunnerId, id: CommandId, error: Option<string>, now: int)
    | Sweep(now: int, maxAge: int)
    | Abandon(runner: RunnerId, id: CommandId)

  ghost predicate Holding(s: State, runner: RunnerId, id: CommandId) {
    id in s.rows && id in s.holders && runner in s.holders[id]
  }

  /**
   What the code can attempt: a conflict is stamped after reading a different request, a runner
   claims what it is not executing already, and only an executing runner records (`completed` or
   `failed`), settles or requeues.  `Abandon` is a crash, or a settling write that was lost.
   */
  ghost predicate Enabled(s: State, a: Action) {
    match a
    case Insert(_, _, _, _, _, _, _, _) => true
    case Stamp(id, request, _) => id in s.rows && s.rows[id].request != request
    case Claim(runner, id, _) => id in s.rows && !Holding(s, runner, id)
    case Record(runner, id, status, _, _, _) => Holding(s, runner, id) && status in {Completed, Failed}
    case Settle(runner, id, _, _) => Holding(s, runner, id)
    case Requeue(runner, id, _, _) => Holding(s, runner, id)
    case Sweep(_, _) => true
    case Abandon(runner, id) => Holding(s, runner, id)
  }

  function Count(m: map<CommandId, nat>, id: CommandId): nat { if id in m then m[id] else 0 }

  function HoldersOf(s: State, id: CommandId): set<RunnerId> { if id in s.holders then s.holders[id] else {} }

  ghost function Leave(s: State, runner: RunnerId, id: CommandId): map<CommandId, set<RunnerId>> {
    s.holders[id := HoldersOf(s, id) - {runner}]
  }

  ghost function Step(s: State, a: Action): State {
    match a
    case Insert(id, owner, key, kind, day, request, revision, now) =>
      s.(rows := Inserted(s.rows, id, NewCommand(owner, key, kind, day, request, revision, now)))
    case Stamp(id, _, now) => s.(rows := Stamped(s.rows, id, now))
    case Claim(runner, id, now) =>
      if id in s.rows && s.rows[id].status == Accepted then
        State(Claimed(s.rows, id, now), s.claims[id := Count(s.claims, id) + 1], s.releases,
              s.holders[id := HoldersOf(s, id) + {runner}])
      else s
    case Record(_, id, status, result, error, now) => s.(rows := Recorded(s.rows, id, status, result, error, now))
    case Settle(runner, id, result, now) => s.(rows := Settled(s.rows, id, result, now), holders := Leave(s, runner, id))
    case Requeue(runner, id, error, now) =>
      var released := id in s.rows && s.rows[id].status == Processing;
      State(Requeued(s.rows, id, error, now), s.claims,
            if released then s.releases[id := Count(s.releases, id) + 1] else s.releases, Leave(s, runner, id))
    case Sweep(now, maxAge) =>
      State(StaleRequeued(s.rows, now, maxAge), s.claims,
            map id | id in s.rows :: Count(s.releases, id) + if Stale(s.rows[id], now, maxAge) then 1 else 0,
            s.holders)
    case Abandon(runner, id) => s.(holders := Leave(s, runner, id))
  }

  /** `actions` can happen one after another from `s`. */
  ghost predicate Possible(s: State, actions: seq<Action>)
    decreases |actions|
  {
    actions == [] || (Enabled(s, actions[0]) && Possible(Step(s, actions[0]), actions[1..]))
  }

  ghost function After(s: State, actions: seq<Action>): State
    decreases |actions|
  {
    if actions == [] then s else After(Step(s, actions[0]), actions[1..])
  }

  // ---------------------------------------------------------------------------
  // Lifecycle
  // ---------------------------------------------------------------------------

  ghost predicate RowOk(s: State, id: CommandId)
    requires id in s.rows
  {
    var c, r := Count(s.claims, id), Count(s.releases, id);
    match s.rows[id].status
    case Accepted => c == r
    case Processing => c == r + 1
    case _ => r <= c <= r + 1
  }

  ghost predicate LifecycleOk(s: State) {
    && KeysUnique(s.rows)
    && (forall id :: id in s.rows ==> RowOk(s, id))
    && (forall id :: id !in s.rows ==> Untouched(s, id))
  }

  /** Row `id` is still there, is still the same request, and if it was terminal it is, and is never claimed again. */
  ghost predicate RowEndures(s: State, t: State, id: CommandId)
    requires id in s.rows
  {
    && id in t.rows && SameIdentity(s.rows[id], t.rows[id])
    && (Terminal(s.rows[id].status) ==> Terminal(t.rows[id].status) && Count(t.claims, id) == Count(s.claims, id))
  }

  lemma StepKeepsIdentity(s: State, a: Action, id: CommandId)
    requires id in s.rows && Enabled(s, a)
    ensures RowEndures(s, Step(s, a), id)
  {
    hide KeyFree;
  }

  lemma StepAddsOnlyInserted(s: State, a: Action, id: CommandId)
    requires id in Step(s, a).rows && id !in s.rows
    ensures a.Insert? && a.id == id && KeyFree(s.rows, a.owner, a.key)
    ensures Step(s, a).rows[id].owner == a.owner && Step(s, a).rows[id].key == a.key
  {
    hide KeyFree;
  }

  lemma StepKeepsKeys(s: State, a: Action)
    requires KeysUnique(s.rows) && Enabled(s, a)
    ensures KeysUnique(Step(s, a).rows)
  {
    var t := Step(s, a).rows;
    forall x, y | x in t && y in t && Owns(t[y], t[x].owner, t[x].key) ensures x == y {
      if x in s.rows { StepKeepsIdentity(s, a, x); } else { StepAddsOnlyInserted(s, a, x); }
      if y in s.rows { StepKeepsIdentity(s, a, y); } else { StepAddsOnlyInserted(s, a, y); }
      hide Step, Enabled;
      assert x in s.rows && y in s.rows ==> Owns(s.rows[y], s.rows[x].owner, s.rows[x].key);
    }
  }

  ghost predicate Untouched(s: State, id: CommandId) {
    Count(s.claims, id) == 0 && Count(s.releases, id) == 0 && HoldersOf(s, id) == {}
  }

  lemma StepKeepsRow(s: State, a: Action, id: CommandId)
    requires if id in s.rows then RowOk(s, id) else Untouched(s, id)
    requires Enabled(s, a)
    ensures var t := Step(s, a); if id in t.rows then RowOk(t, id) else Untouched(t, id)
  {
    hide KeyFree;
  }

  lemma StepKeepsLifecycle(s: State, a: Action)
    requires LifecycleOk(s) && Enabled(s, a)
    ensures LifecycleOk(Step(s, a))
  {
    StepKeepsKeys(s, a);
    hide KeysUnique, Enabled, Step, RowOk, Untouched;
    var t := Step(s, a);
    forall id ensures if id in t.rows then RowOk(t, id) else Untouched(t, id) {
      StepKeepsRow(s, a, id);
    }
  }

  /** In every run, an accepted command was released as often as it was claimed and a processing one is claimed once more. */
  lemma {:induction false} LifecycleInvariant(s: State, actions: seq<Action>)
    requires LifecycleOk(s) && Possible(s, actions)
    ensures LifecycleOk(After(s, actions))
    decreases |actions|
  {
    hide LifecycleOk, Enabled, Step;
    if actions != [] {
      StepKeepsLifecycle(s, actions[0]);
      LifecycleInvariant(Step(s, actions[0]), actions[1..]);
    }
  }

  /** Later states: nothing is removed or renamed, and what was terminal still is and was not claimed since. */
  ghost predicate Endures(s: State, t: State) {
    forall id :: id in s.rows ==> RowEndures(s, t, id)
  }

  /**
   A command that is completed, failed or in conflict is never again accepted or processing, and
   never claimed again.  In particular a conflicting resubmission ends even an accepted command.
   */
  lemma {:induction false} TerminalForever(s: State, actions: seq<Action>)
    requires Possible(s, actions)
    ensures Endures(s, After(s, actions))
    decreases |actions|
  {
    hide Enabled, Step;
    if actions != [] {
      var t := Step(s, actions[0]);
      forall id | id in s.rows ensures RowEndures(s, t, id) {
        StepKeepsIdentity(s, actions[0], id);
      }
      TerminalForever(t, actions[1..]);
    }
  }

  /** From the empty table on, an owner's key names at most one command, and always the same one. */
  lemma OneCommandPerKey(before: seq<Action>, after: seq<Action>, owner: OwnerId, key: string, a: CommandId, b: CommandId)
    requires Possible(INITIAL, before) && Possible(After(INITIAL, before), after)
    requires a in After(INITIAL, before).rows && Owns(After(INITIAL, before).rows[a], owner, key)
    requires b in After(After(INITIAL, before), after).rows && Owns(After(After(INITIAL, before), after).rows[b], owner, key)
    ensures a == b
  {
    hide Enabled, Step;
    var middle := After(INITIAL, before);
    LifecycleInvariant(INITIAL, before);
    LifecycleInvariant(middle, after);
    TerminalForever(middle, after);
  }

  /** Writes that a finished command does not withstand: a handler's own record, and the stamp of a conflict. */
  predicate Rewrites(a: Action, id: CommandId) { (a.Record? || a.Stamp?) && a.id == id }

  /**
   What a handler recorded of a finished command is there for good, its result included, unless another
   handler records again or a different request is submitted under its key: no settling write, release,
   sweep or claim of anyone touches it.
   */
  lemma {:induction false} RecordSurvives(s: State, actions: seq<Action>, id: CommandId)
    requires Possible(s, actions) && id in s.rows && Terminal(s.rows[id].status)
    requires forall i :: 0 <= i < |actions| ==> !Rewrites(actions[i], id)
    ensures id in After(s, actions).rows && After(s, actions).rows[id] == s.rows[id]
    decreases |actions|
  {
    hide Enabled, Step;
    if actions != [] {
      TerminalStep(s, actions[0], id);
      RecordSurvives(Step(s, actions[0]), actions[1..], id);
    }
  }

  lemma TerminalStep(s: State, a: Action, id: CommandId)
    requires Enabled(s, a) && id in s.rows && Terminal(s.rows[id].status) && !Rewrites(a, id)
    ensures id in Step(s, a).rows && Step(s, a).rows[id] == s.rows[id]
  {
    hide KeyFree;
  }

  /** A claim is good for the whole lease: no sweep before its end frees the command. */
  lemma ClaimIsLeased(s: State, runner: RunnerId, id: CommandId, now: int, later: int, maxAge: int)
    requires id in s.rows && s.rows[id].status == Accepted && Enabled(s, Claim(runner, id, now))
    ensures var claimed := Step(s, Claim(runner, id, now));
            && id in claimed.rows && claimed.rows[id].status == Processing
            && (Step(claimed, Sweep(later, maxAge)).rows[id].status == Processing <==> later <= now + maxAge)
  {
  }

  // ---------------------------------------------------------------------------
  // One executor at a time
  // ---------------------------------------------------------------------------

  /** The lease sweep frees no command that a live runner is still executing. */
  ghost predicate SparesLive(s: State, a: Action) {
    a.Sweep? ==> forall id :: id in s.rows && Stale(s.rows[id], a.now, a.maxAge) ==> HoldersOf(s, id) == {}
  }

  ghost predicate AllSpareLive(s: State, actions: seq<Action>)
    decreases |actions|
  {
    actions == [] || (SparesLive(s, actions[0]) && AllSpareLive(Step(s, actions[0]), actions[1..]))
  }

  ghost predicate AtMostOne(h: set<RunnerId>) { forall a, b :: a in h && b in h ==> a == b }

  ghost predicate RowExclusive(s: State, id: CommandId)
    requires id in s.rows
  {
    && AtMostOne(HoldersOf(s, id))
    && (s.rows[id].status == Accepted ==> HoldersOf(s, id) == {})
  }

  ghost predicate Exclusive(s: State) {
    forall id :: id in s.rows ==> RowExclusive(s, id)
  }

  lemma StepKeepsRowExclusive(s: State, a: Action, id: CommandId)
    requires if id in s.rows then RowExclusive(s, id) else Untouched(s, id)
    requires Enabled(s, a) && SparesLive(s, a) && id in Step(s, a).rows
    ensures RowExclusive(Step(s, a), id)
  {
    hide KeyFree;
    if a.Requeue? && a.id == id {
      forall other | other in HoldersOf(s, id) ensures other == a.runner {}
      assert HoldersOf(s, id) - {a.runner} == {};
    }
  }

  /** A step keeps every command with at most one executor exactly when it is no sweep over a live one. */
  lemma ExclusiveExactly(s: State, a: Action)
    requires LifecycleOk(s) && Exclusive(s) && Enabled(s, a)
    ensures Exclusive(Step(s, a)) <==> SparesLive(s, a)
  {
    hide KeysUnique, Enabled, Step, RowOk, Untouched, RowExclusive;
    if SparesLive(s, a) {
      forall id | id in Step(s, a).rows ensures RowExclusive(Step(s, a), id) {
        StepKeepsRowExclusive(s, a, id);
      }
    } else {
      var id :| id in s.rows && Stale(s.rows[id], a.now, a.maxAge) && HoldersOf(s, id) != {};
      SweptWhileHeld(s, a.now, a.maxAge, id);
    }
  }

  lemma SweptWhileHeld(s: State, now: int, maxAge: int, id: CommandId)
    requires id in s.rows && Stale(s.rows[id], now, maxAge) && HoldersOf(s, id) != {}
    ensures id in Step(s, Sweep(now, maxAge)).rows && !RowExclusive(Step(s, Sweep(now, maxAge)), id)
  {
  }

  lemma {:induction false} ExclusiveInvariant(s: State, actions: seq<Action>)
    requires LifecycleOk(s) && Exclusive(s) && Possible(s, actions) && AllSpareLive(s, actions)
    ensures Exclusive(After(s, actions))
    decreases |actions|
  {
    hide LifecycleOk, Exclusive, Enabled, Step, SparesLive;
    if actions != [] {
      StepKeepsLifecycle(s, actions[0]);
      ExclusiveExactly(s, actions[0]);
      ExclusiveInvariant(Step(s, actions[0]), actions[1..]);
    }
  }

  /** As long as the sweep spares live runners, no command is executed by two runners at once. */
  lemma OneExecutor(actions: seq<Action>, id: CommandId, a: RunnerId, b: RunnerId)
    requires Possible(INITIAL, actions) && AllSpareLive(INITIAL, actions)
    requires Holding(After(INITIAL, actions), a, id) && Holding(After(INITIAL, actions), b, id)
    ensures a == b
  {
    ExclusiveInvariant(INITIAL, actions);
  }

  /** Any sweep over a command that a live runner executes lets another runner claim and execute it too. */
  lemma SweptHandlerIsDoubled(s: State, id: CommandId, slow: RunnerId, other: RunnerId, now: int, maxAge: int, later: int)
    requires Holding(s, slow, id) && !Holding(s, other, id) && Stale(s.rows[id], now, maxAge)
    ensures Enabled(s, Sweep(now, maxAge)) && Enabled(Step(s, Sweep(now, maxAge)), Claim(other, id, later))
    ensures var t := Step(Step(s, Sweep(now, maxAge)), Claim(other, id, later));
            Holding(t, slow, id) && Holding(t, other, id) && slow != other
  {
  }

  const LATE := [
    Insert(1, 1, "k", "close_all", None, map[], None, 0), Claim(1, 1, 0), Sweep(100, 60), Claim(2, 1, 100)]

  /** One step and then the rest. */
  lemma RunStep(s: State, a: Action, rest: seq<Action>)
    ensures Possible(s, [a] + rest) <==> Enabled(s, a) && Possible(Step(s, a), rest)
    ensures After(s, [a] + rest) == After(Step(s, a), rest)
    ensures AllSpareLive(s, [a] + rest) <==> SparesLive(s, a) && AllSpareLive(Step(s, a), rest)
  {
    hide Step, Enabled, SparesLive;
    assert ([a] + rest)[1..] == rest;
  }

  lemma SlowClaim()
    ensures var s1 := Step(INITIAL, LATE[0]);
            var s2 := Step(s1, LATE[1]);
            && Enabled(INITIAL, LATE[0]) && Enabled(s1, LATE[1])
            && Holding(s2, 1, 1) && !Holding(s2, 2, 1) && Stale(s2.rows[1], 100, 60) && !SparesLive(s2, LATE[2])
  {
    var s1 := Step(INITIAL, LATE[0]);
    assert KeyFree(map[], 1, "k");
    assert s1.rows[1].status == Accepted;
    assert 1 in HoldersOf(Step(s1, LATE[1]), 1);
  }

  /** A run from the empty table in which a sweep outlives a slow handler and two runners execute one command. */
  lemma SlowHandlerIsDoubled()
    ensures Possible(INITIAL, LATE) && !AllSpareLive(INITIAL, LATE)
    ensures Holding(After(INITIAL, LATE), 1, 1) && Holding(After(INITIAL, LATE), 2, 1)
  {
    hide Step, Enabled, Holding, Stale, SparesLive, After, Possible, AllSpareLive;
    var s1 := Step(INITIAL, LATE[0]);
    var s2 := Step(s1, LATE[1]);
    SlowClaim();
    SweptHandlerIsDoubled(s2, 1, 1, 2, 100, 60, 100);
    RunStep(INITIAL, LATE[0], LATE[1..]);
    RunStep(s1, LATE[1], LATE[2..]);
    RunStep(s2, LATE[2], LATE[3..]);
    RunStep(Step(s2, LATE[2]), LATE[3], []);
    assert LATE == [LATE[0]] + LATE[1..] && LATE[1..] == [LATE[1]] + LATE[2..];
    assert LATE[2..] == [LATE[2]] + LATE[3..] && LATE[3..] == [LATE[3]] + [];
    NoSteps(Step(Step(s2, LATE[2]), LATE[3]));
  }

  lemma NoSteps(s: State)
    ensures Possible(s, []) && After(s, []) == s
  {
  }
}
