/**
 The command cycle of `paper_trading/runner.py`: poll, claim, execute, settle or requeue, while
 other processes write to the same table between any two of its transactions.
 */
module CommandLoop {
  import opened CommandProtocol
  import opened Commands
  import opened Wrappers

  /** A polled command: its id and the revision it was submitted for. */
  datatype Queued = Queued(id: CommandId, expectedRevision: Option<int>)

  /** How a handler ends: with the command processed or put off, or with an exception. */
  datatype Outcome = Handled(processed: bool) | HandlerRaised

  /** What a handler records of its own, before it ends. */
  datatype Note = Note(completed: bool, result: Option<Payload>, error: Option<string>)

  /** One queued command as it turns out: whether its claim raises, how its handler ends, whether its last write raises. */
  datatype Turn = Turn(claimRaises: bool, note: Option<Note>, outcome: Outcome, endRaises: bool)

  /** A run of the protocol leads from `s` to `t`, and these are the runner's own actions in it. */
  ghost predicate Runs(s: State, t: State, runner: RunnerId, own: seq<Action>) {
    exists actions :: Leads(s, actions, t) && Own(actions, runner) == own
  }

  ghost predicate Leads(s: State, actions: seq<Action>, t: State) {
    Possible(s, actions) && After(s, actions) == t
  }

  predicate ByRunner(a: Action, runner: RunnerId) {
    (a.Claim? || a.Record? || a.Settle? || a.Requeue? || a.Abandon?) && a.runner == runner
  }

  function Own(actions: seq<Action>, runner: RunnerId): seq<Action> {
    if actions == [] then [] else OwnOf(actions[0], runner) + Own(actions[1..], runner)
  }

  function OwnOf(a: Action, runner: RunnerId): seq<Action> { if ByRunner(a, runner) then [a] else [] }

  lemma {:induction false} LeadsOn(s: State, first: seq<Action>, t: State, second: seq<Action>, u: State)
    requires Leads(s, first, t) && Leads(t, second, u)
    ensures Leads(s, first + second, u)
    decreases |first|
  {
    hide Enabled, Step;
    if first == [] {
      assert first + second == second;
    } else {
      assert (first + second)[1..] == first[1..] + second;
      LeadsOn(Step(s, first[0]), first[1..], t, second, u);
    }
  }

  lemma {:induction false} OwnOn(first: seq<Action>, second: seq<Action>, runner: RunnerId)
    ensures Own(first + second, runner) == Own(first, runner) + Own(second, runner)
    decreases |first|
  {
    hide OwnOf;
    if first == [] {
      assert first + second == second;
    } else {
      assert (first + second)[1..] == first[1..] + second;
      OwnOn(first[1..], second, runner);
      var head, tail, rest := OwnOf(first[0], runner), Own(first[1..], runner), Own(second, runner);
      assert head + (tail + rest) == head + tail + rest;
    }
  }

  lemma RunsOn(s: State, t: State, u: State, runner: RunnerId, first: seq<Action>, second: seq<Action>)
    requires Runs(s, t, runner, first) && Runs(t, u, runner, second)
    ensures Runs(s, u, runner, first + second)
  {
    hide Leads;
    var a :| Leads(s, a, t) && Own(a, runner) == first;
    var b :| Leads(t, b, u) && Own(b, runner) == second;
    LeadsOn(s, a, t, b, u);
    OwnOn(a, b, runner);
  }

  lemma RunsSelf(s: State, runner: RunnerId)
    ensures Runs(s, s, runner, [])
  {
    assert Leads(s, [], s) && Own([], runner) == [];
  }

  lemma RunsStep(s: State, a: Action, runner: RunnerId)
    requires Enabled(s, a) && ByRunner(a, runner)
    ensures Runs(s, Step(s, a), runner, [a])
  {
    hide Enabled, Step;
    var actions := [a];
    assert actions[1..] == [];
    assert Possible(Step(s, a), actions[1..]) && After(Step(s, a), actions[1..]) == Step(s, a);
    assert Leads(s, actions, Step(s, a)) && Own(actions, runner) == actions;
  }

  // ---------------------------------------------------------------------------
  // One cycle, action by action
  // ---------------------------------------------------------------------------

  predicate Behind(q: Queued, fence: int) { q.expectedRevision.Some? && q.expectedRevision.value <= fence }

  /** The last write for a claimed command: none if the handler raised or the write was lost. */
  function Ending(runner: RunnerId, c: CommandId, now: int, turn: Turn): Action {
    if turn.outcome.HandlerRaised? || turn.endRaises then Abandon(runner, c)
    else if turn.outcome.processed then Settle(runner, c, None, now)
    else Requeue(runner, c, None, now)
  }

  function Noted(runner: RunnerId, c: CommandId, now: int, note: Option<Note>): seq<Action> {
    if note.None? then []
    else
      var status := if note.value.completed then Completed else Failed;
      [Record(runner, c, status, note.value.result, note.value.error, now)]
  }

  /** What follows a claim that takes. */
  function Handling(runner: RunnerId, c: CommandId, now: int, turn: Turn): seq<Action> {
    Noted(runner, c, now, turn.note) + [Ending(runner, c, now, turn)]
  }

  /**
   What the ending makes of a row that is still processing: completed when the handler processed the
   command, accepted again when it put it off, and as it was when it raised or the write was lost.
   */
  lemma EndingMeans(s: State, runner: RunnerId, c: CommandId, now: int, turn: Turn)
    requires Holding(s, runner, c) && s.rows[c].status == Processing
    ensures var a := Ending(runner, c, now, turn);
            && Enabled(s, a) && ByRunner(a, runner) && c in Step(s, a).rows && !Holding(Step(s, a), runner, c)
            && var after := Step(s, a).rows[c];
               && after.result == s.rows[c].result && after.request == s.rows[c].request
               && (turn.endRaises || turn.outcome == HandlerRaised ==> after == s.rows[c])
               && (!turn.endRaises && turn.outcome == Handled(true) ==> after.status == Completed)
               && (!turn.endRaises && turn.outcome == Handled(false) ==> after.status == Accepted && after.error == None)
  {
  }

  /**
   A runner's own actions over the queue from `k` on.  A command behind the fence is passed over.  Any
   other is claimed, unless the claim raises or the command is not there; a claim that takes is followed
   by what its handler notes and by exactly one ending, and the fence moves on; a handler that raises ends
   the cycle.
   */
  ghost predicate Cycle(queue: seq<Queued>, k: nat, turns: nat -> Turn, runner: RunnerId, now: int, there: set<CommandId>,
                        fence: int, next: int, own: seq<Action>, raised: bool)
    requires k <= |queue|
    decreases |queue| - k
  {
    if k == |queue| then own == [] && !raised
    else if Behind(queue[k], fence) then Cycle(queue, k + 1, turns, runner, now, there, fence, next, own, raised)
    else
      var c, turn := queue[k].id, turns(k);
      || ((turn.claimRaises || c !in there) && Cycle(queue, k + 1, turns, runner, now, there, fence, next, own, raised))
      || (!turn.claimRaises && own != [] && own[0] == Claim(runner, c, now)
          && (Cycle(queue, k + 1, turns, runner, now, there, fence, next, own[1..], raised)
              || (var acts := Handling(runner, c, now, turn);
                  acts <= own[1..]
                  && if turn.outcome.HandlerRaised? then raised && own[1..] == acts
                     else Cycle(queue, k + 1, turns, runner, now, there, next, next + 1, own[1..][|acts|..], raised))))
  }

  /** A queue that is behind the fence altogether is passed over without a write. */
  lemma {:induction false} StalePassedOver(queue: seq<Queued>, k: nat, turns: nat -> Turn, runner: RunnerId, now: int,
                                           there: set<CommandId>, fence: int, next: int, own: seq<Action>, raised: bool)
    requires k <= |queue| && Cycle(queue, k, turns, runner, now, there, fence, next, own, raised)
    requires forall i :: k <= i < |queue| ==> queue[i].expectedRevision.Some? && queue[i].expectedRevision.value <= fence
    ensures own == [] && !raised
    decreases |queue| - k
  {
    if k < |queue| {
      StalePassedOver(queue, k + 1, turns, runner, now, there, fence, next, own, raised);
    }
  }

  /** The commands a sequence of actions claims, in order. */
  function ClaimsOf(own: seq<Action>): seq<CommandId> {
    if own == [] then [] else (if own[0].Claim? then [own[0].id] else []) + ClaimsOf(own[1..])
  }

  function QueuedIds(queue: seq<Queued>): seq<CommandId> { seq(|queue|, i requires 0 <= i < |queue| => queue[i].id) }

  /**
   When no revision lies in the way, no claim raises, every command is there and no handler raises, every
   queued command is claimed once, in queue order.
   */
  lemma {:induction false} AllClaimed(queue: seq<Queued>, k: nat, turns: nat -> Turn, runner: RunnerId, now: int,
                                      there: set<CommandId>, fence: int, next: int, own: seq<Action>, raised: bool)
    requires k <= |queue| && Cycle(queue, k, turns, runner, now, there, fence, next, own, raised) && fence < next
    requires forall i :: k <= i < |queue| ==>
               queue[i].expectedRevision.None? || queue[i].expectedRevision.value > next + (i - k)
    requires forall i: nat :: k <= i < |queue| ==> !turns(i).claimRaises && !turns(i).outcome.HandlerRaised?
    requires forall i :: k <= i < |queue| ==> queue[i].id in there
    ensures ClaimsOf(own) == QueuedIds(queue[k..]) && !raised
    decreases |queue| - k
  {
    if k < |queue| {
      var c, turn := queue[k].id, turns(k);
      var acts := Handling(runner, c, now, turn);
      assert own[0] == Claim(runner, c, now);
      assert queue[k..][1..] == queue[k + 1..];
      assert QueuedIds(queue[k..]) == [c] + QueuedIds(queue[k + 1..]);
      if Cycle(queue, k + 1, turns, runner, now, there, fence, next, own[1..], raised) {
        AllClaimed(queue, k + 1, turns, runner, now, there, fence, next, own[1..], raised);
      } else {
        AllClaimed(queue, k + 1, turns, runner, now, there, next, next + 1, own[1..][|acts|..], raised);
        assert own[1..] == acts + own[1..][|acts|..];
        HandlingClaimsNothing(runner, c, now, turn, own[1..][|acts|..]);
      }
    }
  }

  lemma HandlingClaimsNothing(runner: RunnerId, c: CommandId, now: int, turn: Turn, rest: seq<Action>)
    ensures ClaimsOf(Handling(runner, c, now, turn) + rest) == ClaimsOf(rest)
  {
    var end := [Ending(runner, c, now, turn)];
    assert (end + rest)[1..] == rest;
    if turn.note.Some? {
      var noted := Noted(runner, c, now, turn.note);
      assert noted + end + rest == noted + (end + rest) && (noted + (end + rest))[1..] == end + rest;
    } else {
      assert [] + end + rest == end + rest;
    }
  }

  /** Whatever completes the cycle from `k` on completes it from the start. */
  ghost predicate Continues(queue: seq<Queued>, turns: nat -> Turn, runner: RunnerId, now: int, there: set<CommandId>,
                            fence0: int, next0: int, k: nat, fence: int, next: int, own: seq<Action>)
    requires k <= |queue|
  {
    forall rest, raised | Cycle(queue, k, turns, runner, now, there, fence, next, rest, raised) ::
      Cycle(queue, 0, turns, runner, now, there, fence0, next0, own + rest, raised)
  }

  lemma ContinuesAtFirst(queue: seq<Queued>, turns: nat -> Turn, runner: RunnerId, now: int, there: set<CommandId>, fence: int,
                         next: int)
    ensures Continues(queue, turns, runner, now, there, fence, next, 0, fence, next, [])
  {
    hide Cycle;
    forall rest, raised | Cycle(queue, 0, turns, runner, now, there, fence, next, rest, raised)
      ensures Cycle(queue, 0, turns, runner, now, there, fence, next, [] + rest, raised)
    {
      assert [] + rest == rest;
    }
  }

  /** A command that is passed over, or whose claim writes nothing. */
  lemma ContinuesPast(queue: seq<Queued>, turns: nat -> Turn, runner: RunnerId, now: int, there: set<CommandId>,
                      fence0: int, next0: int, k: nat, fence: int, next: int, own: seq<Action>)
    requires k < |queue| && Continues(queue, turns, runner, now, there, fence0, next0, k, fence, next, own)
    requires Behind(queue[k], fence) || turns(k).claimRaises || queue[k].id !in there
    ensures Continues(queue, turns, runner, now, there, fence0, next0, k + 1, fence, next, own)
  {
    forall rest, raised | Cycle(queue, k + 1, turns, runner, now, there, fence, next, rest, raised)
      ensures Cycle(queue, 0, turns, runner, now, there, fence0, next0, own + rest, raised)
    {
      assert Cycle(queue, k, turns, runner, now, there, fence, next, rest, raised);
    }
  }

  /** A command whose claim does not take. */
  lemma ContinuesTried(queue: seq<Queued>, turns: nat -> Turn, runner: RunnerId, now: int, there: set<CommandId>,
                       fence0: int, next0: int, k: nat, fence: int, next: int, own: seq<Action>)
    requires k < |queue| && Continues(queue, turns, runner, now, there, fence0, next0, k, fence, next, own)
    requires !Behind(queue[k], fence) && !turns(k).claimRaises
    ensures Continues(queue, turns, runner, now, there, fence0, next0, k + 1, fence, next,
                      own + [Claim(runner, queue[k].id, now)])
  {
    var claim := [Claim(runner, queue[k].id, now)];
    forall rest, raised | Cycle(queue, k + 1, turns, runner, now, there, fence, next, rest, raised)
      ensures Cycle(queue, 0, turns, runner, now, there, fence0, next0, own + claim + rest, raised)
    {
      assert (claim + rest)[1..] == rest;
      assert Cycle(queue, k, turns, runner, now, there, fence, next, claim + rest, raised);
      assert own + claim + rest == own + (claim + rest);
    }
  }

  /** A command that is claimed and handled; the cycle goes on unless its handler raised. */
  lemma ContinuesHandled(queue: seq<Queued>, turns: nat -> Turn, runner: RunnerId, now: int, there: set<CommandId>,
                         fence0: int, next0: int, k: nat, fence: int, next: int, own: seq<Action>)
    requires k < |queue| && Continues(queue, turns, runner, now, there, fence0, next0, k, fence, next, own)
    requires !Behind(queue[k], fence) && !turns(k).claimRaises
    ensures var all := own + ([Claim(runner, queue[k].id, now)] + Handling(runner, queue[k].id, now, turns(k)));
            if turns(k).outcome.HandlerRaised? then Cycle(queue, 0, turns, runner, now, there, fence0, next0, all, true)
            else Continues(queue, turns, runner, now, there, fence0, next0, k + 1, next, next + 1, all)
  {
    var claim, acts := [Claim(runner, queue[k].id, now)], Handling(runner, queue[k].id, now, turns(k));
    if turns(k).outcome.HandlerRaised? {
      assert (claim + acts)[1..] == acts;
      assert Cycle(queue, k, turns, runner, now, there, fence, next, claim + acts, true);
    } else {
      forall rest, raised | Cycle(queue, k + 1, turns, runner, now, there, next, next + 1, rest, raised)
        ensures Cycle(queue, 0, turns, runner, now, there, fence0, next0, own + (claim + acts) + rest, raised)
      {
        var later := claim + acts + rest;
        assert later[1..] == acts + rest && later[1..][|acts|..] == rest;
        assert Cycle(queue, k, turns, runner, now, there, fence, next, later, raised);
        assert own + (claim + acts) + rest == own + later;
      }
    }
  }

  lemma ContinuesToEnd(queue: seq<Queued>, turns: nat -> Turn, runner: RunnerId, now: int, there: set<CommandId>,
                       fence0: int, next0: int, fence: int, next: int, own: seq<Action>)
    requires Continues(queue, turns, runner, now, there, fence0, next0, |queue|, fence, next, own)
    ensures Cycle(queue, 0, turns, runner, now, there, fence0, next0, own, false)
  {
    assert Cycle(queue, |queue|, turns, runner, now, there, fence, next, [], false);
    assert own + [] == own;
  }

  // ---------------------------------------------------------------------------
  // What a runner holds
  // ---------------------------------------------------------------------------

  /** The commands a runner is executing are exactly `held`. */
  ghost predicate Holds(s: State, runner: RunnerId, held: set<CommandId>) {
    forall c :: runner in HoldersOf(s, c) <==> c in held
  }

  lemma ClaimTakes(s: State, runner: RunnerId, c: CommandId, now: int)
    requires Holds(s, runner, {}) && c in s.rows
    ensures Enabled(s, Claim(runner, c, now))
    ensures Holds(Step(s, Claim(runner, c, now)), runner, if s.rows[c].status == Accepted then {c} else {})
  {
    assert Holding(s, runner, c) ==> runner in HoldersOf(s, c);
  }

  lemma RecordHolds(s: State, runner: RunnerId, c: CommandId, a: Action)
    requires Holds(s, runner, {c}) && c in s.rows
    requires a.Record? && a.runner == runner && a.id == c && a.status in {Completed, Failed}
    ensures Enabled(s, a) && Holds(Step(s, a), runner, {c})
  {
    assert runner in HoldersOf(s, c);
    forall d ensures runner in HoldersOf(Step(s, a), d) <==> d in {c} {
      assert runner in HoldersOf(s, d) <==> d in {c};
    }
  }

  /** Settling, requeueing and losing a claim all let it go. */
  lemma EndsClaim(s: State, runner: RunnerId, c: CommandId, a: Action)
    requires Holds(s, runner, {c}) && c in s.rows
    requires (a.Settle? || a.Requeue? || a.Abandon?) && a.runner == runner && a.id == c
    ensures Enabled(s, a) && Holds(Step(s, a), runner, {})
  {
    assert runner in HoldersOf(s, c);
    forall d ensures runner !in HoldersOf(Step(s, a), d) {
      assert runner in HoldersOf(s, d) <==> d in {c};
    }
  }

  function IdsOf(queue: seq<Queued>): set<CommandId> { set q | q in queue :: q.id }

  predicate DistinctIds(queue: seq<Queued>) {
    forall i, j :: 0 <= i < j < |queue| ==> queue[i].id != queue[j].id
  }

  lemma NoIds()
    ensures IdsOf([]) == {}
  {
  }

  lemma IdsSnoc(queue: seq<Queued>, q: Queued)
    ensures IdsOf(queue + [q]) == IdsOf(queue) + {q.id}
    ensures q.id !in IdsOf(queue) && DistinctIds(queue) ==> DistinctIds(queue + [q])
  {
    var all := queue + [q];
    assert q in all && forall p :: p in queue ==> p in all;
    forall id | id in IdsOf(queue) + {q.id} ensures id in IdsOf(all) {}
    if q.id !in IdsOf(queue) && DistinctIds(queue) {
      forall i, j | 0 <= i < j < |all| ensures all[i].id != all[j].id {
        assert all[i] == queue[i] && queue[i] in queue;
      }
    }
  }

  class CommandRunner {
    const id: RunnerId
    const commands: CommandTable
    var pending: seq<Queued>
    var fenceToken: int
    var nextFenceToken: int
    /** The table with its claims, releases and holders. */
    ghost var seen: State

    ghost predicate Valid()
      reads this, commands
    {
      commands.Valid() && commands.rows == seen.rows && fenceToken < nextFenceToken
    }

    ghost predicate HoldsOnly(held: set<CommandId>)
      reads this
    {
      Holds(seen, id, held)
    }

    constructor (id: RunnerId, commands: CommandTable, ghost seen: State)
      requires commands.Valid() && commands.rows == seen.rows
      ensures Valid() && pending == [] && this.id == id && this.commands == commands && this.seen == seen
    {
      this.id, this.commands, this.seen := id, commands, seen;
      pending, fenceToken, nextFenceToken := [], 0, 1;
    }

    /** What other processes may do between two transactions: any run without an action of this runner. */
    method OtherProcesses(ghost held: set<CommandId>)
      requires Valid() && HoldsOnly(held)
      modifies commands, this`seen
      ensures Valid() && HoldsOnly(held) && Runs(old(seen), seen, id, [])
      ensures old(seen).rows.Keys <= seen.rows.Keys
    {
      RunsSelf(seen, id);
    }

    /** Adds polled commands that are not queued yet: each id once, after what was queued before. */
    method Poll(polled: seq<Queued>)
      modifies this`pending
      ensures old(pending) <= pending
      ensures forall q :: q in pending ==> q in old(pending) || q in polled
      ensures IdsOf(pending) == IdsOf(old(pending)) + IdsOf(polled)
      ensures DistinctIds(old(pending)) ==> DistinctIds(pending)
    {
      hide IdsOf, DistinctIds;
      var known := IdsOf(pending);
      NoIds();
      for k := 0 to |polled|
        invariant old(pending) <= pending
        invariant forall q :: q in pending ==> q in old(pending) || q in polled
        invariant known == IdsOf(pending) == IdsOf(old(pending)) + IdsOf(polled[..k])
        invariant DistinctIds(old(pending)) ==> DistinctIds(pending)
      {
        assert polled[..k + 1] == polled[..k] + [polled[k]];
        IdsSnoc(polled[..k], polled[k]);
        if polled[k].id !in known {
          IdsSnoc(pending, polled[k]);
          pending := pending + [polled[k]];
          known := known + {polled[k].id};
        }
      }
      assert polled[..|polled|] == polled;
    }

    /** One step of this runner on the table, recorded in the protocol. */
    ghost method Took(a: Action, held: set<CommandId>, before: State)
      requires commands.Valid() && fenceToken < nextFenceToken && Enabled(seen, a) && Runs(before, seen, id, [])
      requires commands.rows == Step(seen, a).rows && ByRunner(a, id)
      requires Holds(Step(seen, a), id, held)
      modifies this`seen
      ensures Valid() && seen == Step(old(seen), a) && HoldsOnly(held) && Runs(before, seen, id, [a])
    {
      hide Step, Enabled, Runs, Holds;
      RunsStep(seen, a, id);
      RunsOn(before, seen, Step(seen, a), id, [], [a]);
      assert [] + [a] == [a];
      seen := Step(seen, a);
    }

    /** Claims a command; the claim takes exactly on an accepted row, and writes nothing when it raises. */
    method ClaimCommand(c: CommandId, now: int, raises: bool) returns (claimed: bool, ghost own: seq<Action>)
      requires Valid() && HoldsOnly({})
      modifies commands, this`seen
      ensures Valid() && Runs(old(seen), seen, id, own) && old(seen).rows.Keys <= seen.rows.Keys
      ensures own == if raises || c !in seen.rows then [] else [Claim(id, c, now)]
      ensures HoldsOnly(if claimed then {c} else {}) && (claimed ==> own != [])
    {
      hide Runs, Holds, Enabled;
      OtherProcesses({});
      if raises || c !in commands.rows {
        return false, [];
      }
      ClaimTakes(seen, id, c, now);
      var row := commands.ClaimCommand(c, now);
      Took(Claim(id, c, now), if row.Some? then {c} else {}, old(seen));
      return row.Some?, [Claim(id, c, now)];
    }

    /**
     Runs the handler, which may record its own outcome, and may raise.  The local fence never
     refuses: its tokens only grow.
     */
    method ExecuteCommand(c: CommandId, now: int, turn: Turn) returns (outcome: Outcome)
      requires Valid() && HoldsOnly({c}) && c in seen.rows
      modifies this, commands
      ensures Valid() && HoldsOnly({c}) && c in seen.rows && old(seen).rows.Keys <= seen.rows.Keys
      ensures Runs(old(seen), seen, id, Noted(id, c, now, turn.note))
      ensures pending == old(pending) && outcome == turn.outcome
      ensures fenceToken == old(nextFenceToken) && nextFenceToken == old(nextFenceToken) + 1
    {
      hide Runs;
      var token := nextFenceToken;
      nextFenceToken := nextFenceToken + 1;
      var accepted := token > fenceToken;
      if accepted {
        fenceToken := token;
      }
      OtherProcesses({c});
      if turn.note.Some? {
        var status := if turn.note.value.completed then Completed else Failed;
        var a := Record(id, c, status, turn.note.value.result, turn.note.value.error, now);
        RecordHolds(seen, id, c, a);
        var _ := commands.UpdateCommandResult(c, status, turn.note.value.result, turn.note.value.error, now);
        Took(a, {c}, old(seen));
      }
      return if accepted then turn.outcome else Handled(false);
    }

    /** Settles the command, or loses the write and leaves the row for the sweep. */
    method SettleCommand(c: CommandId, now: int, raises: bool)
      requires Valid() && HoldsOnly({c}) && c in seen.rows
      modifies commands, this`seen
      ensures Valid() && HoldsOnly({}) && old(seen).rows.Keys <= seen.rows.Keys
      ensures Runs(old(seen), seen, id, [if raises then Abandon(id, c) else Settle(id, c, None, now)])
    {
      hide Runs, Holds, Enabled;
      OtherProcesses({c});
      if raises {
        EndsClaim(seen, id, c, Abandon(id, c));
        Took(Abandon(id, c), {}, old(seen));
        return;
      }
      EndsClaim(seen, id, c, Settle(id, c, None, now));
      var _ := commands.CompleteCommand(c, None, now);
      Took(Settle(id, c, None, now), {}, old(seen));
    }

    method RequeueCommand(c: CommandId, now: int, raises: bool)
      requires Valid() && HoldsOnly({c}) && c in seen.rows
      modifies commands, this`seen
      ensures Valid() && HoldsOnly({}) && old(seen).rows.Keys <= seen.rows.Keys
      ensures Runs(old(seen), seen, id, [if raises then Abandon(id, c) else Requeue(id, c, None, now)])
    {
      hide Runs, Holds, Enabled;
      OtherProcesses({c});
      if raises {
        EndsClaim(seen, id, c, Abandon(id, c));
        Took(Abandon(id, c), {}, old(seen));
        return;
      }
      EndsClaim(seen, id, c, Requeue(id, c, None, now));
      var _ := commands.RequeueCommand(c, None, now);
      Took(Requeue(id, c, None, now), {}, old(seen));
    }

    /** A handler that raised leaves the row as it is, with no runner executing it. */
    method DropCommand(c: CommandId)
      requires Valid() && HoldsOnly({c}) && c in seen.rows
      modifies commands, this`seen
      ensures Valid() && HoldsOnly({}) && old(seen).rows.Keys <= seen.rows.Keys
      ensures Runs(old(seen), seen, id, [Abandon(id, c)])
    {
      hide Runs, Holds, Enabled;
      OtherProcesses({c});
      EndsClaim(seen, id, c, Abandon(id, c));
      Took(Abandon(id, c), {}, old(seen));
    }

    /** Executes a claimed command and ends its claim; true when its handler raised. */
    method HandleClaimed(c: CommandId, now: int, turn: Turn) returns (raised: bool)
      requires Valid() && HoldsOnly({c}) && c in seen.rows
      modifies this, commands
      ensures Valid() && HoldsOnly({}) && old(seen).rows.Keys <= seen.rows.Keys && pending == old(pending)
      ensures Runs(old(seen), seen, id, Handling(id, c, now, turn)) && raised == turn.outcome.HandlerRaised?
      ensures fenceToken == old(nextFenceToken) && nextFenceToken == old(nextFenceToken) + 1
    {
      hide Runs, Holds, Noted;
      var outcome := ExecuteCommand(c, now, turn);
      label Executed:
      if outcome.HandlerRaised? {
        DropCommand(c);
      } else if outcome.processed {
        SettleCommand(c, now, turn.endRaises);
      } else {
        RequeueCommand(c, now, turn.endRaises);
      }
      RunsOn(old(seen), old@Executed(seen), seen, id, Noted(id, c, now, turn.note), [Ending(id, c, now, turn)]);
      return outcome.HandlerRaised?;
    }

    /**
     One cycle.  Whatever other processes do meanwhile, everything it writes is a run of the protocol in
     which its own actions are those of a `Cycle`, and it ends with no claim held.  The queue is left
     empty exactly when no handler raised; a handler that raises ends the cycle, and the queue keeps
     everything it held, the commands already settled included.
     */
    method ProcessCommands(polled: seq<Queued>, now: int, turns: nat -> Turn)
      returns (raised: bool, ghost queue: seq<Queued>, ghost own: seq<Action>)
      requires Valid() && HoldsOnly({})
      modifies this, commands
      ensures Valid() && HoldsOnly({}) && Runs(old(seen), seen, id, own)
      ensures old(pending) <= queue && IdsOf(queue) == IdsOf(old(pending)) + IdsOf(polled)
      ensures forall q :: q in queue ==> q in old(pending) || q in polled
      ensures DistinctIds(old(pending)) ==> DistinctIds(queue)
      ensures Cycle(queue, 0, turns, id, now, old(seen).rows.Keys, old(fenceToken), old(nextFenceToken), own, raised)
      ensures pending == if raised then queue else []
      ensures pending == [] <==> !raised
    {
      hide Runs, Holds, IdsOf, DistinctIds, Cycle, Continues, Handling;
      RunsSelf(seen, id);
      Poll(polled);
      queue, own := pending, [];
      var commandsQueued := pending;
      ghost var there := seen.rows.Keys;
      ContinuesAtFirst(queue, turns, id, now, there, fenceToken, nextFenceToken);
      for k := 0 to |commandsQueued|
        invariant Valid() && HoldsOnly({}) && Runs(old(seen), seen, id, own) && there <= seen.rows.Keys
        invariant pending == queue == commandsQueued
        invariant Continues(queue, turns, id, now, there, old(fenceToken), old(nextFenceToken), k, fenceToken, nextFenceToken,
                            own)
      {
        var q := commandsQueued[k];
        if q.expectedRevision.Some? && q.expectedRevision.value <= fenceToken {
          ContinuesPast(queue, turns, id, now, there, old(fenceToken), old(nextFenceToken), k, fenceToken, nextFenceToken, own);
          continue;
        }
        label Before:
        var claimed;
        ghost var claim;
        claimed, claim := ClaimCommand(q.id, now, turns(k).claimRaises);
        RunsOn(old(seen), old@Before(seen), seen, id, own, claim);
        if !claimed {
          if claim == [] {
            ContinuesPast(queue, turns, id, now, there, old(fenceToken), old(nextFenceToken), k, fenceToken, nextFenceToken,
                          own);
            assert own + claim == own;
          } else {
            ContinuesTried(queue, turns, id, now, there, old(fenceToken), old(nextFenceToken), k, fenceToken, nextFenceToken,
                           own);
          }
          own := own + claim;
          continue;
        }
        label Claimed:
        ContinuesHandled(queue, turns, id, now, there, old(fenceToken), old(nextFenceToken), k, fenceToken, nextFenceToken,
                         own);
        var gone := HandleClaimed(q.id, now, turns(k));
        RunsOn(old(seen), old@Claimed(seen), seen, id, own + claim, Handling(id, q.id, now, turns(k)));
        assert own + claim + Handling(id, q.id, now, turns(k)) == own + (claim + Handling(id, q.id, now, turns(k)));
        own := own + (claim + Handling(id, q.id, now, turns(k)));
        if gone {
          return true, queue, own;
        }
      }
      ContinuesToEnd(queue, turns, id, now, there, old(fenceToken), old(nextFenceToken), fenceToken, nextFenceToken, own);
      pending := [];
      return false, queue, own;
    }
  }
}
