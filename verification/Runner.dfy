/**
 The position side of `paper_trading/runner.py` as it runs: the remembered book is changed only
 after the repository committed, and the day-close handler answers true only for a closed day.
 */
module Runner {
  import opened DayClose
  import opened Journal
  import opened Market
  import opened Monetary
  import opened Records
  import opened Repository
  import opened RunnerBook
  import opened Settlement
  import opened Wrappers
  import Commands
  import SP = SettlementProtocol

  /** An entry order of the day that may still be filled. */
  predicate OpenEntry(order: Order, day: DayId) { order.day == day && order.state in {Pending, Submitted} }

  /** The day's open entry orders are cancelled, but for those that `kept` names; no other order changes. */
  ghost predicate OpenOnlyKept(before: map<OrderId, Order>, after: map<OrderId, Order>, day: DayId, kept: iset<OrderId>) {
    && after.Keys == before.Keys
    && forall o :: o in after ==>
         && (OpenEntry(after[o], day) <==> OpenEntry(before[o], day) && o in kept)
         && after[o] == if OpenEntry(before[o], day) && o !in kept then before[o].(state := Cancelled) else before[o]
  }

  /** Orders that closing a day does not cancel: all when they cannot be read, else those whose cancel raises. */
  ghost function Uncancelled(faults: Faults): iset<OrderId> {
    iset o | faults.ordersRead || o in faults.cancels
  }

  /**
   What goes wrong while a handler runs: reads that fail, and writes that raise.  `cancels` are the
   orders whose cancel raises.
   */
  datatype Faults = Faults(mark: bool, ordersRead: bool, cancels: set<OrderId>, positionsRead: bool, pending: bool,
                           close: bool)

  /** What a close draws: the ids of its fill and event, and the second of its quote. */
  datatype Draw = Draw(fill: FillId, event: EventId, second: int)

  /** Ids are drawn once. */
  ghost predicate Fresh(db: Db, draws: PositionId -> Draw) {
    && (forall p: PositionId :: draws(p).fill !in db.fills)
    && forall p: PositionId, q: PositionId :: draws(p).fill == draws(q).fill ==> p == q
  }

  /** The copy is the open row itself, and there is something to close. */
  ghost predicate Closable(db: Db, p: Position) { OpenRow(db, p.id, p) && p.qty > 0.0 }

  /** All remembered open positions of a day can be closed: there is a snapshot, and none is stale or empty. */
  ghost predicate CanClose(db: Db, book: SP.Book, day: DayId, snapshot: Option<Snapshot>) {
    forall p :: p in book && InScope(book[p], Some(day)) ==> snapshot.Some? && Closable(db, book[p])
  }

  /** What the handler remembers once it has read the day. */
  ghost function AfterRead(db: Db, book: SP.Book, day: DayId, failed: bool): SP.Book {
    if failed then book else book + DayRows(db.positions, day)
  }

  class PaperRunner {
    const id: SP.RunnerId
    const repository: PaperRepository
    var positions: SP.Book

    /** The part of the system this runner sees. */
    ghost function Seen(): SP.System
      reads this, repository
    {
      SP.System(repository.Tables(), map[id := positions])
    }

    /** The database is in order, and everything remembered was read from it; rows may have been closed since. */
    ghost predicate Valid()
      reads this, repository
    {
      SP.DbOk(repository.Tables()) && RecordsOk(repository.Tables()) && BookKnown(repository.Tables(), positions)
    }

    /** A world shows this runner's tables, days and book. */
    ghost predicate Mirrors(w: World)
      reads this, repository
    {
      w.sys.db == repository.Tables() && SP.BookOf(w.sys, id) == positions && w.days == repository.days
    }

    constructor (id: SP.RunnerId, repository: PaperRepository)
      ensures this.id == id && this.repository == repository && positions == map[]
    {
      this.id := id;
      this.repository := repository;
      positions := map[];
    }

    /** One full close: the engine, the commit, and only then the book.  Raises when the commit does. */
    method ExecutePositionClose(pos: Position, snapshot: Snapshot, bps: int, feeRate: real, fill: FillId, event: EventId,
                                second: int)
      returns (r: Outcome)
      modifies this, repository
      ensures var a := SP.CloseFill(id, pos, snapshot, bps, feeRate, fill, event, second);
              Seen() == SP.Step(old(Seen()), a)
      ensures var c := SP.Closing(pos, SP.CloseInFull(pos, snapshot, bps, feeRate), fill, event, second, false);
              r.Raises? <==> c.result.closed && SP.CommitClosing(old(repository.Tables()), c).Err?
      ensures repository.days == old(repository.days) && repository.orders == old(repository.orders)
    {
      hide CommitPositionClose, Money, ClosePostings, SP.CommitOpening, SP.OpenRows, SP.CloseInFull;
      var result := SP.CloseInFull(pos, snapshot, bps, feeRate);
      if !result.closed {
        return Returns;
      }
      var c := SP.Closing(pos, result, fill, event, second, false);
      var entry := BuildFillPostings(pos.account, event, FillRef(fill), result.closeFee, true, Money(result.grossPnl), 0.0,
                                     Money(pos.margin));
      r := repository.CommitPositionClose(pos.id, SP.ClosingFill(c), result.closePrice, result.grossPnl, result.realizedNet,
                                          result.closeFee, entry, Closed);
      if r.Returns? {
        positions := positions - {pos.id};
      }
    }

    /** The financial commit of an executed opening order; the position is remembered once it is committed. */
    method CommitOpening(o: SP.Opening) returns (r: Outcome)
      modifies this, repository
      ensures Seen() == SP.Step(old(Seen()), SP.OpenFill(id, o))
      ensures r.Raises? <==> SP.CommitOpening(old(repository.Tables()), o).Err?
      ensures repository.days == old(repository.days)
    {
      hide CommitOpenFill, Money, OpenPostings, SP.CommitClosing, SP.OpenRows, SP.ClosingOf;
      var entry := BuildFillPostings(o.account, o.event, FillRef(o.fill), o.fee, false, 0.0, Money(o.margin), 0.0);
      r := repository.CommitOpenFill(o.order, SP.OpeningFill(o), SP.OpeningPosition(o), entry);
      if r.Returns? {
        positions := positions[o.order := SP.OpeningPosition(o)];
      }
    }

    /** Merges the open positions of the database into the book, one row at a time; a failed load merges nothing. */
    method RecoverPositions(loaded: bool)
      modifies this
      ensures Seen() == SP.Step(old(Seen()), SP.Recover(id, loaded))
      ensures repository.Tables() == old(repository.Tables()) && repository.days == old(repository.days)
    {
      hide SP.Step, SP.OpenRows, RowOf;
      RecoverStep(Seen(), id, loaded);
      if !loaded {
        return;
      }
      var rows := repository.positions;
      OpenRowsOfNone(rows);
      for i := 0 to |rows|
        invariant positions == old(positions) + SP.OpenRows(rows[..i])
        modifies this
      {
        OpenRowsStep(rows, i);
        if rows[i].status.Open? {
          AddAfterMerge(old(positions), SP.OpenRows(rows[..i]), rows[i]);
          positions := positions[rows[i].id := rows[i]];
        }
      }
      assert rows[..|rows|] == rows;
    }

    /**
     Cancels the entry orders of a day that are still open, each on its own: a cancel that raises is
     logged and passed over.  A failed load cancels none.
     */
    method CancelUnfilled(day: DayId, loaded: bool, raising: set<OrderId>, ghost w: World, ghost t: World,
                          ghost cmd: Commands.CommandId)
      returns (ghost u: World)
      requires Valid() && Led(w, t, Job(id, cmd), Marked) && Mirrors(t)
      modifies repository
      ensures Valid() && repository.days == old(repository.days)
      ensures Led(w, u, Job(id, cmd), Marked) && Mirrors(u)
      ensures repository.Tables() == old(repository.Tables()).(orders := repository.orders)
      ensures OpenOnlyKept(old(repository.orders), repository.orders, day, iset o | !loaded || o in raising)
    {
      hide SP.RowsOk, SP.FillsUnique, SP.NoStrays, SP.Balanced, SP.RowsDistinct, BookKnown, Led, RecordsOk;
      u := t;
      if !loaded {
        return;
      }
      var unfilled := repository.GetUnfilledOrdersByDay(day);
      ghost var before := repository.Tables();
      while unfilled != {}
        invariant SP.DbOk(repository.Tables()) && RecordsOk(repository.Tables()) && repository.days == old(repository.days)
        invariant repository.Tables() == before.(orders := repository.orders)
        invariant repository.orders.Keys == before.orders.Keys && unfilled <= before.orders.Keys
        invariant Led(w, u, Job(id, cmd), Marked) && Mirrors(u)
        invariant forall o :: o in repository.orders ==>
                    if o in unfilled then OpenEntry(before.orders[o], day) && repository.orders[o] == before.orders[o]
                    else repository.orders[o] == if OpenEntry(before.orders[o], day) && o !in raising then
                                                   before.orders[o].(state := Cancelled) else before.orders[o]
      {
        SomeMember(unfilled);
        var order :| order in unfilled;
        unfilled := unfilled - {order};
        if order !in raising {
          SP.OrdersKeepDb(repository.Tables(), UpdateOrderState(repository.Tables(), order, Cancelled));
          EndKeepsRecords(repository.Tables(), order, Cancelled);
          CancelLed(w, u, Job(id, cmd), order);
          u := u.(sys := SP.Step(u.sys, SP.EndOrder(order, Cancelled)));
          repository.UpdateOrderState(order, Cancelled);
        }
      }
      SameRows(before, repository.Tables(), positions);
    }

    /** Remembers the open positions of a day that the database lists. */
    method MergeDay(day: DayId, loaded: bool)
      requires Valid()
      modifies this
      ensures Valid() && repository.Tables() == old(repository.Tables()) && repository.days == old(repository.days)
      ensures positions == if loaded then old(positions) + DayRows(repository.positions, day) else old(positions)
    {
      hide SP.DbOk, DayRows, BookKnown, RecordsOk;
      if !loaded {
        return;
      }
      var found := repository.GetOpenPositionsByDay(day);
      ghost var rows, added: SP.Book := DayRows(repository.positions, day), map[];
      DayRowsAre(repository.Tables(), day);
      DayRowsKnown(repository.Tables(), positions, day);
      assert positions + added == positions;
      for k := 0 to |found|
        invariant positions == old(positions) + added
        invariant forall j :: 0 <= j < k ==> found[j].id in added
        invariant forall p: PositionId :: p in added ==> p in rows && added[p] == rows[p]
        modifies this
      {
        assert found[k] in found;
        AddAfterMerge(old(positions), added, found[k]);
        added := added[found[k].id := found[k]];
        positions := positions[found[k].id := found[k]];
      }
      forall p | p in rows ensures p in added {
        var j :| 0 <= j < |found| && found[j] == rows[p];
      }
      SameBooks(added, rows);
    }

    /** The handler's read of the day's positions, merged into the book. */
    method ReadDay(day: DayId, loaded: bool, ghost w: World, ghost t: World, ghost cmd: Commands.CommandId)
      returns (ghost u: World)
      requires Valid() && Led(w, t, Job(id, cmd), Marked) && DayOf(w, cmd) == day && Mirrors(t)
      modifies this
      ensures Valid() && repository.Tables() == old(repository.Tables()) && repository.days == old(repository.days)
      ensures Led(w, u, Job(id, cmd), Merged(loaded)) && Mirrors(u)
      ensures Covers(repository.Tables(), positions, Some(day)) <==>
              loaded || Covers(repository.Tables(), old(positions), Some(day))
      ensures forall p :: IsStale(old(Seen()), id, p) ==> IsStale(Seen(), id, p)
      ensures !DayHasOpen(repository.Tables(), day) ==> positions == old(positions)
      ensures positions == AfterRead(repository.Tables(), old(positions), day, !loaded)
    {
      hide SP.DbOk, Covers, BookKnown, DayHasOpen, IsStale, Led, DayRows, NoneRemembered, ReadBy, RecordsOk;
      ReadLed(w, t, Job(id, cmd), loaded);
      u := ReadBy(t, Job(id, cmd), loaded, day);
      ghost var s := Seen();
      MergeDay(day, loaded);
      if loaded {
        ReadOfDay(s, Seen(), id, day);
      } else {
        SameStale(s, Seen(), id);
      }
    }

    /** Remembered open positions of a day. */
    method OpenOfDay(day: DayId) returns (open: set<PositionId>)
      ensures open == set p | p in positions && InScope(positions[p], Some(day))
      ensures open == {} <==> NoneRemembered(positions, day)
    {
      open := set p | p in positions && InScope(positions[p], Some(day));
      assert forall p :: p in positions && InScope(positions[p], Some(day)) ==> p in open;
      if open != {} {
        SomeMember(open);
      }
    }

    /**
     Closes the given positions one after another; true when some close raised.  With new ids each is
     closed, and out of the book, exactly if its copy is the open row and not empty; it raises exactly
     for a stale one.
     */
    method CloseAll(open: set<PositionId>, snapshot: Snapshot, bps: int, feeRate: real, draws: PositionId -> Draw,
                    ghost day: DayId, ghost w: World, ghost t: World, ghost job: Job, ghost phase: Phase)
      returns (failed: bool, ghost u: World)
      requires Valid() && open <= positions.Keys && Led(w, t, job, phase) && Mirrors(t)
      modifies this, repository
      ensures Led(w, u, job, phase) && Mirrors(u)
      ensures Valid() && repository.days == old(repository.days) && repository.orders == old(repository.orders)
      ensures Covers(old(repository.Tables()), old(positions), Some(day)) <==> Covers(repository.Tables(), positions, Some(day))
      ensures forall p :: IsStale(old(Seen()), id, p) ==> IsStale(Seen(), id, p)
      ensures open == {} ==> !failed && positions == old(positions)
      ensures Fresh(old(repository.Tables()), draws) ==>
                && Tried(old(Seen()), Seen(), id, open)
                && (failed <==> AnyRefuses(old(repository.Tables()), old(positions), open))
    {
      hide SP.DbOk, Covers, BookKnown, SP.Step, SP.CloseInFull, SP.CommitClosing, IsStale, Led, RecordsOk, Tried, AnyRefuses,
        Fresh, Underway, SP.Known;
      failed, u := false, t;
      var left := open;
      ghost var tried: set<PositionId> := {};
      ghost var s0 := Seen();
      UnderwayAtFirst(s0, id, draws, day);
      while left != {}
        invariant repository.days == old(repository.days) && repository.orders == old(repository.orders)
        invariant Underway(s0, Seen(), id, tried, draws, day)
        invariant Led(w, u, job, phase) && Mirrors(u)
        invariant open == {} ==> left == {} && !failed && positions == old(positions)
        invariant tried == open - left && left <= open
        invariant Fresh(s0.db, draws) ==> (failed <==> AnyRefuses(s0.db, SP.BookOf(s0, id), tried))
      {
        SomeMember(left);
        var pid :| pid in left;
        left := left - {pid};
        ghost var s := Seen();
        UnderwayEntry(s0, s, id, tried, draws, day, pid);
        ghost var a := SP.CloseFill(id, positions[pid], snapshot, bps, feeRate, draws(pid).fill, draws(pid).event,
                                    draws(pid).second);
        OneTry(s0, s, id, tried, pid, a, draws, day);
        AnyOn(s0.db, SP.BookOf(s0, id), tried, pid);
        SameClose(s, u.sys, a);
        TradeLed(w, u, job, phase, a);
        u := u.(sys := SP.Step(u.sys, a));
        var r := ExecutePositionClose(positions[pid], snapshot, bps, feeRate, draws(pid).fill, draws(pid).event,
                                      draws(pid).second);
        tried := tried + {pid};
        if r.Raises? {
          failed := true;
        }
      }
      assert tried == open;
      UnderwayFacts(s0, Seen(), id, open, draws, day);
    }

    /** The first half of closing a day: mark it, cancel its entry orders, load its open positions. */
    method BeginClose(day: DayId, faults: Faults, ghost w: World, ghost cmd: Commands.CommandId)
      returns (begun: bool, ghost u: World)
      requires Valid() && Led(w, w, Job(id, cmd), Taken) && DayOf(w, cmd) == day && Mirrors(w)
      modifies this, repository
      ensures Valid()
      ensures Mirrors(u) && Led(w, u, Job(id, cmd), if begun then Merged(!faults.positionsRead) else Refused)
      ensures begun <==> !faults.mark && MaySet(old(repository.days), day, Closing)
      ensures !begun ==> repository.days == old(repository.days) && repository.Tables() == old(repository.Tables())
                         && positions == old(positions)
      ensures begun ==> MaySet(repository.days, day, SettlementPending)
      ensures begun ==> if day in old(repository.days) then day in repository.days && repository.days[day].state == Closing
                        else repository.days == old(repository.days)
      ensures repository.orders.Keys == old(repository.orders).Keys
      ensures begun ==> OpenOnlyKept(old(repository.orders), repository.orders, day, Uncancelled(faults))
      ensures begun ==> (Covers(repository.Tables(), positions, Some(day)) <==>
                         !faults.positionsRead || Covers(old(repository.Tables()), old(positions), Some(day)))
      ensures DayHasOpen(repository.Tables(), day) <==> DayHasOpen(old(repository.Tables()), day)
      ensures forall p :: IsStale(old(Seen()), id, p) ==> IsStale(Seen(), id, p)
      ensures NoneRemembered(old(positions), day) && !DayHasOpen(old(repository.Tables()), day) ==> positions == old(positions)
      ensures begun ==> repository.Tables() == old(repository.Tables()).(orders := repository.orders)
      ensures begun ==> positions == AfterRead(old(repository.Tables()), old(positions), day, faults.positionsRead)
    {
      hide SP.DbOk, Covers, BookKnown, InScope, DayHasOpen, IsStale, SP.Step, NoneRemembered, OpenEntry, RowOf, Led, MaySet, Set,
        RecordsOk, DayRows;
      MarkLed(w, w, Job(id, cmd), true);
      MarkLed(w, w, Job(id, cmd), false);
      u := w.(phases := w.phases[Job(id, cmd) := Refused]);
      if faults.mark {
        return false, u;
      }
      var marked := repository.UpdateDayState(day, Closing, None);
      SetMissing(old(repository.days), day, Closing);
      if marked.Err? {
        return false, u;
      }
      u := w.(days := repository.days, phases := w.phases[Job(id, cmd) := Marked]);
      MayPutOff(old(repository.days), day);
      u := CancelUnfilled(day, !faults.ordersRead, faults.cancels, w, u, cmd);
      SameOpen(old(repository.Tables()), repository.Tables(), day);
      ghost var s := Seen();
      SameStale(old(Seen()), s, id);
      SameRows(old(repository.Tables()), repository.Tables(), positions);
      u := ReadDay(day, !faults.positionsRead, w, u, cmd);
      return true, u;
    }

    /**
     The day-close handler.  It answers true only after it moved the day to closed with no remembered
     position of the day left open.  The day then has an open position exactly if its own read of the
     positions failed and its runner missed one before, and an entry order of the day is open exactly if
     it was, and its cancel raised or the orders could not be read.  A stale entry of the day makes it
     defer.  Only the write that puts the day off can raise.

     All it does is a run of the world in which the handler of `cmd` goes from taken to done or refused.
     */
    method HandleFinishDay(day: DayId, faults: Faults, snapshot: Option<Snapshot>, bps: int, feeRate: real,
                           draws: PositionId -> Draw, ghost w: World, ghost cmd: Commands.CommandId)
      returns (done: Result<bool>, ghost u: World)
      requires Valid() && Mirrors(w) && HasDay(w, cmd) && DayOf(w, cmd) == day && Finishing(w, Job(id, cmd), Taken)
      modifies this, repository
      ensures Valid()
      ensures Reaches(w, u) && Mirrors(u) && u.rows == w.rows
      ensures Finishing(u, Job(id, cmd), if done == Ok(true) then Done else Refused)
      ensures done == Ok(true) ==>
                day in repository.days && repository.days[day].state == DayClosed && NoneRemembered(positions, day)
      ensures done == Ok(true) ==>
                (DayHasOpen(repository.Tables(), day) <==>
                 faults.positionsRead && !Covers(old(repository.Tables()), old(positions), Some(day)))
      ensures repository.orders.Keys == old(repository.orders).Keys
      ensures !faults.mark && MaySet(old(repository.days), day, Closing) ==>
                OpenOnlyKept(old(repository.orders), repository.orders, day, Uncancelled(faults))
      ensures faults.mark || !MaySet(old(repository.days), day, Closing) ==>
                && done == Ok(false) && repository.days == old(repository.days)
                && repository.Tables() == old(repository.Tables()) && positions == old(positions)
      ensures !faults.mark && MaySet(old(repository.days), day, Closing) && day in old(repository.days) && done != Ok(true) ==>
                && day in repository.days && repository.days[day].state in {Closing, SettlementPending}
                && (repository.days[day].state == Closing ==> done.Err? || faults.close)
                && (done.Err? ==> repository.days[day].state == Closing)
      ensures done.Err? ==> faults.pending
      ensures snapshot.None? && !faults.positionsRead && DayHasOpen(old(repository.Tables()), day) ==> done != Ok(true)
      ensures (exists p :: IsStale(old(Seen()), id, p) && InScope(p, Some(day))) ==> done != Ok(true)
      ensures (&& day in old(repository.days) && MaySet(old(repository.days), day, Closing) && !faults.mark && !faults.close
               && NoneRemembered(old(positions), day) && !DayHasOpen(old(repository.Tables()), day)) ==> done == Ok(true)
      ensures Fresh(old(repository.Tables()), draws) ==>
                (done == Ok(true) <==>
                 && day in old(repository.days) && MaySet(old(repository.days), day, Closing) && !faults.mark && !faults.close
                 && var book := AfterRead(old(repository.Tables()), old(positions), day, faults.positionsRead);
                    CanClose(old(repository.Tables()), book, day, snapshot))
    {
      hide SP.DbOk, Covers, BookKnown, InScope, DayHasOpen, IsStale, SP.Step, MaySet, Set, NoneRemembered, OpenEntry, RowOf, Led,
        Reaches, Finishing, OpenOnlyKept, PaperRunner.Mirrors, RecordsOk, DayRows, CanClose, Fresh, AfterRead;
      LedStart(w, Job(id, cmd));
      var begun;
      begun, u := BeginClose(day, faults, w, cmd);
      LedFacts(w, u, Job(id, cmd), Refused);
      if !begun {
        return Ok(false), u;
      }
      ghost var phase := Merged(!faults.positionsRead);
      SameCanClose(old(repository.Tables()), repository.Tables(), positions, day, snapshot, draws);
      var deferred;
      deferred, u := CloseDayPositions(day, snapshot, bps, feeRate, draws, w, u, Job(id, cmd), phase);
      if deferred {
        done, u := PutOff(day, faults.pending, w, u, Job(id, cmd), phase);
        return;
      }
      forall p | IsStale(old(Seen()), id, p) && InScope(p, Some(day)) ensures false {
        StaleIsRemembered(Seen(), id, p, day);
      }
      NothingOpen(repository.Tables(), positions, day);
      done, u := FinishClose(day, faults.close, w, u, Job(id, cmd), phase);
    }

    /**
     Closes the remembered open positions of a day.  True when the day must be put off: there is no
     snapshot to close at, a close raised, or an open position is still remembered.  With new ids it is
     put off exactly when some position cannot be closed.
     */
    method CloseDayPositions(day: DayId, snapshot: Option<Snapshot>, bps: int, feeRate: real, draws: PositionId -> Draw,
                             ghost w: World, ghost t: World, ghost job: Job, ghost phase: Phase)
      returns (deferred: bool, ghost u: World)
      requires Valid() && Led(w, t, job, phase) && Mirrors(t)
      modifies this, repository
      ensures Valid() && repository.days == old(repository.days) && repository.orders == old(repository.orders)
      ensures Led(w, u, job, phase) && Mirrors(u)
      ensures Covers(old(repository.Tables()), old(positions), Some(day)) <==> Covers(repository.Tables(), positions, Some(day))
      ensures forall p :: IsStale(old(Seen()), id, p) ==> IsStale(Seen(), id, p)
      ensures !deferred ==> NoneRemembered(positions, day)
      ensures snapshot.None? ==> positions == old(positions) && repository.Tables() == old(repository.Tables())
      ensures NoneRemembered(old(positions), day) ==> !deferred && positions == old(positions)
      ensures Fresh(old(repository.Tables()), draws) ==>
                (!deferred <==> CanClose(old(repository.Tables()), old(positions), day, snapshot))
    {
      hide SP.DbOk, Covers, BookKnown, InScope, IsStale, SP.Step, NoneRemembered, RowOf, Led, PaperRunner.Mirrors, RecordsOk,
        Tried, AnyRefuses, CanClose, Fresh;
      u := t;
      var open := OpenOfDay(day);
      ghost var s0 := Seen();
      if snapshot.None? && open != {} {
        WithoutSnapshot(s0.db, positions, day);
        return true, u;
      }
      var failed := false;
      if snapshot.Some? {
        failed, u := CloseAll(open, snapshot.value, bps, feeRate, draws, day, w, u, job, phase);
      }
      var remaining := OpenOfDay(day);
      if snapshot.Some? && Fresh(s0.db, draws) {
        ClosedExactly(s0, Seen(), id, day, snapshot, open, failed);
      } else if snapshot.None? {
        WithoutSnapshot(s0.db, positions, day);
      }
      return failed || remaining != {}, u;
    }

    /** The last write: only a confirmed transition counts. */
    method FinishClose(day: DayId, raises: bool, ghost w: World, ghost t: World, ghost job: Job, ghost phase: Phase)
      returns (done: Result<bool>, ghost u: World)
      requires Led(w, t, job, phase) && phase.Merged? && Mirrors(t) && DayOf(w, job.id) == day && job.runner == id
      requires NoneRemembered(positions, day)
      modifies repository`days
      ensures Mirrors(u) && Reaches(w, u) && u.rows == w.rows && Finishing(u, job, if done == Ok(true) then Done else Refused)
      ensures done.Ok? && (done.value <==> !raises && day in old(repository.days))
      ensures done.value ==> day in repository.days && repository.days[day].state == DayClosed
      ensures !done.value ==> repository.days == old(repository.days)
    {
      hide Led, MaySet, Set, NoneRemembered, DayHasOpen;
      DeferLed(w, t, job, phase, false);
      u := t.(phases := t.phases[job := Refused]);
      LedFacts(w, u, job, Refused);
      if raises {
        return Ok(false), u;
      }
      ClosingIsFree(repository.days, day);
      CloseDayLed(w, t, job, phase);
      var updated := repository.UpdateDayState(day, DayClosed, None);
      if updated.Ok? && updated.value {
        u := Step(t, CloseDay(job.runner, job.id));
        LedFacts(w, u, job, Done);
      }
      return Ok(updated.Ok? && updated.value), u;
    }

    /** The day is put off to settlement; a raising write ends the handler. */
    method PutOff(day: DayId, raises: bool, ghost w: World, ghost t: World, ghost job: Job, ghost phase: Phase)
      returns (done: Result<bool>, ghost u: World)
      requires MaySet(repository.days, day, SettlementPending)
      requires Led(w, t, job, phase) && !phase.Done? && Mirrors(t) && DayOf(w, job.id) == day
      modifies repository`days
      ensures Mirrors(u) && Reaches(w, u) && u.rows == w.rows && Finishing(u, job, Refused)
      ensures done == if raises then Err("settlement_pending not written") else Ok(false)
      ensures repository.days == if raises then old(repository.days) else Set(old(repository.days), day, SettlementPending)
      ensures !raises && day in old(repository.days) ==>
                day in repository.days && repository.days[day].state == SettlementPending
    {
      hide Led, MaySet, Set;
      DeferLed(w, t, job, phase, !raises);
      SetMissing(repository.days, day, SettlementPending);
      u := t.(days := if raises then t.days else Set(t.days, day, SettlementPending), phases := t.phases[job := Refused]);
      LedFacts(w, u, job, Refused);
      if raises {
        return Err("settlement_pending not written"), u;
      }
      var written := repository.UpdateDayState(day, SettlementPending, None);
      assert written.Ok?;
      return Ok(false), u;
    }
  }

  // ---------------------------------------------------------------------------
  // What is closed
  // ---------------------------------------------------------------------------

  /** The ids drawn for positions not tried yet are still new. */
  ghost predicate Draws(db: Db, draws: PositionId -> Draw, tried: set<PositionId>) {
    forall p: PositionId :: p !in tried ==> draws(p).fill !in db.fills
  }

  /** Trying to close the copy raises: its row is not open any more. */
  ghost predicate Refuses(db: Db, p: Position) { !OpenRow(db, p.id, p) && p.qty > 0.0 }

  /** Of the positions tried, those that could be closed are closed and forgotten; nothing else is touched. */
  ghost predicate Tried(s0: SP.System, s: SP.System, runner: SP.RunnerId, tried: set<PositionId>) {
    var db0, book0, db, book := s0.db, SP.BookOf(s0, runner), s.db, SP.BookOf(s, runner);
    && (forall p :: p in book ==> p in book0 && book[p] == book0[p])
    && (forall p :: p in book0 ==> (p in book <==> !(p in tried && Closable(db0, book0[p]))))
    && forall p :: p in book0 ==>
         (OpenRow(db, p, book0[p]) <==> OpenRow(db0, p, book0[p]) && !(p in tried && Closable(db0, book0[p])))
  }

  ghost predicate AnyRefuses(db: Db, book: SP.Book, tried: set<PositionId>) {
    exists p :: p in tried && p in book && Refuses(db, book[p])
  }

  lemma AnyOn(db: Db, book: SP.Book, tried: set<PositionId>, pid: PositionId)
    requires pid in book
    ensures AnyRefuses(db, book, tried + {pid}) <==> AnyRefuses(db, book, tried) || Refuses(db, book[pid])
  {
    hide Refuses;
    if AnyRefuses(db, book, tried) {
      var p :| p in tried && p in book && Refuses(db, book[p]);
      assert p in tried + {pid};
    }
    assert pid in tried + {pid};
  }

  lemma TriedNone(s: SP.System, runner: SP.RunnerId, draws: PositionId -> Draw)
    ensures !AnyRefuses(s.db, SP.BookOf(s, runner), {})
    ensures Tried(s, s, runner, {}) && (Fresh(s.db, draws) ==> Draws(s.db, draws, {}))
  {
    hide RowOf;
  }

  /** Trying to close a copy under a new fill: it closes the open row it is a copy of, and refuses any other. */
  lemma TryOutcome(s: SP.System, a: SP.Action)
    requires SP.DbOk(s.db) && RecordsOk(s.db) && a.CloseFill? && SP.Known(s.db, a.position) && a.fill !in s.db.fills
    ensures Closes(s, a) <==> Closable(s.db, a.position)
    ensures SP.ClosingOf(a).result.closed && SP.CommitClosing(s.db, SP.ClosingOf(a)).Err? <==> Refuses(s.db, a.position)
  {
    hide SP.DbOk, RecordsOk, SP.CommitClosing, SP.CloseInFull, RowOf, SP.FullResult;
    ClosesAll(a.position, a.snapshot, a.bps, a.feeRate);
    SP.ClosingOfPosition(a);
    if SP.ClosingOf(a).result.closed {
      CloseIsFull(a);
      ClosingCommitsExactly(s.db, SP.ClosingOf(a));
    }
  }

  /** What a close that goes through, or does not, makes of the tables and of the runner's book. */
  lemma TryStep(s: SP.System, a: SP.Action)
    requires a.CloseFill? && SP.Known(s.db, a.position)
    ensures !Closes(s, a) ==> SP.Step(s, a) == s
    ensures Closes(s, a) ==>
              && SP.Step(s, a).db.fills.Keys == s.db.fills.Keys + {a.fill}
              && SP.BookOf(SP.Step(s, a), a.runner) == SP.BookOf(s, a.runner) - {a.position.id}
    ensures forall p :: p in SP.BookOf(s, a.runner) && p != a.position.id ==>
              p in SP.BookOf(SP.Step(s, a), a.runner) && SP.BookOf(SP.Step(s, a), a.runner)[p] == SP.BookOf(s, a.runner)[p]
  {
    hide SP.CommitClosing, SP.CloseInFull, RowOf, SP.Known;
    SP.ClosingOfPosition(a);
    if Closes(s, a) {
      SP.ClosingShape(s.db, SP.ClosingOf(a));
    }
  }

  /** Only the row of what is closed changes. */
  lemma RowsBeside(s: SP.System, a: SP.Action, id: PositionId, p: Position)
    requires SP.RowsDistinct(s.db.positions) && Closes(s, a) && a.CloseFill?
    ensures OpenRow(SP.Step(s, a).db, id, p) <==> OpenRow(s.db, id, p) && id != a.position.id
  {
    hide SP.Step, Closes, RowOf;
    CloseStep(s, a);
    var rows, later, at := s.db.positions, SP.Step(s, a).db.positions, RowOf(s.db.positions, a.position.id).value;
    var row :| Replaces(rows, later, at, row);
    RowOfIs(rows, a.position.id);
    RowOfReplaced(rows, later, at, row, id);
    RowOfIs(rows, id);
  }

  /** One more position is tried. */
  lemma TriedOne(s0: SP.System, s: SP.System, runner: SP.RunnerId, tried: set<PositionId>, pid: PositionId, a: SP.Action)
    requires SP.DbOk(s.db) && RecordsOk(s.db) && BookKnown(s.db, SP.BookOf(s, runner))
    requires Tried(s0, s, runner, tried) && pid in SP.BookOf(s, runner) && pid !in tried
    requires a.CloseFill? && a.runner == runner && a.position == SP.BookOf(s, runner)[pid] && a.fill !in s.db.fills
    ensures Tried(s0, SP.Step(s, a), runner, tried + {pid})
    ensures SP.ClosingOf(a).result.closed && SP.CommitClosing(s.db, SP.ClosingOf(a)).Err? <==>
            Refuses(s0.db, SP.BookOf(s0, runner)[pid])
  {
    hide SP.DbOk, RecordsOk, SP.Step, SP.CommitClosing, SP.CloseInFull, SP.Known, OpenRow, Closes, SP.BookOf;
    assert SP.Known(s.db, a.position) && a.position.id == pid;
    TryOutcome(s, a);
    TryStep(s, a);
    DistinctRows(s.db);
    forall id | Closes(s, a) && id in SP.BookOf(s0, runner)
      ensures OpenRow(SP.Step(s, a).db, id, SP.BookOf(s0, runner)[id]) <==>
              OpenRow(s.db, id, SP.BookOf(s0, runner)[id]) && id != pid
    {
      RowsBeside(s, a, id, SP.BookOf(s0, runner)[id]);
    }
  }

  lemma DrawsOne(s0: SP.System, s: SP.System, draws: PositionId -> Draw, tried: set<PositionId>, pid: PositionId, a: SP.Action)
    requires Fresh(s0.db, draws) && Draws(s.db, draws, tried)
    requires a.CloseFill? && SP.Known(s.db, a.position) && a.fill == draws(pid).fill
    ensures Draws(SP.Step(s, a).db, draws, tried + {pid})
  {
    hide SP.Step, SP.Known, Closes;
    TryStep(s, a);
  }

  /** What holds while a runner tries to close what it remembers. */
  ghost predicate Underway(s0: SP.System, s: SP.System, runner: SP.RunnerId, tried: set<PositionId>,
                           draws: PositionId -> Draw, day: DayId)
  {
    var book0, book := SP.BookOf(s0, runner), SP.BookOf(s, runner);
    && SP.DbOk(s.db) && RecordsOk(s.db) && BookKnown(s.db, book)
    && (Covers(s0.db, book0, Some(day)) <==> Covers(s.db, book, Some(day)))
    && (forall p :: IsStale(s0, runner, p) ==> IsStale(s, runner, p))
    && (forall p :: p in book0 && p !in tried ==> p in book && book[p] == book0[p])
    && (Fresh(s0.db, draws) ==> Draws(s.db, draws, tried) && Tried(s0, s, runner, tried))
  }

  lemma UnderwayAtFirst(s: SP.System, runner: SP.RunnerId, draws: PositionId -> Draw, day: DayId)
    requires SP.DbOk(s.db) && RecordsOk(s.db) && BookKnown(s.db, SP.BookOf(s, runner))
    ensures Underway(s, s, runner, {}, draws, day) && !AnyRefuses(s.db, SP.BookOf(s, runner), {})
  {
    hide SP.DbOk, RecordsOk, BookKnown, Covers, IsStale, Fresh, Draws, Tried;
    TriedNone(s, runner, draws);
  }

  lemma UnderwayEntry(s0: SP.System, s: SP.System, runner: SP.RunnerId, tried: set<PositionId>, draws: PositionId -> Draw,
                      day: DayId, pid: PositionId)
    requires Underway(s0, s, runner, tried, draws, day) && pid in SP.BookOf(s0, runner) && pid !in tried
    ensures pid in SP.BookOf(s, runner) && SP.BookOf(s, runner)[pid] == SP.BookOf(s0, runner)[pid]
  {
    hide SP.DbOk, RecordsOk, BookKnown, Covers, IsStale, Fresh, Draws, Tried;
  }

  lemma UnderwayFacts(s0: SP.System, s: SP.System, runner: SP.RunnerId, tried: set<PositionId>, draws: PositionId -> Draw,
                      day: DayId)
    requires Underway(s0, s, runner, tried, draws, day)
    ensures SP.DbOk(s.db) && RecordsOk(s.db) && BookKnown(s.db, SP.BookOf(s, runner))
    ensures Covers(s0.db, SP.BookOf(s0, runner), Some(day)) <==> Covers(s.db, SP.BookOf(s, runner), Some(day))
    ensures forall p :: IsStale(s0, runner, p) ==> IsStale(s, runner, p)
    ensures Fresh(s0.db, draws) ==> Tried(s0, s, runner, tried)
  {
    hide SP.DbOk, RecordsOk, BookKnown, Covers, IsStale, Fresh, Draws, Tried;
  }

  /** One more remembered position is tried. */
  lemma OneTry(s0: SP.System, s: SP.System, runner: SP.RunnerId, tried: set<PositionId>, pid: PositionId, a: SP.Action,
               draws: PositionId -> Draw, day: DayId)
    requires Underway(s0, s, runner, tried, draws, day) && pid in SP.BookOf(s, runner) && pid !in tried
    requires a.CloseFill? && a.runner == runner && a.position == SP.BookOf(s, runner)[pid] && a.fill == draws(pid).fill
    ensures SP.Enabled(s, a) && Underway(s0, SP.Step(s, a), runner, tried + {pid}, draws, day)
    ensures Fresh(s0.db, draws) ==>
              (SP.ClosingOf(a).result.closed && SP.CommitClosing(s.db, SP.ClosingOf(a)).Err? <==>
               pid in SP.BookOf(s0, runner) && Refuses(s0.db, SP.BookOf(s0, runner)[pid]))
  {
    hide SP.DbOk, RecordsOk, BookKnown, SP.Step, SP.CommitClosing, SP.CloseInFull, Covers, IsStale, SP.Known, Refuses,
      Tried, Fresh, SP.BookOf;
    EntryKnown(s.db, SP.BookOf(s, runner), pid);
    CloseIsSafe(s, a, runner, pid, day);
    StepKeepsRecords(s, a);
    TryStep(s, a);
    forall p | IsStale(s, runner, p) ensures IsStale(SP.Step(s, a), runner, p) {
      CloseKeepsStale(s, a, runner, pid, p);
    }
    if Fresh(s0.db, draws) {
      TriedIn(s0, s, runner, tried, pid);
      TriedOne(s0, s, runner, tried, pid, a);
      DrawsOne(s0, s, draws, tried, pid, a);
    }
  }

  lemma TriedIn(s0: SP.System, s: SP.System, runner: SP.RunnerId, tried: set<PositionId>, pid: PositionId)
    requires Tried(s0, s, runner, tried) && pid in SP.BookOf(s, runner)
    ensures pid in SP.BookOf(s0, runner)
  {
    hide OpenRow;
  }

  /** With new ids, nothing is left and nothing failed exactly when everything could be closed. */
  lemma ClosedExactly(s0: SP.System, s: SP.System, runner: SP.RunnerId, day: DayId, snapshot: Option<Snapshot>,
                      open: set<PositionId>, failed: bool)
    requires Tried(s0, s, runner, open) && snapshot.Some?
    requires var book := SP.BookOf(s0, runner); open == set p | p in book && InScope(book[p], Some(day))
    requires failed <==> AnyRefuses(s0.db, SP.BookOf(s0, runner), open)
    ensures !failed && NoneRemembered(SP.BookOf(s, runner), day) <==> CanClose(s0.db, SP.BookOf(s0, runner), day, snapshot)
  {
    hide OpenRow, SP.BookOf;
    var book0, book := SP.BookOf(s0, runner), SP.BookOf(s, runner);
    if !failed && NoneRemembered(book, day) {
      forall p | p in book0 && InScope(book0[p], Some(day)) ensures Closable(s0.db, book0[p]) {
        assert p in open;
      }
    }
    if CanClose(s0.db, book0, day, snapshot) {
      forall p | p in book ensures !InScope(book[p], Some(day)) {
        assert p in book0 && (InScope(book[p], Some(day)) ==> p in open);
      }
    }
  }

  lemma EntryKnown(db: Db, book: SP.Book, pid: PositionId)
    requires BookKnown(db, book) && pid in book
    ensures SP.Known(db, book[pid]) && book[pid].id == pid
  {
  }

  lemma WithoutSnapshot(db: Db, book: SP.Book, day: DayId)
    ensures CanClose(db, book, day, None) <==> NoneRemembered(book, day)
  {
    hide OpenRow;
  }

  /** Cancelling orders changes nothing about what can be closed. */
  lemma SameCanClose(db: Db, db2: Db, book: SP.Book, day: DayId, snapshot: Option<Snapshot>, draws: PositionId -> Draw)
    requires db2.positions == db.positions && db2.fills == db.fills
    ensures CanClose(db2, book, day, snapshot) <==> CanClose(db, book, day, snapshot)
    ensures Fresh(db2, draws) <==> Fresh(db, draws)
  {
    hide RowOf;
    forall p | p in book ensures Closable(db2, book[p]) <==> Closable(db, book[p]) {}
  }

  /**
   What stands in the way of closing a day that could be read: a stale entry, an open position whose
   quantity rounded to nothing, or an open position and no snapshot.
   */
  lemma CanCloseExactly(db: Db, book: SP.Book, day: DayId, snapshot: Option<Snapshot>)
    requires SP.DbOk(db) && BookKnown(db, book)
    ensures CanClose(db, AfterRead(db, book, day, false), day, snapshot) <==>
            && (forall p :: p in book && InScope(book[p], Some(day)) ==> OpenRow(db, p, book[p]))
            && forall i :: 0 <= i < |db.positions| && InScope(db.positions[i], Some(day)) ==>
                 snapshot.Some? && db.positions[i].qty > 0.0
  {
    hide SP.DbOk, DayRows, RowOf;
    DayRowsAre(db, day);
    DistinctRows(db);
    var rows, all := DayRows(db.positions, day), AfterRead(db, book, day, false);
    forall id | id in rows ensures OpenRow(db, id, rows[id]) && all[id] == rows[id] {
      RowIsOpen(db, rows[id]);
    }
    forall p | p in book && InScope(book[p], Some(day)) && OpenRow(db, p, book[p]) ensures p in rows {
      OpenRowIsRow(db, p, book[p]);
    }
    if CanClose(db, all, day, snapshot) {
      forall i | 0 <= i < |db.positions| && InScope(db.positions[i], Some(day))
        ensures snapshot.Some? && db.positions[i].qty > 0.0
      {
        assert db.positions[i] in db.positions && db.positions[i].id in all;
      }
      forall p | p in book && InScope(book[p], Some(day)) ensures OpenRow(db, p, book[p]) {
        ClosableInRows(db, book, rows, p, day);
        SP.RowOfDistinct(db.positions, IndexOf(db.positions, rows[p]));
        assert SP.Known(db, book[p]) && book[p] == rows[p];
      }
    }
  }

  lemma ClosableInRows(db: Db, book: SP.Book, rows: SP.Book, p: PositionId, day: DayId)
    requires p in book && InScope(book[p], Some(day)) && book[p].id == p
    requires forall q :: q in book + rows && InScope((book + rows)[q], Some(day)) ==> Closable(db, (book + rows)[q])
    requires OpenRow(db, p, book[p]) ==> p in rows
    ensures p in rows
  {
    hide OpenRow;
    var all := book + rows;
    assert p in all && (InScope(all[p], Some(day)) ==> Closable(db, all[p]));
  }

  ghost function IndexOf(rows: seq<Position>, p: Position): (i: nat)
    requires p in rows
    ensures i < |rows| && rows[i] == p
  {
    var i :| 0 <= i < |rows| && rows[i] == p;
    i
  }

  lemma OpenRowIsRow(db: Db, id: PositionId, p: Position)
    requires OpenRow(db, id, p)
    ensures p in db.positions && p.id == id
  {
  }

  /** Ending an order disturbs no record. */
  lemma EndKeepsRecords(db: Db, order: OrderId, state: OrderState)
    requires RecordsOk(db)
    ensures RecordsOk(UpdateOrderState(db, order, state))
  {
    hide RecordsOk;
    GrowingKeepsRecords(db, UpdateOrderState(db, order, state));
  }

  // ---------------------------------------------------------------------------
  // The handler as a run
  // ---------------------------------------------------------------------------

  /** A run leads from `w` to `t`, where the handler has come to `phase`; the command table is as it was. */
  ghost predicate Led(w: World, t: World, job: Job, phase: Phase) {
    Reaches(w, t) && HasDay(w, job.id) && t.rows == w.rows && Finishing(t, job, phase)
  }

  lemma LedStart(w: World, job: Job)
    requires HasDay(w, job.id) && Finishing(w, job, Taken)
    ensures Led(w, w, job, Taken)
  {
    ReachesSelf(w);
  }

  lemma LedFacts(w: World, t: World, job: Job, phase: Phase)
    ensures Led(w, t, job, phase) ==> Reaches(w, t) && HasDay(t, job.id) && t.rows == w.rows && Finishing(t, job, phase)
  {
  }

  lemma LedOn(w: World, t: World, job: Job, phase: Phase, a: DayClose.Action, next: Phase)
    requires Led(w, t, job, phase) && Enabled(t, a)
    requires Step(t, a).rows == t.rows && Finishing(Step(t, a), job, next)
    ensures Led(w, Step(t, a), job, next)
  {
    hide Step, Enabled, Reaches;
    ReachesStep(w, t, a);
  }

  lemma TradeLed(w: World, t: World, job: Job, phase: Phase, a: SP.Action)
    requires Led(w, t, job, phase) && SP.Enabled(t.sys, a) && !a.Crash?
    ensures Led(w, t.(sys := SP.Step(t.sys, a)), job, phase)
  {
    hide SP.Step, SP.Enabled, Reaches;
    assert Step(t, Trade(a)) == t.(sys := SP.Step(t.sys, a));
    LedOn(w, t, job, phase, Trade(a), phase);
  }

  lemma CancelLed(w: World, t: World, job: Job, order: OrderId)
    requires Led(w, t, job, Marked)
    ensures var a := SP.EndOrder(order, Cancelled);
            && SP.Step(t.sys, a) == t.sys.(db := UpdateOrderState(t.sys.db, order, Cancelled))
            && Led(w, t.(sys := SP.Step(t.sys, a)), job, Marked)
  {
    hide Led;
    TradeLed(w, t, job, Marked, SP.EndOrder(order, Cancelled));
  }

  lemma MarkLed(w: World, t: World, job: Job, raised: bool)
    requires Led(w, t, job, Taken)
    ensures var day := DayOf(w, job.id);
            if raised || !MaySet(t.days, day, Closing) then Led(w, t.(phases := t.phases[job := Refused]), job, Refused)
            else Led(w, t.(days := Set(t.days, day, Closing), phases := t.phases[job := Marked]), job, Marked)
  {
    hide MaySet, Set, Reaches;
    var a := Mark(job.runner, job.id, raised);
    assert Enabled(t, a) && Job(job.runner, job.id) == job;
    LedOn(w, t, job, Taken, a, if raised || !MaySet(t.days, DayOf(w, job.id), Closing) then Refused else Marked);
  }

  /** The world once the handler has read the positions of its day. */
  ghost function ReadBy(t: World, job: Job, loaded: bool, day: DayId): World {
    t.(sys := if loaded then DayClose.MergeDay(t.sys, job.runner, day) else t.sys,
       phases := t.phases[job := Merged(loaded)])
  }

  lemma ReadLed(w: World, t: World, job: Job, loaded: bool)
    requires Led(w, t, job, Marked)
    ensures var day, u := DayOf(w, job.id), ReadBy(t, job, loaded, DayOf(w, job.id));
            && Led(w, u, job, Merged(loaded)) && u.sys.db == t.sys.db && u.days == t.days
            && SP.BookOf(u.sys, job.runner) ==
               if loaded then SP.BookOf(t.sys, job.runner) + DayRows(t.sys.db.positions, day) else SP.BookOf(t.sys, job.runner)
  {
    hide Reaches, DayRows;
    var a := Merge(job.runner, job.id, loaded);
    assert Enabled(t, a) && Job(job.runner, job.id) == job;
    LedOn(w, t, job, Marked, a, Merged(loaded));
  }

  lemma DeferLed(w: World, t: World, job: Job, phase: Phase, pending: bool)
    requires Led(w, t, job, phase) && !phase.Done?
    ensures var days := if pending then Set(t.days, DayOf(w, job.id), SettlementPending) else t.days;
            Led(w, t.(days := days, phases := t.phases[job := Refused]), job, Refused)
  {
    hide Set, Reaches;
    var a := Defer(job.runner, job.id, pending);
    assert Enabled(t, a) && Job(job.runner, job.id) == job;
    LedOn(w, t, job, phase, a, Refused);
  }

  lemma CloseDayLed(w: World, t: World, job: Job, phase: Phase)
    requires Led(w, t, job, phase) && phase.Merged? && NoneRemembered(SP.BookOf(t.sys, job.runner), DayOf(w, job.id))
    ensures var day := DayOf(w, job.id);
            && Enabled(t, CloseDay(job.runner, job.id))
            && (day in t.days ==>
                  var u := Step(t, CloseDay(job.runner, job.id));
                  u.sys == t.sys && u.days == Set(t.days, day, DayClosed) && Led(w, u, job, Done))
  {
    hide MaySet, Set, NoneRemembered, DayHasOpen, Reaches;
    var a := CloseDay(job.runner, job.id);
    assert Job(job.runner, job.id) == job;
    if DayOf(w, job.id) in t.days {
      LedOn(w, t, job, phase, a, Done);
    }
  }

  /** A close does the same to tables and book in the whole system as in what one runner sees of it. */
  lemma SameClose(s: SP.System, t: SP.System, a: SP.Action)
    requires a.CloseFill? && t.db == s.db && SP.BookOf(t, a.runner) == SP.BookOf(s, a.runner)
    ensures SP.Enabled(t, a) <==> SP.Enabled(s, a)
    ensures SP.Step(t, a).db == SP.Step(s, a).db
    ensures SP.BookOf(SP.Step(t, a), a.runner) == SP.BookOf(SP.Step(s, a), a.runner)
  {
    hide SP.CommitClosing, SP.ClosingOf, SP.Known;
  }

  lemma SetMissing(days: Days, day: DayId, state: DayState)
    ensures day !in days ==> Set(days, day, state) == days && MaySet(days, day, state)
  {
  }

  lemma DayRowsKnown(db: Db, book: SP.Book, day: DayId)
    requires SP.DbOk(db) && BookKnown(db, book)
    ensures BookKnown(db, book + DayRows(db.positions, day))
  {
    hide SP.DbOk, DayRows, RowOf, SP.Known, OpenRow;
    DayRowsAre(db, day);
    var rows := DayRows(db.positions, day);
    forall id | id in rows ensures rows[id].id == id && SP.Known(db, rows[id]) {
      RowIsOpen(db, rows[id]);
      OpenRowKnown(db, id, rows[id]);
    }
  }

  lemma SameBooks(a: SP.Book, b: SP.Book)
    requires forall id :: id in a ==> id in b && b[id] == a[id]
    requires forall id :: id in b ==> id in a
    ensures a == b
  {
    forall id | id in a ensures id in b && b[id] == a[id] {
    }
    forall id | id in b ensures id in a {
    }
    assert a == b;
  }

  lemma DayRowsAre(db: Db, day: DayId)
    requires SP.DbOk(db)
    ensures forall p :: p in db.positions && InScope(p, Some(day)) ==>
              p.id in DayRows(db.positions, day) && DayRows(db.positions, day)[p.id] == p
    ensures var rows := DayRows(db.positions, day);
            forall id :: id in rows ==> rows[id] in db.positions && InScope(rows[id], Some(day)) && rows[id].id == id
  {
    hide SP.OpenRows, SP.RowsOk, SP.FillsUnique, SP.NoStrays, SP.Balanced;
    OpenRowsComplete(db.positions);
    forall p | p in db.positions && InScope(p, Some(day))
      ensures p.id in DayRows(db.positions, day) && DayRows(db.positions, day)[p.id] == p
    {
      var i :| 0 <= i < |db.positions| && db.positions[i] == p;
      OpenRowIs(db, i);
    }
  }

  /** What a read of the day does to what a runner covers, to its stale entries, and to a book without the day. */
  lemma ReadOfDay(s: SP.System, t: SP.System, runner: SP.RunnerId, day: DayId)
    requires SP.DbOk(s.db) && t.db == s.db
    requires SP.BookOf(t, runner) == SP.BookOf(s, runner) + DayRows(s.db.positions, day)
    ensures Covers(t.db, SP.BookOf(t, runner), Some(day))
    ensures forall p :: IsStale(s, runner, p) ==> IsStale(t, runner, p)
    ensures !DayHasOpen(s.db, day) ==> SP.BookOf(t, runner) == SP.BookOf(s, runner)
  {
    hide SP.DbOk, RowOf, DayRows;
    DayRowsAre(s.db, day);
    var rows := DayRows(s.db.positions, day);
    forall p | IsStale(s, runner, p) ensures p.id !in rows {
      if p.id in rows {
        RowIsOpen(s.db, rows[p.id]);
      }
    }
    forall id | id in rows ensures DayHasOpen(s.db, day) {
      InScopeSomewhere(s.db, rows[id], day);
    }
  }

  /** A remembered position may be closed from its copy, and closing keeps database and book in order. */
  lemma CloseIsSafe(s: SP.System, a: SP.Action, runner: SP.RunnerId, id: PositionId, day: DayId)
    requires SP.DbOk(s.db) && BookKnown(s.db, SP.BookOf(s, runner))
    requires a.CloseFill? && a.runner == runner && id in SP.BookOf(s, runner) && SP.BookOf(s, runner)[id] == a.position
    ensures SP.Enabled(s, a)
    ensures SP.DbOk(SP.Step(s, a).db) && BookKnown(SP.Step(s, a).db, SP.BookOf(SP.Step(s, a), runner))
    ensures var t := SP.Step(s, a);
            Covers(s.db, SP.BookOf(s, runner), Some(day)) <==> Covers(t.db, SP.BookOf(t, runner), Some(day))
  {
    hide SP.Step, SP.RowsOk, SP.FillsUnique, SP.NoStrays, SP.Balanced, Covers, SP.Known, Closes, Opens, Missed;
    assert SP.Known(s.db, a.position);
    SP.StepKeepsDb(s, a);
    CloseKeepsKnown(s, a, runner);
    NothingMissed(s, runner, day);
    NothingMissed(SP.Step(s, a), runner, day);
    MissedStep(s, a, runner, day);
    CloseMissesNothing(s, a, runner, day);
  }

  /** A runner that closes a position it remembers misses what it missed before. */
  lemma CloseMissesNothing(s: SP.System, a: SP.Action, runner: SP.RunnerId, day: DayId)
    requires a.CloseFill? && a.runner == runner && a.position.id in SP.BookOf(s, runner)
    ensures MissedNext(Missed(s, runner, day), s, a, runner, day) == Missed(s, runner, day)
  {
    hide Closes, OpenOn;
    assert !OpenedElsewhere(s, a, runner);
  }

  /** A day that could be marked closing can be put off to settlement. */
  lemma MayPutOff(days: Days, day: DayId)
    ensures MaySet(days, day, Closing) ==> MaySet(Set(days, day, Closing), day, SettlementPending)
    ensures day !in days ==> MaySet(days, day, SettlementPending)
  {
  }

  lemma CloseKeepsKnown(s: SP.System, a: SP.Action, runner: SP.RunnerId)
    requires SP.DbOk(s.db) && BookKnown(s.db, SP.BookOf(s, runner)) && a.CloseFill? && SP.Enabled(s, a)
    ensures BookKnown(SP.Step(s, a).db, SP.BookOf(SP.Step(s, a), runner))
  {
    hide SP.Step, SP.RowsOk, SP.FillsUnique, SP.NoStrays, SP.Balanced, SP.Known, SP.RowsMove;
    var t := SP.Step(s, a);
    SP.StepMovesRows(s, a);
    SP.StepKeepsDb(s, a);
    forall id | id in SP.BookOf(t, runner) ensures SP.BookOf(t, runner)[id].id == id && SP.Known(t.db, SP.BookOf(t, runner)[id]) {
      CloseAddsNothing(s, a, runner, id);
      SP.KnownMoves(s.db, t.db, SP.BookOf(s, runner)[id]);
    }
  }

  lemma CloseAddsNothing(s: SP.System, a: SP.Action, runner: SP.RunnerId, id: PositionId)
    requires a.CloseFill? && id in SP.BookOf(SP.Step(s, a), runner)
    ensures id in SP.BookOf(s, runner) && SP.BookOf(SP.Step(s, a), runner)[id] == SP.BookOf(s, runner)[id]
  {
    hide SP.CommitClosing, SP.ClosingOf;
  }

  lemma CloseKeepsStale(s: SP.System, a: SP.Action, runner: SP.RunnerId, id: PositionId, p: Position)
    requires SP.DbOk(s.db) && BookKnown(s.db, SP.BookOf(s, runner)) && IsStale(s, runner, p)
    requires a.CloseFill? && a.runner == runner && id in SP.BookOf(s, runner) && SP.BookOf(s, runner)[id] == a.position
    ensures IsStale(SP.Step(s, a), runner, p)
  {
    hide SP.Step, SP.DbOk, IsStale, SP.Known;
    DistinctRows(s.db);
    assert SP.Known(s.db, a.position);
    StaleStep(s, a, runner, p);
  }

  lemma StaleIsRemembered(s: SP.System, runner: SP.RunnerId, p: Position, day: DayId)
    requires IsStale(s, runner, p) && InScope(p, Some(day))
    ensures !NoneRemembered(SP.BookOf(s, runner), day)
  {
  }

  lemma SameStale(s: SP.System, t: SP.System, runner: SP.RunnerId)
    requires t.db.positions == s.db.positions && SP.BookOf(t, runner) == SP.BookOf(s, runner)
    ensures forall p :: IsStale(s, runner, p) ==> IsStale(t, runner, p)
  {
  }

  lemma InScopeSomewhere(db: Db, p: Position, day: DayId)
    requires p in db.positions && InScope(p, Some(day))
    ensures DayHasOpen(db, day)
  {
  }

  lemma RowIsOpen(db: Db, p: Position)
    requires SP.DbOk(db) && p in db.positions && p.status.Open?
    ensures OpenRow(db, p.id, p)
  {
    var i :| 0 <= i < |db.positions| && db.positions[i] == p;
    SP.RowOfDistinct(db.positions, i);
  }

  lemma NothingOpen(db: Db, book: SP.Book, day: DayId)
    requires SP.DbOk(db) && BookKnown(db, book)
    ensures NoneRemembered(book, day) ==> (Covers(db, book, Some(day)) <==> !DayHasOpen(db, day))
  {
    hide SP.RowsOk, SP.FillsUnique, SP.NoStrays, SP.Balanced, BookKnown, Covers, NoneRemembered, DayHasOpen;
    if NoneRemembered(book, day) {
      NothingOpenExactly(db, book, day);
    }
  }

  lemma SameOpen(db: Db, db2: Db, day: DayId)
    requires db2.positions == db.positions
    ensures DayHasOpen(db2, day) <==> DayHasOpen(db, day)
  {
  }

  lemma RecoverStep(s: SP.System, runner: SP.RunnerId, loaded: bool)
    ensures SP.Step(s, SP.Recover(runner, loaded)) ==
            if loaded then s.(books := s.books[runner := SP.BookOf(s, runner) + SP.OpenRows(s.db.positions)]) else s
  {
    hide SP.OpenRows;
  }

  lemma OpenRowsOfNone(rows: seq<Position>)
    ensures SP.OpenRows(rows[..0]) == map[]
  {
  }

  lemma OpenRowsStep(rows: seq<Position>, i: nat)
    requires i < |rows|
    ensures SP.OpenRows(rows[..i + 1]) ==
            if rows[i].status.Open? then SP.OpenRows(rows[..i])[rows[i].id := rows[i]] else SP.OpenRows(rows[..i])
  {
    assert rows[..i + 1][..i] == rows[..i];
  }

  lemma AddAfterMerge(a: SP.Book, b: SP.Book, p: Position)
    ensures (a + b)[p.id := p] == a + b[p.id := p]
  {
  }

  lemma SomeMember(s: set<int>)
    requires s != {}
    ensures exists x :: x in s
  {
    assert (forall x :: x !in s) ==> s == {};
  }
}
