/**
 The positions a runner remembers (`paper_trading/runner.py`) against the open positions of the
 database, through opens, closes, failed commits, crashes and recoveries.
 */
module RunnerBook {
  import opened Journal
  import opened Settlement
  import opened SettlementProtocol
  import opened Wrappers

  ghost predicate OpenRow(db: Db, id: PositionId, p: Position) {
    && RowOf(db.positions, id).Some?
    && db.positions[RowOf(db.positions, id).value] == p && p.status.Open?
  }

  /** Everything remembered is an open row, field by field. */
  ghost predicate Within(db: Db, book: Book) {
    forall id :: id in book ==> OpenRow(db, id, book[id])
  }

  predicate InScope(p: Position, day: Option<DayId>) { p.status.Open? && (day.None? || p.day == day.value) }

  /** Every open row is remembered, of one day or of all. */
  ghost predicate Covers(db: Db, book: Book, day: Option<DayId>) {
    forall i :: 0 <= i < |db.positions| && InScope(db.positions[i], day) ==> db.positions[i].id in book
  }

  ghost predicate Complete(db: Db, book: Book) { Covers(db, book, None) }

  ghost predicate Agrees(db: Db, book: Book) { Within(db, book) && Complete(db, book) }

  /** The book lists exactly the open rows: ids, quantity, entry price, margin and entry fee. */
  lemma AgreementIsEquality(db: Db, book: Book)
    requires RowsDistinct(db.positions)
    ensures Agrees(db, book) <==> book == OpenRows(db.positions)
  {
    hide RowOf, OpenRows;
    var all := OpenRows(db.positions);
    OpenRowsAgree(db);
    if Agrees(db, book) {
      forall id | id in book ensures id in all && all[id] == book[id] {
        assert OpenRow(db, id, book[id]);
        OpenRowsComplete(db.positions);
      }
      forall id | id in all ensures id in book {
        assert OpenRow(db, id, all[id]);
      }
      assert book == all;
    }
  }

  lemma OpenRowsAgree(db: Db)
    requires RowsDistinct(db.positions)
    ensures Agrees(db, OpenRows(db.positions))
  {
    hide RowOf, OpenRows;
    var rows, all := db.positions, OpenRows(db.positions);
    OpenRowsComplete(rows);
    forall id | id in all ensures OpenRow(db, id, all[id]) {
      var i :| 0 <= i < |rows| && rows[i] == all[id] && rows[i].id == id && rows[i].status.Open?;
      RowOfDistinct(rows, i);
    }
  }

  lemma {:induction false} OpenRowsComplete(rows: seq<Position>)
    requires RowsDistinct(rows)
    ensures var all := OpenRows(rows);
            forall i :: 0 <= i < |rows| && rows[i].status.Open? ==> rows[i].id in all && all[rows[i].id] == rows[i]
  {
    if rows != [] {
      var n := |rows| - 1;
      var front, last := rows[..n], rows[n];
      OpenRowsComplete(front);
      forall i | 0 <= i < |rows| && rows[i].status.Open?
        ensures rows[i].id in OpenRows(rows) && OpenRows(rows)[rows[i].id] == rows[i]
      {
        if i < n {
          assert front[i] == rows[i] && rows[i].id != last.id;
        }
      }
    }
  }

  /** What someone remembers was read, at some time, from the row it names. */
  ghost predicate BookKnown(db: Db, book: Book) {
    forall id :: id in book ==> book[id].id == id && Known(db, book[id])
  }

  ghost predicate BooksKnown(s: System) { forall runner :: BookKnown(s.db, BookOf(s, runner)) }

  lemma DistinctRows(db: Db)
    requires DbOk(db)
    ensures RowsDistinct(db.positions)
  {
    hide RowsOk, FillsUnique, NoStrays, Balanced;
  }

  // ---------------------------------------------------------------------------
  // One step
  // ---------------------------------------------------------------------------

  /** The step is a close or liquidation that goes through. */
  ghost predicate Closes(s: System, a: Action) {
    && (a.CloseFill? || a.Liquidate?) && Known(s.db, a.position)
    && ClosingOf(a).result.closed && CommitClosing(s.db, ClosingOf(a)).Ok?
  }

  ghost predicate Opens(s: System, a: Action) { a.OpenFill? && CommitOpening(s.db, a.opening).Ok? }

  predicate By(a: Action, runner: RunnerId) { (a.OpenFill? || a.CloseFill? || a.Recover? || a.Crash?) && a.runner == runner }

  /** Somebody else, or a liquidation, closes a position the runner remembers. */
  ghost predicate ClosedElsewhere(s: System, a: Action, runner: RunnerId) {
    Closes(s, a) && !By(a, runner) && a.position.id in BookOf(s, runner)
  }

  /** Another runner opens a position. */
  ghost predicate OpenedElsewhere(s: System, a: Action, runner: RunnerId) { Opens(s, a) && a.runner != runner }

  lemma OpenStep(s: System, a: Action)
    requires Opens(s, a)
    ensures var t, row := Step(s, a), OpeningPosition(a.opening);
            && t.db.positions == s.db.positions + [row] && row.status.Open? && row.id == a.opening.order
            && row.day == a.opening.day && RowOf(s.db.positions, row.id).None?
            && t.books == s.books[a.runner := BookOf(s, a.runner)[row.id := row]]
  {
    hide CommitOpening;
    OpeningShape(s.db, a.opening);
  }

  lemma CloseStep(s: System, a: Action)
    requires Closes(s, a)
    ensures var t, at := Step(s, a), RowOf(s.db.positions, a.position.id);
            && at.Some? && s.db.positions[at.value] == a.position && a.position.status.Open?
            && exists row :: Replaces(s.db.positions, t.db.positions, at.value, row)
                             && t.books == if a.CloseFill? then s.books[a.runner := BookOf(s, a.runner) - {a.position.id}] else s.books
  {
    hide CommitClosing, ClosingOf, RowAfter, RowOf;
    ClosingOfPosition(a);
    ClosingShape(s.db, ClosingOf(a));
    RowAfterTerminal(ClosingOf(a));
    assert Replaces(s.db.positions, Step(s, a).db.positions, RowOf(s.db.positions, a.position.id).value, RowAfter(ClosingOf(a)));
  }

  /** One row became terminal. */
  predicate Replaces(rows: seq<Position>, later: seq<Position>, at: nat, row: Position) {
    && at < |rows| && later == rows[at := row] && row.id == rows[at].id && SameOpening(rows[at], row) && !row.status.Open?
  }

  /** Steps that are neither a committed opening nor a committed closing leave the rows alone. */
  lemma OtherStep(s: System, a: Action)
    requires Enabled(s, a) && !Opens(s, a) && !Closes(s, a)
    ensures Step(s, a).db.positions == s.db.positions
    ensures Step(s, a).books == match a
              case Recover(runner, loaded) =>
                if loaded then s.books[runner := BookOf(s, runner) + OpenRows(s.db.positions)] else s.books
              case Crash(runner) => s.books[runner := map[]]
              case _ => s.books
  {
    hide CommitOpening, CommitClosing, ClosingOf, OpenRows, Known;
  }

  lemma RowOfReplaced(rows: seq<Position>, later: seq<Position>, at: nat, row: Position, id: PositionId)
    requires RowsDistinct(rows) && Replaces(rows, later, at, row)
    ensures RowsDistinct(later) && RowOf(later, id) == RowOf(rows, id)
  {
    RowsStayDistinct(rows, at, row);
    var i := RowOf(rows, id);
    if i.Some? {
      hide RowOf;
      RowOfDistinct(later, i.value);
    } else {
      forall k | 0 <= k < |later| ensures later[k].id != id {
        assert later[k].id == rows[k].id;
      }
    }
  }

  /**
   A book that lists only open positions goes on doing so exactly when nobody else closes a
   position it remembers.
   */
  lemma WithinExactly(s: System, a: Action, runner: RunnerId)
    requires RowsDistinct(s.db.positions) && Enabled(s, a) && Within(s.db, BookOf(s, runner))
    ensures Within(Step(s, a).db, BookOf(Step(s, a), runner)) <==> !ClosedElsewhere(s, a, runner)
  {
    hide Step, Opens, Closes, Enabled, Within, ClosedElsewhere, BookOf;
    if Opens(s, a) {
      OpenedWithin(s, a, runner);
    } else if Closes(s, a) {
      ClosedWithin(s, a, runner);
    } else {
      OtherWithin(s, a, runner);
    }
  }

  lemma OtherWithin(s: System, a: Action, runner: RunnerId)
    requires RowsDistinct(s.db.positions) && Enabled(s, a) && !Opens(s, a) && !Closes(s, a)
    requires Within(s.db, BookOf(s, runner))
    ensures Within(Step(s, a).db, BookOf(Step(s, a), runner)) && !ClosedElsewhere(s, a, runner)
  {
    hide RowOf, Step, Opens, Closes, OpenRows, Known, Enabled, OpenRow;
    var t := Step(s, a);
    OtherStep(s, a);
    OpenRowsAgree(s.db);
    SameRows(s.db, t.db, BookOf(s, runner));
    SameRows(s.db, t.db, OpenRows(s.db.positions));
  }

  lemma SameRows(db: Db, db2: Db, book: Book)
    requires db2.positions == db.positions
    ensures Within(db2, book) <==> Within(db, book)
    ensures BookKnown(db2, book) <==> BookKnown(db, book)
    ensures forall day :: Covers(db2, book, day) <==> Covers(db, book, day)
  {
    hide RowOf;
    forall id | id in book ensures OpenRow(db2, id, book[id]) <==> OpenRow(db, id, book[id]) {}
    forall id | id in book ensures Known(db2, book[id]) <==> Known(db, book[id]) {}
  }

  lemma OpenedWithin(s: System, a: Action, runner: RunnerId)
    requires Opens(s, a) && Within(s.db, BookOf(s, runner))
    ensures Within(Step(s, a).db, BookOf(Step(s, a), runner)) && !ClosedElsewhere(s, a, runner)
  {
    hide RowOf, Step, Opens, OpenRows, Known, CommitClosing, ClosingOf;
    OpensKind(s, a);
    OpenStep(s, a);
    var rows, row, book := s.db.positions, OpeningPosition(a.opening), BookOf(Step(s, a), runner);
    forall id | id in book ensures OpenRow(Step(s, a).db, id, book[id]) {
      RowOfAppend(rows, row, id);
      assert id in BookOf(s, runner) ==> OpenRow(s.db, id, BookOf(s, runner)[id]);
    }
  }

  lemma ClosedWithin(s: System, a: Action, runner: RunnerId)
    requires RowsDistinct(s.db.positions) && Closes(s, a) && Within(s.db, BookOf(s, runner))
    ensures Within(Step(s, a).db, BookOf(Step(s, a), runner)) <==> !ClosedElsewhere(s, a, runner)
  {
    hide RowOf, Step, Closes, OpenRows, Known;
    CloseStep(s, a);
    assert a.CloseFill? || a.Liquidate? by { ClosesKind(s, a); }
    var rows, later, at := s.db.positions, Step(s, a).db.positions, RowOf(s.db.positions, a.position.id).value;
    var row :| Replaces(rows, later, at, row);
    var before, book := BookOf(s, runner), BookOf(Step(s, a), runner);
    forall id | id in book && id != a.position.id ensures OpenRow(Step(s, a).db, id, book[id]) {
      assert OpenRow(s.db, id, before[id]);
      RowOfReplaced(rows, later, at, row, id);
    }
    RowOfReplaced(rows, later, at, row, a.position.id);
    assert a.position.id in book ==> !OpenRow(Step(s, a).db, a.position.id, book[a.position.id]);
  }

  lemma ClosesKind(s: System, a: Action)
    requires Closes(s, a)
    ensures (a.CloseFill? || a.Liquidate?) && Known(s.db, a.position) && !Opens(s, a)
  {
  }

  /** A book that misses nothing goes on so unless its runner crashes or another one opens a position of the day. */
  lemma CoversStep(s: System, a: Action, runner: RunnerId, day: Option<DayId>)
    requires RowsDistinct(s.db.positions) && Enabled(s, a) && a != Crash(runner)
    requires Covers(s.db, BookOf(s, runner), day)
    requires OpenedElsewhere(s, a, runner) ==> day.Some? && a.opening.day != day.value
    ensures Covers(Step(s, a).db, BookOf(Step(s, a), runner), day)
  {
    hide RowOf, Step, Opens, Closes, OpenRows, Known, Enabled;
    var rows, t := s.db.positions, Step(s, a);
    if Opens(s, a) {
      OpenStep(s, a);
      OpensKind(s, a);
    } else if Closes(s, a) {
      CloseStep(s, a);
      ClosesKind(s, a);
      var at := RowOf(rows, a.position.id).value;
      var row :| Replaces(rows, t.db.positions, at, row);
      forall i | 0 <= i < |rows| && InScope(t.db.positions[i], day) ensures t.db.positions[i].id in BookOf(t, runner) {
        assert i != at && InScope(rows[i], day) && rows[i].id != rows[at].id;
      }
    } else {
      OtherStep(s, a);
    }
  }

  // ---------------------------------------------------------------------------
  // What a runner misses
  // ---------------------------------------------------------------------------

  /** The row is open and of the day. */
  ghost predicate OpenOn(db: Db, id: PositionId, day: DayId) {
    RowOf(db.positions, id).Some? && InScope(db.positions[RowOf(db.positions, id).value], Some(day))
  }

  /** Open rows of a day that a runner does not remember. */
  ghost function Missed(s: System, runner: RunnerId, day: DayId): iset<PositionId> {
    iset id | OpenOn(s.db, id, day) && id !in BookOf(s, runner)
  }

  /**
   What a runner misses after a step, told from the step alone: another runner's opening adds to it, a
   crash adds what was remembered, a close takes away, and a recovery whose load succeeds leaves nothing.
   */
  ghost function MissedNext(missed: iset<PositionId>, s: System, a: Action, runner: RunnerId, day: DayId): iset<PositionId> {
    if a == Recover(runner, true) then iset{}
    else if a == Crash(runner) then missed + (iset id | id in BookOf(s, runner) && OpenOn(s.db, id, day))
    else if Closes(s, a) then missed - iset{a.position.id}
    else if OpenedElsewhere(s, a, runner) && a.opening.day == day then missed + iset{a.opening.order}
    else missed
  }

  lemma NothingMissed(s: System, runner: RunnerId, day: DayId)
    requires RowsDistinct(s.db.positions)
    ensures Missed(s, runner, day) == iset{} <==> Covers(s.db, BookOf(s, runner), Some(day))
  {
    hide RowOf, BookOf;
    var rows := s.db.positions;
    if Covers(s.db, BookOf(s, runner), Some(day)) {
      forall id ensures id !in Missed(s, runner, day) {
        if OpenOn(s.db, id, day) {
          RowOfIs(rows, id);
        }
      }
    } else {
      var i :| 0 <= i < |rows| && InScope(rows[i], Some(day)) && rows[i].id !in BookOf(s, runner);
      RowOfDistinct(rows, i);
      assert rows[i].id in Missed(s, runner, day);
    }
  }

  lemma RowOfIs(rows: seq<Position>, id: PositionId)
    ensures RowOf(rows, id).Some? ==> rows[RowOf(rows, id).value].id == id
  {
  }

  lemma MissedStep(s: System, a: Action, runner: RunnerId, day: DayId)
    requires RowsDistinct(s.db.positions) && Enabled(s, a) && BookKnown(s.db, BookOf(s, runner))
    ensures Missed(Step(s, a), runner, day) == MissedNext(Missed(s, runner, day), s, a, runner, day)
  {
    hide Step, Opens, Closes, Enabled, BookKnown, Missed, MissedNext;
    if Opens(s, a) {
      MissedOpening(s, a, runner, day);
    } else if Closes(s, a) {
      MissedClosing(s, a, runner, day);
    } else {
      MissedOther(s, a, runner, day);
    }
  }

  lemma MissedOpening(s: System, a: Action, runner: RunnerId, day: DayId)
    requires Opens(s, a) && BookKnown(s.db, BookOf(s, runner))
    ensures Missed(Step(s, a), runner, day) == MissedNext(Missed(s, runner, day), s, a, runner, day)
  {
    hide RowOf, Step, Opens, OpenRows, CommitClosing, ClosingOf, Closes;
    OpensKind(s, a);
    OpenStep(s, a);
    NoCloseOpens(s, a);
    var rows, row, t := s.db.positions, OpeningPosition(a.opening), Step(s, a);
    forall id ensures OpenOn(t.db, id, day) <==> OpenOn(s.db, id, day) || (id == row.id && a.opening.day == day) {
      RowOfAppend(rows, row, id);
      RowOfWithin(rows, id);
    }
    assert row.id in BookOf(s, runner) ==> Known(s.db, BookOf(s, runner)[row.id]);
  }

  lemma NoCloseOpens(s: System, a: Action)
    requires a.OpenFill?
    ensures !Closes(s, a)
  {
  }

  lemma RowOfWithin(rows: seq<Position>, id: PositionId)
    ensures RowOf(rows, id).Some? ==> RowOf(rows, id).value < |rows|
  {
  }

  lemma MissedClosing(s: System, a: Action, runner: RunnerId, day: DayId)
    requires RowsDistinct(s.db.positions) && Closes(s, a)
    ensures Missed(Step(s, a), runner, day) == MissedNext(Missed(s, runner, day), s, a, runner, day)
  {
    hide RowOf, Step, Closes, Opens, OpenRows, Known;
    CloseStep(s, a);
    ClosesKind(s, a);
    var rows, later, at := s.db.positions, Step(s, a).db.positions, RowOf(s.db.positions, a.position.id).value;
    var row :| Replaces(rows, later, at, row);
    RowOfIs(rows, a.position.id);
    forall id ensures OpenOn(Step(s, a).db, id, day) <==> OpenOn(s.db, id, day) && id != a.position.id {
      RowOfReplaced(rows, later, at, row, id);
      RowOfIs(rows, id);
    }
  }

  lemma MissedOther(s: System, a: Action, runner: RunnerId, day: DayId)
    requires RowsDistinct(s.db.positions) && Enabled(s, a) && !Opens(s, a) && !Closes(s, a)
    ensures Missed(Step(s, a), runner, day) == MissedNext(Missed(s, runner, day), s, a, runner, day)
  {
    hide RowOf, Step, Opens, Closes, OpenRows, Known, Enabled;
    OtherStep(s, a);
    OpenRowsAgree(s.db);
    var rows, t := s.db.positions, Step(s, a);
    forall id ensures OpenOn(t.db, id, day) <==> OpenOn(s.db, id, day) {}
    forall id | OpenOn(s.db, id, day) ensures id in OpenRows(rows) {
      var i := RowOf(rows, id).value;
      RowOfIs(rows, id);
      assert InScope(rows[i], None);
    }
  }

  lemma OpensKind(s: System, a: Action)
    requires Opens(s, a)
    ensures a.OpenFill?
  {
  }

  /** A recovery whose load succeeds leaves nothing out. */
  lemma RecoverCovers(s: System, runner: RunnerId, day: Option<DayId>)
    requires RowsDistinct(s.db.positions)
    ensures Covers(Step(s, Recover(runner, true)).db, BookOf(Step(s, Recover(runner, true)), runner), day)
  {
    hide RowOf, OpenRows;
    OpenRowsAgree(s.db);
    forall i | 0 <= i < |s.db.positions| && InScope(s.db.positions[i], day) ensures s.db.positions[i].id in OpenRows(s.db.positions) {
      assert InScope(s.db.positions[i], None);
    }
  }

  /** Another runner's opening is missed. */
  lemma MissesOpening(s: System, a: Action, runner: RunnerId)
    requires Within(s.db, BookOf(s, runner)) && OpenedElsewhere(s, a, runner)
    ensures !Complete(Step(s, a).db, BookOf(Step(s, a), runner))
  {
    hide RowOf, Step, Opens, OpenRows;
    OpensKind(s, a);
    OpenStep(s, a);
    var id := a.opening.order;
    assert id in BookOf(s, runner) ==> OpenRow(s.db, id, BookOf(s, runner)[id]);
    var rows := Step(s, a).db.positions;
    assert InScope(rows[|rows| - 1], None) && rows[|rows| - 1].id == id;
  }

  /** The step takes the book away from the database. */
  ghost predicate Estranges(s: System, a: Action, runner: RunnerId) {
    || ClosedElsewhere(s, a, runner) || OpenedElsewhere(s, a, runner)
    || (a == Crash(runner) && BookOf(s, runner) != map[])
  }

  /**
   A book that lists exactly the open positions goes on doing so exactly when nobody else opens
   one, nobody else closes one, and the runner does not crash while it remembers any.
   */
  lemma AgreementExactly(s: System, a: Action, runner: RunnerId)
    requires RowsDistinct(s.db.positions) && Enabled(s, a) && Agrees(s.db, BookOf(s, runner))
    ensures Agrees(Step(s, a).db, BookOf(Step(s, a), runner)) <==> !Estranges(s, a, runner)
  {
    hide RowOf, Step, Opens, Closes, OpenRows, Known, Enabled, Within, Covers;
    WithinExactly(s, a, runner);
    if a == Crash(runner) {
      CrashAgrees(s, runner);
    } else if OpenedElsewhere(s, a, runner) {
      MissesOpening(s, a, runner);
    } else {
      CoversStep(s, a, runner, None);
    }
  }

  lemma CrashAgrees(s: System, runner: RunnerId)
    requires Agrees(s.db, BookOf(s, runner))
    ensures Agrees(Step(s, Crash(runner)).db, BookOf(Step(s, Crash(runner)), runner)) <==> BookOf(s, runner) == map[]
    ensures !ClosedElsewhere(s, Crash(runner), runner) && !OpenedElsewhere(s, Crash(runner), runner)
  {
    var book := BookOf(s, runner);
    if book != map[] {
      assert exists id :: id in book by {
        assert (forall id :: id !in book) ==> book == map[];
      }
      var id :| id in book;
      assert OpenRow(s.db, id, book[id]);
      assert InScope(s.db.positions[RowOf(s.db.positions, id).value], None);
    }
  }

  // ---------------------------------------------------------------------------
  // Runs
  // ---------------------------------------------------------------------------

  /**
   Whether the book can be taken as complete: no longer after its runner crashes or another one opens
   a position, and again after a recovery whose load succeeds.
   */
  ghost predicate Trusts(before: bool, s: System, a: Action, runner: RunnerId) {
    a == Recover(runner, true) || (before && a != Crash(runner) && !OpenedElsewhere(s, a, runner))
  }

  ghost predicate TrustedAfter(before: bool, s: System, actions: seq<Action>, runner: RunnerId)
    decreases |actions|
  {
    if actions == [] then before
    else TrustedAfter(Trusts(before, s, actions[0], runner), Step(s, actions[0]), actions[1..], runner)
  }

  /** Nobody else ever closes a position while the runner remembers it. */
  ghost predicate OwnCloses(s: System, actions: seq<Action>, runner: RunnerId)
    decreases |actions|
  {
    actions == [] || (!ClosedElsewhere(s, actions[0], runner) && OwnCloses(Step(s, actions[0]), actions[1..], runner))
  }

  lemma StepKeepsBook(s: System, a: Action, runner: RunnerId, trusted: bool)
    requires RowsDistinct(s.db.positions) && Enabled(s, a) && !ClosedElsewhere(s, a, runner)
    requires Within(s.db, BookOf(s, runner)) && (trusted ==> Complete(s.db, BookOf(s, runner)))
    ensures var t := Step(s, a);
            && Within(t.db, BookOf(t, runner))
            && (Trusts(trusted, s, a, runner) ==> Complete(t.db, BookOf(t, runner)))
  {
    hide RowOf, Step, Opens, Closes, OpenRows, Known, Enabled, Within, Covers;
    WithinExactly(s, a, runner);
    if a == Recover(runner, true) {
      RecoverCovers(s, runner, None);
    } else if Trusts(trusted, s, a, runner) {
      CoversStep(s, a, runner, None);
    }
  }

  lemma {:induction false} BookInvariant(s: System, actions: seq<Action>, runner: RunnerId, trusted: bool)
    requires DbOk(s.db) && Possible(s, actions) && OwnCloses(s, actions, runner)
    requires Within(s.db, BookOf(s, runner)) && (trusted ==> Complete(s.db, BookOf(s, runner)))
    ensures var t := After(s, actions);
            && Within(t.db, BookOf(t, runner))
            && (TrustedAfter(trusted, s, actions, runner) ==> Complete(t.db, BookOf(t, runner)))
    decreases |actions|
  {
    hide Enabled, Step, Within, Covers, RowsOk, FillsUnique, NoStrays, Balanced, Trusts, BookOf, ClosedElsewhere;
    if actions != [] {
      var t := Step(s, actions[0]);
      StepKeepsBook(s, actions[0], runner, trusted);
      StepKeepsDb(s, actions[0]);
      BookInvariant(t, actions[1..], runner, Trusts(trusted, s, actions[0], runner));
    }
  }

  /**
   With any number of runners: as long as nobody else closes a position the runner remembers, its
   book never lists anything but open positions, and it lists exactly the open positions whenever
   its last successful load is more recent than its last crash and the last opening of another runner.
   */
  lemma BookAgrees(actions: seq<Action>, runner: RunnerId)
    requires Possible(START, actions) && OwnCloses(START, actions, runner)
    ensures var t := After(START, actions);
            && Within(t.db, BookOf(t, runner))
            && (TrustedAfter(true, START, actions, runner) ==> BookOf(t, runner) == OpenRows(t.db.positions))
  {
    hide DbOk, Step, Enabled, OpenRows, Trusts, ClosedElsewhere;
    EmptyDbOk();
    BookInvariant(START, actions, runner, true);
    SettlementInvariant(START, actions);
    var t := After(START, actions);
    DistinctRows(t.db);
    AgreementIsEquality(t.db, BookOf(t, runner));
  }

  /** A restart restores the book exactly when the load succeeds or there was nothing to load. */
  lemma RestartRestores(s: System, runner: RunnerId, loaded: bool)
    requires RowsDistinct(s.db.positions)
    ensures var t := Step(Step(s, Crash(runner)), Recover(runner, loaded));
            Agrees(t.db, BookOf(t, runner)) <==>
            loaded || forall i :: 0 <= i < |s.db.positions| ==> !s.db.positions[i].status.Open?
  {
    hide OpenRows, RowOf, Step, Agrees;
    RestartBook(s, runner, loaded);
    OpenRowsAgree(s.db);
    EmptyAgrees(s.db);
    SameAgreement(s.db, Step(Step(s, Crash(runner)), Recover(runner, loaded)).db);
  }

  lemma RestartBook(s: System, runner: RunnerId, loaded: bool)
    ensures var t := Step(Step(s, Crash(runner)), Recover(runner, loaded));
            && t.db.positions == s.db.positions
            && BookOf(t, runner) == if loaded then OpenRows(s.db.positions) else map[]
  {
    hide OpenRows, RowOf, Step, Known, CommitOpening, CommitClosing, ClosingOf;
    OtherStep(s, Crash(runner));
    OtherStep(Step(s, Crash(runner)), Recover(runner, loaded));
    assert map[] + OpenRows(s.db.positions) == OpenRows(s.db.positions);
  }

  lemma EmptyAgrees(db: Db)
    ensures Agrees(db, map[]) <==> forall i :: 0 <= i < |db.positions| ==> !db.positions[i].status.Open?
  {
    hide RowOf;
    forall i | 0 <= i < |db.positions| ensures InScope(db.positions[i], None) <==> db.positions[i].status.Open? {}
  }

  lemma SameAgreement(db: Db, db2: Db)
    requires db2.positions == db.positions
    ensures forall book :: Agrees(db2, book) <==> Agrees(db, book)
  {
    hide Within, Covers;
    forall book ensures Agrees(db2, book) <==> Agrees(db, book) {
      SameRows(db, db2, book);
    }
  }

  // ---------------------------------------------------------------------------
  // Stale entries
  // ---------------------------------------------------------------------------

  /** A position that is no longer open cannot be closed again, from whatever copy. */
  lemma TerminalRefusesClose(db: Db, c: Closing)
    requires Known(db, c.position) && !db.positions[RowOf(db.positions, c.position.id).value].status.Open?
    ensures CommitClosing(db, c).Err?
  {
    hide FillFits, PostingsFit, ClosingPostings;
  }

  /**
   Once a position is closed or liquidated its row never changes again, and whoever tries to close it
   from whatever copy, in whatever later state, is refused.
   */
  lemma {:induction false} ClosedForGood(s: System, actions: seq<Action>, i: nat, c: Closing)
    requires DbOk(s.db) && Possible(s, actions) && i < |s.db.positions| && !s.db.positions[i].status.Open?
    ensures var t := After(s, actions);
            && i < |t.db.positions| && t.db.positions[i] == s.db.positions[i]
            && (c.position.id == s.db.positions[i].id && Known(t.db, c.position) ==> CommitClosing(t.db, c).Err?)
    decreases |actions|
  {
    hide Enabled, Step, Known, RowsOk, FillsUnique, NoStrays, Balanced, CommitClosing, RowOf;
    if actions == [] {
      RowOfDistinct(s.db.positions, i);
      if c.position.id == s.db.positions[i].id && Known(s.db, c.position) {
        TerminalRefusesClose(s.db, c);
      }
    } else {
      StepMovesRows(s, actions[0]);
      StepKeepsDb(s, actions[0]);
      ClosedForGood(Step(s, actions[0]), actions[1..], i, c);
    }
  }

  /** The runner remembers `p`, but its row is closed or liquidated. */
  ghost predicate IsStale(s: System, runner: RunnerId, p: Position) {
    && p.id in BookOf(s, runner) && BookOf(s, runner)[p.id] == p && RowOf(s.db.positions, p.id).Some?
    && !s.db.positions[RowOf(s.db.positions, p.id).value].status.Open?
  }

  /** A close by another runner, or a liquidation, makes the remembered copy stale. */
  lemma ClosedElsewhereIsStale(s: System, a: Action, runner: RunnerId)
    requires RowsDistinct(s.db.positions) && ClosedElsewhere(s, a, runner) && BookKnown(s.db, BookOf(s, runner))
    ensures IsStale(Step(s, a), runner, BookOf(s, runner)[a.position.id])
  {
    hide RowOf, Step, Closes, OpenRows, Known;
    CloseStep(s, a);
    ClosesKind(s, a);
    var rows, later, at := s.db.positions, Step(s, a).db.positions, RowOf(s.db.positions, a.position.id).value;
    var row :| Replaces(rows, later, at, row);
    RowOfReplaced(rows, later, at, row, a.position.id);
    assert BookOf(s, runner)[a.position.id].id == a.position.id;
  }

  /** A stale entry stays until the runner crashes: no later step of anyone removes or changes it. */
  lemma {:induction false} StaleUntilCrash(s: System, actions: seq<Action>, runner: RunnerId, p: Position)
    requires DbOk(s.db) && IsStale(s, runner, p) && Possible(s, actions)
    requires forall i :: 0 <= i < |actions| ==> actions[i] != Crash(runner)
    ensures IsStale(After(s, actions), runner, p)
    decreases |actions|
  {
    hide DbOk, Enabled, Step, IsStale;
    if actions != [] {
      StepKeepsDb(s, actions[0]);
      DistinctRows(s.db);
      StaleStep(s, actions[0], runner, p);
      StaleUntilCrash(Step(s, actions[0]), actions[1..], runner, p);
    }
  }

  lemma StaleStep(s: System, a: Action, runner: RunnerId, p: Position)
    requires RowsDistinct(s.db.positions) && IsStale(s, runner, p) && Enabled(s, a) && a != Crash(runner)
    ensures IsStale(Step(s, a), runner, p)
  {
    hide RowOf, Step, Opens, Closes, OpenRows, Known, Enabled;
    var rows, t := s.db.positions, Step(s, a);
    if Opens(s, a) {
      OpenStep(s, a);
      OpensKind(s, a);
      RowOfAppend(rows, OpeningPosition(a.opening), p.id);
    } else if Closes(s, a) {
      CloseStep(s, a);
      ClosesKind(s, a);
      var at := RowOf(rows, a.position.id).value;
      var row :| Replaces(rows, t.db.positions, at, row);
      RowOfReplaced(rows, t.db.positions, at, row, p.id);
    } else {
      OtherStep(s, a);
      OpenRowsAgree(s.db);
      assert p.id in OpenRows(rows) ==> OpenRow(s.db, p.id, OpenRows(rows)[p.id]);
    }
  }

  // ---------------------------------------------------------------------------
  // Whatever is remembered was read
  // ---------------------------------------------------------------------------

  lemma StepKeepsKnown(s: System, a: Action)
    requires DbOk(s.db) && BooksKnown(s) && Enabled(s, a)
    ensures BooksKnown(Step(s, a))
  {
    hide RowOf, Step, Opens, Closes, OpenRows, Known, Enabled, RowsOk, FillsUnique, NoStrays, Balanced, RowsMove;
    var t := Step(s, a);
    StepMovesRows(s, a);
    StepKeepsDb(s, a);
    forall runner, id | id in BookOf(t, runner) ensures BookOf(t, runner)[id].id == id && Known(t.db, BookOf(t, runner)[id]) {
      if id in BookOf(s, runner) && BookOf(s, runner)[id] == BookOf(t, runner)[id] {
        assert BookKnown(s.db, BookOf(s, runner));
        KnownMoves(s.db, t.db, BookOf(t, runner)[id]);
      } else {
        NewEntryKnown(s, a, runner, id);
      }
    }
  }

  /** An entry that is new in a book is an open row. */
  lemma NewEntryKnown(s: System, a: Action, runner: RunnerId, id: PositionId)
    requires RowsDistinct(s.db.positions) && Enabled(s, a)
    requires id in BookOf(Step(s, a), runner)
    requires !(id in BookOf(s, runner) && BookOf(s, runner)[id] == BookOf(Step(s, a), runner)[id])
    ensures var p := BookOf(Step(s, a), runner)[id]; p.id == id && Known(Step(s, a).db, p)
  {
    hide RowOf, Step, Opens, Closes, OpenRows, Enabled, CommitClosing, ClosingOf, CommitOpening;
    var rows, t := s.db.positions, Step(s, a);
    if Opens(s, a) {
      OpenStep(s, a);
      OpensKind(s, a);
      RowOfAppend(rows, OpeningPosition(a.opening), id);
    } else if Closes(s, a) {
      CloseStep(s, a);
      ClosesKind(s, a);
      assert false;
    } else {
      OtherStep(s, a);
      OpenRowsAgree(s.db);
      assert OpenRow(s.db, id, OpenRows(rows)[id]);
    }
  }

  /** Adding open rows to a book keeps it known. */
  lemma OpenRowKnown(db: Db, id: PositionId, p: Position)
    requires OpenRow(db, id, p)
    ensures p.id == id && Known(db, p)
  {
  }
}
