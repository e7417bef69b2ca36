/**
 The command table of `paper_trading/repository.py`: idempotent submission, and the
 claim, settle and requeue writes of the runners.  Each function below is one committed
 statement of the database; the class issues them the way the repository's methods do.
 */
module Commands {
  import opened Wrappers

  type CommandId = int
  type OwnerId = int
  type Payload = map<string, string>

  datatype Status = Accepted | Processing | Completed | Failed | Conflict

  predicate Terminal(s: Status) { s in {Completed, Failed, Conflict} }

  /** The request hash is injective, so the row carries the request itself. */
  datatype Command = Command(
    owner: OwnerId, key: string, kind: string, day: Option<string>, request: Payload, expectedRevision: Option<int>,
    status: Status, result: Option<Payload>, error: Option<string>, updatedAt: int)

  type Table = map<CommandId, Command>

  predicate Owns(c: Command, owner: OwnerId, key: string) { c.owner == owner && c.key == key }

  /** The database's unique key on owner and idempotency key. */
  ghost predicate KeysUnique(t: Table) {
    forall a, b :: a in t && b in t && Owns(t[b], t[a].owner, t[a].key) ==> a == b
  }

  ghost predicate KeyFree(t: Table, owner: OwnerId, key: string) {
    forall id :: id in t ==> !Owns(t[id], owner, key)
  }

  function NewCommand(owner: OwnerId, key: string, kind: string, day: Option<string>, request: Payload, revision: Option<int>,
                      now: int): Command
  {
    Command(owner, key, kind, day, request, revision, Accepted, if request == map[] then None else Some(request), None, now)
  }

  /** Inserts a row, unless a primary or unique key is taken: then the statement raises and nothing changes. */
  ghost function Inserted(t: Table, id: CommandId, c: Command): Table {
    if id in t || !KeyFree(t, c.owner, c.key) then t else t[id := c]
  }

  /** The separately committed stamp of a conflicting submission, whatever the status was. */
  function Stamped(t: Table, id: CommandId, now: int): Table {
    if id in t then t[id := t[id].(status := Conflict, updatedAt := now)] else t
  }

  function Claimed(t: Table, id: CommandId, now: int): Table {
    if id in t && t[id].status == Accepted then t[id := t[id].(status := Processing, updatedAt := now)] else t
  }

  function Settled(t: Table, id: CommandId, result: Option<Payload>, now: int): Table {
    if id in t && t[id].status == Processing then
      t[id := t[id].(status := Completed, result := if result.Some? && result.value != map[] then result else t[id].result,
                     updatedAt := now)]
    else t
  }

  /** A handler's own outcome, written without looking at the status. */
  function Recorded(t: Table, id: CommandId, status: Status, result: Option<Payload>, error: Option<string>,
                    now: int): Table {
    if id in t then
      t[id := t[id].(status := status, result := if result.Some? && result.value != map[] then result else None,
                     error := error, updatedAt := now)]
    else t
  }

  function Requeued(t: Table, id: CommandId, error: Option<string>, now: int): Table {
    if id in t && t[id].status == Processing then t[id := t[id].(status := Accepted, error := error, updatedAt := now)] else t
  }

  predicate Stale(c: Command, now: int, maxAge: int) { c.status == Processing && c.updatedAt < now - maxAge }

  function StaleRequeued(t: Table, now: int, maxAge: int): Table {
    map id | id in t :: if Stale(t[id], now, maxAge) then t[id].(status := Accepted, updatedAt := now) else t[id]
  }

  /** The rows stand for the same request. */
  ghost predicate SameIdentity(a: Command, b: Command) {
    && a.owner == b.owner && a.key == b.key && a.kind == b.kind && a.day == b.day
    && a.request == b.request && a.expectedRevision == b.expectedRevision
  }

  datatype Submission = Fresh(command: Command) | Replayed(id: CommandId, command: Command) | Raised(reason: string)

  class CommandTable {
    var rows: Table

    ghost predicate Valid()
      reads this
    {
      KeysUnique(rows)
    }

    constructor ()
      ensures Valid() && rows == map[]
    {
      rows := map[];
    }

    /** The row holding an owner's key, if there is one. */
    method Find(owner: OwnerId, key: string) returns (r: Option<CommandId>)
      requires Valid()
      ensures r.Some? ==> r.value in rows && Owns(rows[r.value], owner, key)
      ensures r.None? ==> KeyFree(rows, owner, key)
    {
      if id :| id in rows && Owns(rows[id], owner, key) {
        return Some(id);
      }
      return None;
    }

    /**
     Same key and request: the existing command, nothing written.  Same key, other request: the
     existing command becomes a conflict.  New key: accepted, unless the id itself is taken.
     */
    method SubmitCommand(id: CommandId, owner: OwnerId, key: string, kind: string, day: Option<string>, request: Payload,
                         revision: Option<int>, now: int) returns (r: Submission)
      requires Valid()
      modifies this
      ensures Valid()
      ensures r.Replayed? ==> r.id in rows && rows == old(rows) && r.command == rows[r.id]
                              && Owns(r.command, owner, key) && r.command.request == request
      ensures r.Fresh? ==> KeyFree(old(rows), owner, key) && id !in old(rows)
                           && rows == old(rows)[id := NewCommand(owner, key, kind, day, request, revision, now)]
      ensures r.Fresh? ==>
                && r.command == rows[id] && Owns(r.command, owner, key) && r.command.status == Accepted
                && r.command.kind == kind && r.command.day == day && r.command.request == request
                && r.command.expectedRevision == revision && r.command.updatedAt == now && r.command.error == None
      ensures KeyFree(old(rows), owner, key) ==> (r.Fresh? <==> id !in old(rows))
      ensures (exists holder :: holder in old(rows) && Owns(old(rows)[holder], owner, key)
                                && old(rows)[holder].request == request) ==> r.Replayed?
      ensures r.Raised? ==>
                || (id in old(rows) && KeyFree(old(rows), owner, key) && rows == old(rows))
                || exists holder :: holder in old(rows) && Owns(old(rows)[holder], owner, key)
                                    && old(rows)[holder].request != request && rows == Stamped(old(rows), holder, now)
    {
      var existing := Find(owner, key);
      if existing.Some? {
        var holder := existing.value;
        if rows[holder].request != request {
          rows := Stamped(rows, holder, now);
          return Raised("idempotency key used with a different payload");
        }
        return Replayed(holder, rows[holder]);
      }
      if id in rows {
        return Raised("duplicate command id");
      }
      var c := NewCommand(owner, key, kind, day, request, revision, now);
      rows := rows[id := c];
      return Fresh(c);
    }

    method ClaimCommand(id: CommandId, now: int) returns (r: Option<Command>)
      requires Valid()
      modifies this
      ensures Valid() && rows == Claimed(old(rows), id, now)
      ensures r.Some? <==> id in old(rows) && old(rows)[id].status == Accepted
      ensures r.Some? ==> r.value == rows[id] && r.value == old(rows)[id].(status := Processing, updatedAt := now)
      ensures rows.Keys == old(rows).Keys && forall c :: c in rows && (c != id || r.None?) ==> rows[c] == old(rows)[c]
    {
      if id !in rows || rows[id].status != Accepted {
        return None;
      }
      rows := rows[id := rows[id].(status := Processing, updatedAt := now)];
      return Some(rows[id]);
    }

    /** True exactly when the command is terminal afterwards. */
    method CompleteCommand(id: CommandId, result: Option<Payload>, now: int) returns (settled: bool)
      requires Valid()
      modifies this
      ensures Valid() && rows == Settled(old(rows), id, result, now)
      ensures settled <==> id in rows && Terminal(rows[id].status)
      ensures id in old(rows) && old(rows)[id].status == Processing ==>
                && rows[id].status == Completed && SameIdentity(old(rows)[id], rows[id]) && rows[id].updatedAt == now
                && rows[id].error == old(rows)[id].error
                && rows[id].result == if result.Some? && result.value != map[] then result else old(rows)[id].result
      ensures rows.Keys == old(rows).Keys
      ensures forall c :: c in rows && (c != id || old(rows)[id].status != Processing) ==> rows[c] == old(rows)[c]
    {
      if id in rows && rows[id].status == Processing {
        var c := rows[id];
        var kept := if result.Some? && result.value != map[] then result else c.result;
        rows := rows[id := c.(status := Completed, result := kept, updatedAt := now)];
        return true;
      }
      return id in rows && rows[id].status in {Completed, Failed, Conflict};
    }

    method UpdateCommandResult(id: CommandId, status: Status, result: Option<Payload>, error: Option<string>, now: int)
      returns (found: bool)
      requires Valid()
      modifies this
      ensures Valid() && rows == Recorded(old(rows), id, status, result, error, now)
      ensures found <==> id in old(rows)
      ensures found ==> id in rows && SameIdentity(old(rows)[id], rows[id])
      ensures found ==> rows[id].status == status && rows[id].error == error
      ensures found ==> rows[id].result == (if result == Some(map[]) then None else result) && rows[id].updatedAt == now
      ensures rows.Keys == old(rows).Keys && forall c :: c in rows && c != id ==> rows[c] == old(rows)[c]
    {
      if id !in rows {
        return false;
      }
      var stored := if result.Some? && result.value != map[] then result else None;
      rows := rows[id := rows[id].(status := status, result := stored, error := error, updatedAt := now)];
      return true;
    }

    method RequeueCommand(id: CommandId, error: Option<string>, now: int) returns (released: bool)
      requires Valid()
      modifies this
      ensures Valid() && rows == Requeued(old(rows), id, error, now)
      ensures released <==> id in old(rows) && old(rows)[id].status == Processing
      ensures released ==> rows[id] == old(rows)[id].(status := Accepted, error := error, updatedAt := now)
      ensures rows.Keys == old(rows).Keys && forall c :: c in rows && (c != id || !released) ==> rows[c] == old(rows)[c]
    {
      if id !in rows || rows[id].status != Processing {
        return false;
      }
      rows := rows[id := rows[id].(status := Accepted, error := error, updatedAt := now)];
      return true;
    }

    method RequeueStaleProcessing(now: int, maxAge: int) returns (requeued: nat)
      requires Valid()
      modifies this
      ensures Valid() && rows == StaleRequeued(old(rows), now, maxAge)
      ensures requeued == |set id | id in old(rows) && Stale(old(rows)[id], now, maxAge)|
      ensures rows.Keys == old(rows).Keys && forall c :: c in rows ==> !Stale(rows[c], now, maxAge)
      ensures forall c :: c in rows ==>
                if old(rows)[c].status == Processing && old(rows)[c].updatedAt + maxAge < now then
                  rows[c] == old(rows)[c].(status := Accepted, updatedAt := now)
                else rows[c] == old(rows)[c]
    {
      requeued := |set id | id in rows && Stale(rows[id], now, maxAge)|;
      rows := map id | id in rows ::
        if Stale(rows[id], now, maxAge) then rows[id].(status := Accepted, updatedAt := now) else rows[id];
    }
  }
}
