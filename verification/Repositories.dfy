/** The repositories: statements and transactions on the stored tables, one at a time. */
module Repositories {
  import opened Basics
  import opened Records
  import opened Tables
  import opened Protocol
  import opened Serving

  /** The tables of one aggregate; keys are handed out in increasing order. */
  class Table {
    var rows: map<nat, Row>
    var revisions: map<nat, seq<Revision>>
    var lastId: nat

    constructor ()
      ensures Valid() && View() == Db(map[], map[]) && lastId == 0
    {
      rows, revisions, lastId := map[], map[], 0;
    }

    function View(): Db
      reads this
    {
      Db(rows, revisions)
    }

    ghost predicate Valid()
      reads this
    {
      forall id :: id in rows ==> id <= lastId && rows[id].id == id
    }
  }

  class AuditTable {
    var logs: seq<AuditLog>

    constructor ()
      ensures logs == []
    {
      logs := [];
    }
  }

  /** A statement's result, or a failure when the database cannot be reached. */
  function Reached<T>(up: bool, r: Result<T>): Result<T> {
    if up then r else Err(Unavailable)
  }

  function Lookup(db: Db, id: nat): Result<Row> {
    match Find(db, id) case None => Err(NotFound) case Some(row) => Ok(row)
  }

  /** The generic store of base.go. */
  class Store {
    const table: Table

    constructor (table: Table)
      ensures this.table == table
    {
      this.table := table;
    }

    method Get(id: nat, up: bool) returns (r: Result<Row>)
      ensures r == Reached(up, Lookup(table.View(), id))
      ensures !up ==> r == Err(Unavailable)
      ensures up && id in table.rows && !table.rows[id].deleted ==> r == Ok(table.rows[id])
      ensures up && (id in table.rows ==> table.rows[id].deleted) ==> r == Err(NotFound)
    {
      if !up {
        return Err(Unavailable);
      }
      if id !in table.rows || table.rows[id].deleted {
        return Err(NotFound);
      }
      r := Ok(table.rows[id]);
    }

    method Create(item: Row, up: bool, now: int) returns (r: Result<Row>)
      requires table.Valid()
      modifies table
      ensures table.Valid()
      ensures match Reached(up, InsertRow(old(table.View()), old(table.lastId) + 1, Draft(item, None), now))
              case Ok(db) =>
                table.View() == db && table.lastId == old(table.lastId) + 1 && r == Ok(db.rows[table.lastId])
              case Err(e) => table.View() == old(table.View()) && table.lastId == old(table.lastId) && r == Err(e)
      ensures var taken := exists id :: id in old(table.rows) && old(table.rows)[id].code == item.code;
              var stored := item.(id := old(table.lastId) + 1, createdAt := now, updatedAt := now);
              && r == (if !up then Err(Unavailable) else if taken then Err(Rejected) else Ok(stored))
              && table.rows == (if r.Ok? then old(table.rows)[stored.id := stored] else old(table.rows))
    {
      if !up {
        return Err(Unavailable);
      }
      if exists id :: id in table.rows && table.rows[id].code == item.code {
        return Err(Rejected);
      }
      table.lastId := table.lastId + 1;
      var stored := item.(id := table.lastId, createdAt := now, updatedAt := now);
      table.rows := table.rows[table.lastId := stored];
      r := Ok(stored);
    }

    method Update(id: nat, expected: Uint, item: Row, up: bool, now: int) returns (failed: Option<Error>)
      requires table.Valid()
      modifies table
      ensures table.Valid() && table.lastId == old(table.lastId)
      ensures match Reached(up, CompareAndSet(old(table.View()), id, expected, Draft(item, None), now))
              case Ok(db) => table.View() == db && failed == None
              case Err(e) => table.View() == old(table.View()) && failed == Some(e)
      ensures var hit := && id in old(table.rows) && !old(table.rows)[id].deleted
                         && old(table.rows)[id].version == expected;
              && failed == (if !up then Some(Unavailable) else if !hit then Some(VersionConflict)
                            else if item.version >= 0x8000_0000_0000_0000 then Some(Rejected) else None)
              && (failed == None ==>
                    table.rows == old(table.rows)[id := old(table.rows)[id].(
                      status := item.status, version := item.version, fields := item.fields, updatedAt := now)])
    {
      if !up {
        return Some(Unavailable);
      }
      if id !in table.rows || table.rows[id].deleted || table.rows[id].version != expected {
        return Some(VersionConflict);
      }
      if item.version >= VERSION_LIMIT {
        return Some(Rejected);
      }
      table.rows := table.rows[id := WriteBack(table.rows[id], item, now)];
      failed := None;
    }

    method Delete(id: nat, up: bool) returns (failed: Option<Error>)
      requires table.Valid()
      modifies table
      ensures table.Valid() && table.lastId == old(table.lastId)
      ensures match Reached(up, SoftDelete(old(table.View()), id))
              case Ok(db) => table.View() == db && failed == None
              case Err(e) => table.View() == old(table.View()) && failed == Some(e)
      ensures var live := id in old(table.rows) && !old(table.rows)[id].deleted;
              && failed == (if !up then Some(Unavailable) else if !live then Some(NotFound) else None)
              && (failed == None ==> table.rows == old(table.rows)[id := old(table.rows)[id].(deleted := true)])
    {
      if !up {
        return Some(Unavailable);
      }
      if id !in table.rows || table.rows[id].deleted {
        return Some(NotFound);
      }
      table.rows := table.rows[id := table.rows[id].(deleted := true)];
      failed := None;
    }
  }

  /** Decisions write each row and its revision in one transaction. */
  class DecisionRepository {
    const table: Table
    const store: Store

    constructor (table: Table)
      ensures this.table == table && this.store.table == table
    {
      this.table := table;
      this.store := new Store(table);
    }

    /** Row and revisions, as one call with no other writer in between. */
    method Get(id: nat, up: bool) returns (r: Result<Reply>)
      requires store.table == table
      ensures r == match Reached(up, Lookup(table.View(), id))
                   case Err(e) => Err(e)
                   case Ok(row) => Ok(Reply(row, RevisionsOf(table.View(), id)))
    {
      var found := store.Get(id, up);
      if found.Err? {
        return Err(found.error);
      }
      r := Ok(Reply(found.value, RevisionsOf(table.View(), id)));
    }

    /** INSERT of one revision; `false` when the unique index refuses it. */
    method AppendRevision(revision: Revision) returns (ok: bool)
      modifies table
      ensures table.rows == old(table.rows) && table.lastId == old(table.lastId)
      ensures match InsertRevision(RevisionsOf(old(table.View()), revision.decisionId), revision)
              case Some(list) => ok && table.revisions == old(table.revisions)[revision.decisionId := list]
              case None => !ok && table.revisions == old(table.revisions)
    {
      var inserted := InsertRevision(RevisionsOf(table.View(), revision.decisionId), revision);
      ok := inserted.Some?;
      if ok {
        table.revisions := table.revisions[revision.decisionId := inserted.value];
      }
    }

    method CreateWithRevision(item: Row, revision: Revision, up: bool, now: int) returns (r: Result<Row>)
      requires table.Valid() && store.table == table
      modifies table
      ensures table.Valid()
      ensures match Reached(up, InsertRow(old(table.View()), old(table.lastId) + 1, Draft(item, Some(revision)), now))
              case Ok(db) =>
                table.View() == db && table.lastId == old(table.lastId) + 1 && r == Ok(db.rows[table.lastId])
              case Err(e) => table.View() == old(table.View()) && table.lastId == old(table.lastId) && r == Err(e)
    {
      var rows, lastId := table.rows, table.lastId;
      r := store.Create(item, up, now);
      if r.Ok? {
        var ok := AppendRevision(revision.(decisionId := r.value.id));
        if !ok {
          table.rows, table.lastId := rows, lastId; // rollback
          r := Err(Rejected);
        }
      }
    }

    method UpdateWithRevision(id: nat, expected: Uint, item: Row, revision: Revision, up: bool, now: int)
      returns (failed: Option<Error>)
      requires table.Valid() && store.table == table
      modifies table
      ensures table.Valid() && table.lastId == old(table.lastId)
      ensures match Reached(up, CompareAndSet(old(table.View()), id, expected, Draft(item, Some(revision)), now))
              case Ok(db) => table.View() == db && failed == None
              case Err(e) => table.View() == old(table.View()) && failed == Some(e)
    {
      var rows := table.rows;
      failed := store.Update(id, expected, item, up, now);
      if failed == None {
        var ok := AppendRevision(revision.(decisionId := id));
        if !ok {
          table.rows := rows; // rollback
          failed := Some(Rejected);
        }
      }
    }
  }

  /** The audit part of the security service. */
  class SecurityService {
    const audits: AuditTable

    constructor (audits: AuditTable)
      ensures this.audits == audits
    {
      this.audits := audits;
    }

    /** Stores an audit entry, filling in a missing actor or request id. */
    method Audit(caller: Caller, action: string, entity: string, id: nat, before: string, after: string,
                 detail: string, up: bool, now: int) returns (ok: bool)
      modifies audits
      ensures ok <==> up && action != "" && entity != ""
      ensures audits.logs == old(audits.logs) +
                (if ok then [AuditEntry(caller, action, entity, id, before, after, detail, now)] else [])
      ensures ok ==>
                var a := audits.logs[|old(audits.logs)|];
                && a.actor == (if caller.actor == "" then "system" else caller.actor)
                && a.requestID == (if caller.requestID == "" then "untracked" else caller.requestID)
                && a.action == action && a.entityType == entity && a.entityID == id
                && a.before == before && a.after == after && a.detail == detail && a.createdAt == now
    {
      var actor, requestID := caller.actor, caller.requestID;
      if actor == "" {
        actor := "system";
      }
      if requestID == "" {
        requestID := "untracked";
      }
      if action == "" || entity == "" || !up {
        return false;
      }
      audits.logs := audits.logs + [AuditLog(requestID, actor, action, entity, id, before, after, detail, now)];
      ok := true;
    }
  }
}
