/** The database of one aggregate, as the value that each transaction turns into the next.
    Assumptions: a transaction is atomic and leaves nothing behind when it fails; a conditional
    UPDATE tests and writes in one step and sees live rows only; soft deletion keeps the row, its
    code and its revisions; `code` is unique over all rows and (decision, version) over revisions. */
module Tables {
  import opened Basics
  import opened Records

  /** Revisions are kept per decision in version order, the order in which they are served. */
  datatype Db = Db(rows: map<nat, Row>, revisions: map<nat, seq<Revision>>)

  /** Each row has its key. */
  predicate Keyed(rows: map<nat, Row>) {
    forall id :: id in rows ==> rows[id].id == id
  }

  function Find(db: Db, id: nat): Option<Row> {
    if id in db.rows && !db.rows[id].deleted then Some(db.rows[id]) else None
  }

  function RevisionsOf(db: Db, id: nat): seq<Revision> {
    if id in db.revisions then db.revisions[id] else []
  }

  /** Insertion under the unique index: `None` when the version is taken. */
  function InsertRevision(list: seq<Revision>, rev: Revision): Option<seq<Revision>> {
    if list == [] || list[|list| - 1].version < rev.version then Some(list + [rev])
    else if list[|list| - 1].version == rev.version then None
    else
      match InsertRevision(list[..|list| - 1], rev)
      case None => None
      case Some(front) => Some(front + [list[|list| - 1]])
  }

  function AddRevision(db: Db, id: nat, revision: Option<Revision>): Option<Db> {
    match revision
    case None => Some(db)
    case Some(rev) =>
      match InsertRevision(RevisionsOf(db, id), rev.(decisionId := id))
      case None => None
      case Some(list) => Some(db.(revisions := db.revisions[id := list]))
  }

  predicate CodeTaken(db: Db, code: string) {
    exists id :: id in db.rows && db.rows[id].code == code
  }

  /** INSERT of a row under a fresh id together with its first revision. */
  function InsertRow(db: Db, id: nat, draft: Draft, now: int): Result<Db> {
    if id in db.rows || CodeTaken(db, draft.item.code) then Err(Rejected)
    else
      var row := draft.item.(id := id, createdAt := now, updatedAt := now);
      match AddRevision(db.(rows := db.rows[id := row]), id, draft.revision)
      case None => Err(Rejected)
      case Some(after) => Ok(after)
  }

  lemma RowInserted(db: Db, id: nat, item: Row, now: int)
    requires id !in db.rows && !CodeTaken(db, item.code)
    ensures InsertRow(db, id, Draft(item, None), now) ==
            Ok(Db(db.rows[id := item.(id := id, createdAt := now, updatedAt := now)], db.revisions))
  {
  }

  /** The columns an UPDATE writes; id, code, creation, deletion and preparer stay as stored. */
  function WriteBack(stored: Row, item: Row, now: int): Row {
    stored.(status := item.status, version := item.version, fields := item.fields, updatedAt := now)
  }

  /** UPDATE ... WHERE id AND version, together with the revision of the new version. */
  function CompareAndSet(db: Db, id: nat, expected: Uint, draft: Draft, now: int): Result<Db> {
    if Find(db, id).None? || db.rows[id].version != expected then Err(VersionConflict)
    else if draft.item.version >= VERSION_LIMIT then Err(Rejected)
    else
      var row := WriteBack(db.rows[id], draft.item, now);
      match AddRevision(db.(rows := db.rows[id := row]), id, draft.revision)
      case None => Err(Rejected)
      case Some(after) => Ok(after)
  }

  function SoftDelete(db: Db, id: nat): Result<Db> {
    if Find(db, id).None? then Err(NotFound)
    else Ok(db.(rows := db.rows[id := db.rows[id].(deleted := true)]))
  }

  /** In version order, so each version at most once. */
  predicate Ordered(list: seq<Revision>) {
    forall i, j :: 0 <= i < j < |list| ==> list[i].version < list[j].version
  }

  predicate Taken(list: seq<Revision>, version: nat) {
    exists i :: 0 <= i < |list| && list[i].version == version
  }

  /** Insertion refuses exactly the versions already taken, adds nothing but the revision, and keeps
      the list in version order. */
  lemma {:induction false} InsertRevisionKeepsIndex(list: seq<Revision>, rev: Revision)
    requires Ordered(list)
    ensures InsertRevision(list, rev).None? <==> Taken(list, rev.version)
    ensures InsertRevision(list, rev).Some? ==>
              var after := InsertRevision(list, rev).value;
              Ordered(after) && multiset(after) == multiset(list) + multiset{rev}
  {
    if list != [] && list[|list| - 1].version >= rev.version {
      var front, last := list[..|list| - 1], list[|list| - 1];
      assert list == front + [last];
      if rev.version < last.version {
        InsertRevisionKeepsIndex(front, rev);
        TakenBelow(front, last, rev.version);
        if InsertRevision(front, rev).Some? {
          InsertedBefore(InsertRevision(front, rev).value, front, rev, last);
        }
      }
    }
  }

  lemma InsertedBefore(mid: seq<Revision>, front: seq<Revision>, rev: Revision, last: Revision)
    requires Ordered(front + [last]) && Ordered(mid) && multiset(mid) == multiset(front) + multiset{rev}
    requires rev.version < last.version
    ensures Ordered(mid + [last]) && multiset(mid + [last]) == multiset(front + [last]) + multiset{rev}
  {
    forall i | 0 <= i < |front| ensures front[i].version < last.version {
      assert (front + [last])[i] == front[i] && (front + [last])[|front|] == last;
    }
    AllBelow(mid, front, rev, last.version);
  }

  lemma TakenBelow(front: seq<Revision>, last: Revision, version: nat)
    requires version < last.version
    ensures Taken(front + [last], version) <==> Taken(front, version)
  {
    if i :| 0 <= i < |front| && front[i].version == version {
      assert (front + [last])[i].version == version;
    }
  }

  lemma AllBelow(mid: seq<Revision>, front: seq<Revision>, rev: Revision, bound: nat)
    requires multiset(mid) == multiset(front) + multiset{rev} && rev.version < bound
    requires forall i :: 0 <= i < |front| ==> front[i].version < bound
    ensures forall i :: 0 <= i < |mid| ==> mid[i].version < bound
  {
    forall i | 0 <= i < |mid| ensures mid[i].version < bound {
      assert mid[i] in multiset(mid);
      assert mid[i] in multiset(front) || mid[i] == rev;
      assert mid[i] in multiset(front) ==> mid[i] in front;
    }
  }
}
