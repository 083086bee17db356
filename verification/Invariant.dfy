/** What every interleaving keeps, whatever ExpectedVersion the clients send. */
module Invariant {
  import opened Basics
  import opened Statuses
  import opened Records
  import opened Tables
  import opened Protocol

  /** `row` is what its record held at `row.version`. */
  ghost predicate Past(s: State, row: Row) {
    && row.id in s.hist
    && 1 <= row.version <= |s.hist[row.id]|
    && s.hist[row.id][row.version - 1].row == row
  }

  ghost predicate MayEdit(p: Policy, basis: Row, caller: Caller) {
    p.reviewed ==> basis.status == p.initial && (caller.actor == basis.preparedBy || caller.role == ADMIN)
  }

  ghost predicate MayMove(p: Policy, basis: Row, to: string, caller: Caller) {
    && CanTransition(p.graph, basis.status, to)
    && (p.reviewed ==> (caller.role == REVIEWER || caller.role == ADMIN) && caller.actor != basis.preparedBy)
  }

  /** A commit follows from the row its checks were made on. */
  ghost predicate Granted(p: Policy, e: Entry) {
    match e.act
    case Created => false
    case Edited =>
      e.row.status == e.basis.status && p.valid(e.row.code, e.row.fields) && MayEdit(p, e.basis, e.caller)
    case Moved => e.row.fields == e.basis.fields && MayMove(p, e.basis, e.row.status, e.caller)
  }

  ghost predicate Origin(p: Policy, e: Entry) {
    && e.act.Created? && p.valid(e.row.code, e.row.fields)
    && (e.task.Some? ==> e.row.status == p.initial)
    && (p.reviewed ==> e.row.status == p.initial && e.row.preparedBy == e.caller.actor)
  }

  /** Commit `k` stored version `k + 1`; its checks were made on that or an earlier version. */
  ghost predicate EntryOk(p: Policy, id: nat, h: seq<Entry>, k: nat)
    requires k < |h|
  {
    var e := h[k];
    && e.row.id == id && e.row.version == k + 1 && !e.row.deleted
    && e.row.code == h[0].row.code && e.row.preparedBy == h[0].row.preparedBy
    && e.row.createdAt == h[0].row.createdAt
    && (k == 0 ==> Origin(p, e))
    && (k > 0 ==> 1 <= e.basis.version <= k && e.basis == h[e.basis.version - 1].row && Granted(p, e))
  }

  ghost predicate Chronicle(p: Policy, id: nat, row: Row, h: seq<Entry>) {
    && |h| == row.version && 1 <= row.version < VERSION_LIMIT
    && h[|h| - 1].row == row.(deleted := false)
    && forall k {:trigger EntryOk(p, id, h, k)} :: 0 <= k < |h| ==> EntryOk(p, id, h, k)
  }

  /** Equal up to timestamps, and up to the id when that was not assigned yet. */
  ghost predicate SameDecision(taken: Row, row: Row) {
    && taken.(id := row.id, createdAt := row.createdAt, updatedAt := row.updatedAt) == row
    && (taken.id == row.id || row.version == 1)
  }

  ghost predicate Mirrors(rev: Revision, e: Entry) {
    && rev.decisionId == e.row.id && rev.version == e.row.version
    && rev.status == e.row.status && rev.evidence == e.row.fields.evidence
    && rev.actor == e.caller.actor && rev.requestID == e.caller.requestID
    && (e.task.Some? ==> rev.snapshot.Full?)
    && match rev.snapshot
       case Full(taken) => SameDecision(taken, e.row)
       case Brief(code, status, evidence) =>
         code == e.row.code && status == e.row.status && evidence == e.row.fields.evidence
  }

  ghost predicate MirrorAt(revs: seq<Revision>, h: seq<Entry>, k: nat) {
    k < |revs| && k < |h| && Mirrors(revs[k], h[k])
  }

  ghost predicate MirrorsUpTo(revs: seq<Revision>, h: seq<Entry>, n: nat) {
    forall k {:trigger MirrorAt(revs, h, k)} :: 0 <= k < n ==> MirrorAt(revs, h, k)
  }

  /** The revisions are the history, one for one. */
  ghost predicate Mirrored(revs: seq<Revision>, h: seq<Entry>) {
    |revs| == |h| && MirrorsUpTo(revs, h, |h|)
  }

  ghost predicate RecordOk(p: Policy, db: Db, hist: map<nat, seq<Entry>>, id: nat)
    requires id in db.rows && id in hist
  {
    && Chronicle(p, id, db.rows[id], hist[id])
    && (p.reviewed ==> Mirrored(RevisionsOf(db, id), hist[id]))
  }

  ghost predicate Distinct(db: Db, i: nat, j: nat) {
    i in db.rows && j in db.rows && db.rows[i].code == db.rows[j].code ==> i == j
  }

  ghost predicate CodesUnique(db: Db) {
    forall i, j {:trigger Distinct(db, i, j)} :: Distinct(db, i, j)
  }

  ghost predicate RecordsOk(p: Policy, db: Db, hist: map<nat, seq<Entry>>) {
    && hist.Keys == db.rows.Keys
    && db.revisions.Keys <= (if p.reviewed then db.rows.Keys else {})
    && CodesUnique(db)
    && forall id {:trigger RecordOk(p, db, hist, id)} :: id in db.rows ==> RecordOk(p, db, hist, id)
  }

  /** The entry that a change's commit left behind. */
  ghost predicate Recorded(s: State, t: nat, row: Row) {
    Past(s, row) && s.hist[row.id][row.version - 1].task == Some(t)
  }

  ghost predicate WroteOk(p: Policy, s: State, t: nat, task: Task)
    requires task.wrote.Some?
  {
    var row := task.wrote.value;
    match task.req.op
    case Create(_, _) => 
      && row.version == 1 && row.status == p.initial && Recorded(s, t, row)
      && s.hist[row.id][0].caller == task.req.caller && s.hist[row.id][0].act.Created?
    case Delete =>
      && task.seen.Some? && row.id == task.req.id && row.deleted
      && row.id in s.db.rows && s.db.rows[row.id] == row
    case _ =>
      && task.seen.Some? && row.id == task.req.id && Recorded(s, t, row)
      && row.version == task.req.op.expected + 1 >= 2
      && var e := s.hist[row.id][row.version - 1];
         && e.basis == task.seen.value && e.caller == task.req.caller
         && e.act == (if task.req.op.Update? then Edited else Moved)
         && (task.req.op.Transition? ==> row.status == task.req.op.target)
         && (task.req.op.Update? ==> row.status == task.seen.value.status)
  }

  function NoteOf(p: Policy, op: Op): string {
    match op
    case Create(_, _) => p.texts.firstNote
    case Update(_, _) => p.texts.editNote
    case Transition(_, _, _, note) => note
    case Delete => ""
  }

  /** The commit of version `row.version` stored the content that `req` asked for, and its note. */
  ghost predicate Holds(p: Policy, db: Db, req: Request, row: Row) {
    && (req.op.Create? ==>
          row.code == req.op.code && row.preparedBy == if p.reviewed then req.caller.actor else "")
    && (req.op.Create? || req.op.Update? ==> row.fields == req.op.fields)
    && (p.reviewed && !req.op.Delete? ==>
          && 1 <= row.version <= |RevisionsOf(db, row.id)|
          && RevisionsOf(db, row.id)[row.version - 1].reason == NoteOf(p, req.op))
  }

  /** A served decision: its revisions start at version 1, have no gap and reach its version. */
  ghost predicate Served(s: State, row: Row, revs: seq<Revision>) {
    && Past(s, row)
    && row.version <= |revs| <= |s.hist[row.id]|
    && MirrorsUpTo(revs, s.hist[row.id], |revs|)
    && revs <= RevisionsOf(s.db, row.id)
  }

  ghost predicate SeenOk(p: Policy, s: State, task: Task) {
    task.seen.Some? ==>
      && !task.req.op.Create? && task.seen.value.id == task.req.id
      && Past(s, task.seen.value) && Prepare(p, task.seen.value, task.req, task.at).Ok?
  }

  /** A row read back after the request's own commit. */
  ghost predicate ReadBack(s: State, task: Task, row: Row) {
    && task.wrote.Some? && !task.req.op.Delete?
    && Past(s, row) && row.id == task.wrote.value.id && row.version >= task.wrote.value.version
  }

  ghost predicate PcOk(p: Policy, s: State, task: Task) {
    match task.pc
    case Arrived => task.seen.None? && task.wrote.None?
    case Prepared => task.seen.Some? && task.wrote.None?
    case Written => task.wrote.Some?
    case Audited => task.wrote.Some? && !task.req.op.Delete?
    case RowRead(row) => p.reviewed && ReadBack(s, task, row)
    case Done(row, revs) => ReadBack(s, task, row) && (p.reviewed ==> Served(s, row, revs))
    case Closed => task.wrote.Some?
    case Failed(_) => true
  }

  ghost predicate TaskOk(p: Policy, s: State, t: nat) {
    && t in s.tasks
    && SeenOk(p, s, s.tasks[t])
    && (s.tasks[t].wrote.Some? ==>
          WroteOk(p, s, t, s.tasks[t]) && Holds(p, s.db, s.tasks[t].req, s.tasks[t].wrote.value))
    && PcOk(p, s, s.tasks[t])
  }

  ghost predicate TasksOk(p: Policy, s: State) {
    forall t {:trigger TaskOk(p, s, t)} :: t in s.tasks ==> TaskOk(p, s, t)
  }

  ghost predicate AuditOk(p: Policy, s: State, i: nat)
    requires i < |s.audits| == |s.auditors|
  {
    var t := s.auditors[i];
    && t in s.tasks && s.tasks[t].wrote.Some? && !s.tasks[t].pc.Written?
    && s.audits[i] == AuditFor(p, s.tasks[t].req, s.tasks[t].seen, s.tasks[t].wrote.value, s.audits[i].createdAt)
  }

  ghost predicate AuditsOk(p: Policy, s: State) {
    && |s.audits| == |s.auditors|
    && (forall i {:trigger AuditOk(p, s, i)} :: 0 <= i < |s.audits| ==> AuditOk(p, s, i))
    && (forall i, j :: 0 <= i < j < |s.auditors| ==> s.auditors[i] != s.auditors[j])
  }

  ghost predicate Inv(p: Policy, s: State) {
    RecordsOk(p, s.db, s.hist) && TasksOk(p, s) && AuditsOk(p, s)
  }

  /** A database at rest, together with the history that led to it. */
  ghost predicate Start(p: Policy, s: State) {
    && RecordsOk(p, s.db, s.hist)
    && s.tasks == map[] && s.audits == [] && s.auditors == [] && s.log == []
  }

  // ---- what a step leaves alone ----

  /** Histories and revisions are append-only, and a deleted row never changes again. */
  ghost predicate GrowsAt(s: State, s': State, id: nat) {
    && (id in s.hist ==> id in s'.hist && s.hist[id] <= s'.hist[id])
    && RevisionsOf(s.db, id) <= RevisionsOf(s'.db, id)
    && (id in s.db.rows && s.db.rows[id].deleted ==> id in s'.db.rows && s'.db.rows[id] == s.db.rows[id])
  }

  ghost predicate Grows(s: State, s': State) {
    forall id {:trigger GrowsAt(s, s', id)} :: GrowsAt(s, s', id)
  }

  lemma PastStays(s: State, s': State, row: Row)
    requires Grows(s, s') && Past(s, row)
    ensures Past(s', row) && s'.hist[row.id][row.version - 1] == s.hist[row.id][row.version - 1]
  {
    assert GrowsAt(s, s', row.id);
  }

  lemma ServedStays(s: State, s': State, row: Row, revs: seq<Revision>)
    requires Grows(s, s') && Served(s, row, revs)
    ensures Served(s', row, revs)
  {
    PastStays(s, s', row);
    assert GrowsAt(s, s', row.id);
    var h, h' := s.hist[row.id], s'.hist[row.id];
    forall k | 0 <= k < |revs| ensures MirrorAt(revs, h', k) {
      assert MirrorAt(revs, h, k) && h'[k] == h[k];
    }
  }

  lemma TaskStays(p: Policy, s: State, s': State, t: nat)
    requires Grows(s, s') && TaskOk(p, s, t) && t in s'.tasks && s'.tasks[t] == s.tasks[t]
    ensures TaskOk(p, s', t)
  {
    var task := s.tasks[t];
    if task.seen.Some? { PastStays(s, s', task.seen.value); }
    if task.wrote.Some? {
      assert GrowsAt(s, s', task.wrote.value.id);
    }
    if task.pc.RowRead? { PastStays(s, s', task.pc.row); }
    if task.pc.Done? {
      PastStays(s, s', task.pc.result);
      if p.reviewed { ServedStays(s, s', task.pc.result, task.pc.revisions); }
    }
  }

  lemma TasksStay(p: Policy, s: State, s': State, t: nat)
    requires TasksOk(p, s) && Grows(s, s') && TaskOk(p, s', t)
    requires s'.tasks.Keys == s.tasks.Keys + {t}
    requires forall u :: u in s.tasks && u != t ==> s'.tasks[u] == s.tasks[u]
    ensures TasksOk(p, s')
  {
    forall u | u in s'.tasks ensures TaskOk(p, s', u) {
      if u != t {
        assert TaskOk(p, s, u);
        TaskStays(p, s, s', u);
      }
    }
  }

  lemma AuditsStay(p: Policy, s: State, s': State, t: nat)
    requires AuditsOk(p, s) && s'.audits == s.audits && s'.auditors == s.auditors
    requires forall u :: u in s.tasks && u != t ==> u in s'.tasks && s'.tasks[u] == s.tasks[u]
    requires t in s.tasks && s.tasks[t].wrote.Some? && !s.tasks[t].pc.Written? ==>
               && t in s'.tasks && s'.tasks[t].req == s.tasks[t].req && s'.tasks[t].seen == s.tasks[t].seen
               && s'.tasks[t].wrote == s.tasks[t].wrote && !s'.tasks[t].pc.Written?
    ensures AuditsOk(p, s')
  {
    forall i | 0 <= i < |s.audits| ensures AuditOk(p, s', i) {
      assert AuditOk(p, s, i);
    }
  }

  // ---- one lemma for each write ----

  lemma InsertAtEnd(list: seq<Revision>, rev: Revision)
    requires list == [] || list[|list| - 1].version < rev.version
    ensures InsertRevision(list, rev) == Some(list + [rev])
  {
  }

  lemma InsertKeepsRecords(p: Policy, s: State, t: nat, id: nat, at: int, now: int)
    requires RecordsOk(p, s.db, s.hist) && t in s.tasks && s.tasks[t].req.op.Create?
    ensures var s' := DoInsert(p, s, t, id, at, now);
            RecordsOk(p, s'.db, s'.hist) && Grows(s, s')
  {
    var task := s.tasks[t];
    var s' := DoInsert(p, s, t, id, at, now);
    var made := PrepareCreate(p, task.req.op.code, task.req.op.fields, task.req.caller, at);
    if made.Ok? && InsertRow(s.db, id, made.value, now).Ok? {
      assert RevisionsOf(s.db, id) == [];
      assert EntryOk(p, id, s'.hist[id], 0);
      forall u | u in s'.db.rows ensures RecordOk(p, s'.db, s'.hist, u) {
        if u != id {
          assert RecordOk(p, s.db, s.hist, u);
          assert RevisionsOf(s'.db, u) == RevisionsOf(s.db, u);
        }
      }
      forall i, j ensures Distinct(s'.db, i, j) {
        assert Distinct(s.db, i, j);
      }
    }
    forall u ensures GrowsAt(s, s', u) {}
  }

  /** What the compare-and-set of a prepared change will write. */
  ghost function DraftOf(p: Policy, task: Task): Draft
    requires SeenAndReady(p, task)
  {
    Prepare(p, task.seen.value, task.req, task.at).value
  }

  ghost predicate SeenAndReady(p: Policy, task: Task) {
    && task.req.IsChange() && task.seen.Some?
    && Prepare(p, task.seen.value, task.req, task.at).Ok?
  }

  /** The compare-and-set of task `t` would succeed now. */
  ghost predicate Hits(p: Policy, s: State, t: nat) {
    && t in s.tasks && s.tasks[t].pc.Prepared? && s.tasks[t].req.IsChange()
    && Find(s.db, s.tasks[t].req.id).Some?
    && s.db.rows[s.tasks[t].req.id].version == s.tasks[t].req.op.expected
    && NextVersion(s.tasks[t].req.op.expected) < VERSION_LIMIT
  }

  /** The revision that a hit adds is the next in line, so the unique index cannot object. */
  lemma NextRevisionFits(p: Policy, s: State, t: nat)
    requires p.reviewed && RecordsOk(p, s.db, s.hist) && Hits(p, s, t) && SeenAndReady(p, s.tasks[t])
    ensures var task := s.tasks[t];
            var rev := DraftOf(p, task).revision.value.(decisionId := task.req.id);
            var revs := RevisionsOf(s.db, task.req.id);
            InsertRevision(revs, rev) == Some(revs + [rev])
  {
    var id := s.tasks[t].req.id;
    var revs, h := RevisionsOf(s.db, id), s.hist[id];
    assert RecordOk(p, s.db, s.hist, id);
    assert MirrorAt(revs, h, |h| - 1);
    InsertAtEnd(revs, DraftOf(p, s.tasks[t]).revision.value.(decisionId := id));
  }

  /** A change commits exactly when it hits a live row at its expected version. */
  lemma ChangeAppends(p: Policy, s: State, t: nat, now: int)
    requires RecordsOk(p, s.db, s.hist) && t in s.tasks && s.tasks[t].pc.Prepared? && SeenAndReady(p, s.tasks[t])
    ensures var task := s.tasks[t];
            var id, draft := task.req.id, DraftOf(p, task);
            var r := CompareAndSet(s.db, id, task.req.op.expected, draft, now);
            && (r.Ok? <==> Hits(p, s, t))
            && (r.Ok? ==>
                  && r.value.rows == s.db.rows[id := WriteBack(s.db.rows[id], draft.item, now)]
                  && RevisionsOf(r.value, id) == RevisionsOf(s.db, id) +
                       (if p.reviewed then [draft.revision.value.(decisionId := id)] else [])
                  && (forall u :: u != id ==> RevisionsOf(r.value, u) == RevisionsOf(s.db, u))
                  && r.value.revisions.Keys <= (if p.reviewed then s.db.rows.Keys else {}))
  {
    if p.reviewed && Hits(p, s, t) {
      NextRevisionFits(p, s, t);
    }
  }

  lemma ChangedEntryOk(p: Policy, s: State, t: nat, now: int)
    requires RecordsOk(p, s.db, s.hist) && TaskOk(p, s, t) && Hits(p, s, t) && SeenAndReady(p, s.tasks[t])
    ensures var id := s.tasks[t].req.id;
            var s' := DoChange(p, s, t, now);
            && id in s.hist && id in s'.hist && id in s'.db.rows
            && |s'.hist[id]| == |s.hist[id]| + 1 == s'.db.rows[id].version
            && s'.db.rows[id].version == s.tasks[t].req.op.expected + 1
            && s'.hist[id][..|s.hist[id]|] == s.hist[id]
            && EntryOk(p, id, s'.hist[id], |s.hist[id]|)
            && s'.hist[id][|s.hist[id]|].row == s'.db.rows[id]
            && (p.reviewed ==>
                  Mirrors(DraftOf(p, s.tasks[t]).revision.value.(decisionId := id), s'.hist[id][|s.hist[id]|]))
  {
    ChangeAppends(p, s, t, now);
    var id := s.tasks[t].req.id;
    var h := s.hist[id];
    assert RecordOk(p, s.db, s.hist, id);
    assert EntryOk(p, id, h, |h| - 1);
    assert EntryOk(p, id, h, s.tasks[t].seen.value.version - 1);
  }

  lemma ChangedRecordOk(p: Policy, s: State, t: nat, now: int)
    requires RecordsOk(p, s.db, s.hist) && TaskOk(p, s, t) && Hits(p, s, t) && SeenAndReady(p, s.tasks[t])
    ensures var s' := DoChange(p, s, t, now);
            var id := s.tasks[t].req.id;
            id in s'.db.rows && id in s'.hist && RecordOk(p, s'.db, s'.hist, id)
  {
    ChangeAppends(p, s, t, now);
    ChangedEntryOk(p, s, t, now);
    var s' := DoChange(p, s, t, now);
    var id := s.tasks[t].req.id;
    var h, h' := s.hist[id], s'.hist[id];
    assert RecordOk(p, s.db, s.hist, id);
    forall k | 0 <= k < |h'| ensures EntryOk(p, id, h', k) {
      if k < |h| {
        assert EntryOk(p, id, h, k);
        assert h == h'[..|h|];
      }
    }
    if p.reviewed {
      var revs, revs' := RevisionsOf(s.db, id), RevisionsOf(s'.db, id);
      forall k | 0 <= k < |h'| ensures MirrorAt(revs', h', k) {
        if k < |h| {
          assert MirrorAt(revs, h, k);
          assert h == h'[..|h|];
        }
      }
    }
  }

  lemma ChangeKeepsRecords(p: Policy, s: State, t: nat, now: int)
    requires RecordsOk(p, s.db, s.hist) && TaskOk(p, s, t) && s.tasks[t].pc.Prepared? && SeenAndReady(p, s.tasks[t])
    ensures var s' := DoChange(p, s, t, now);
            RecordsOk(p, s'.db, s'.hist) && Grows(s, s')
  {
    ChangeAppends(p, s, t, now);
    var s' := DoChange(p, s, t, now);
    var id := s.tasks[t].req.id;
    if Hits(p, s, t) {
      ChangedRecordOk(p, s, t, now);
      ChangedEntryOk(p, s, t, now);
      forall u | u in s'.db.rows ensures RecordOk(p, s'.db, s'.hist, u) {
        assert RecordOk(p, s.db, s.hist, u);
      }
      forall i, j ensures Distinct(s'.db, i, j) {
        assert Distinct(s.db, i, j);
      }
    }
    forall u ensures GrowsAt(s, s', u) {}
  }

  lemma RemoveKeepsRecords(p: Policy, s: State, t: nat)
    requires RecordsOk(p, s.db, s.hist) && t in s.tasks
    ensures var s' := DoRemove(s, t);
            RecordsOk(p, s'.db, s'.hist) && Grows(s, s')
  {
    var s' := DoRemove(s, t);
    if SoftDelete(s.db, s.tasks[t].req.id).Ok? {
      forall u | u in s'.db.rows ensures RecordOk(p, s'.db, s'.hist, u) {
        assert RecordOk(p, s.db, s.hist, u);
        assert RevisionsOf(s'.db, u) == RevisionsOf(s.db, u);
      }
      forall i, j ensures Distinct(s'.db, i, j) {
        assert Distinct(s.db, i, j);
      }
    }
    forall u ensures GrowsAt(s, s', u) {}
  }

  /** A stored row is the last entry of its history. */
  lemma StoredIsPast(p: Policy, s: State, id: nat)
    requires RecordsOk(p, s.db, s.hist) && id in s.db.rows
    ensures Past(s, s.db.rows[id].(deleted := false)) && s.db.rows[id].id == id
    ensures s.db.rows[id].version == |s.hist[id]|
  {
    assert RecordOk(p, s.db, s.hist, id);
    assert EntryOk(p, id, s.hist[id], |s.hist[id]| - 1);
  }

  // ---- one lemma for each step ----

  /** Steps that touch one task only. */
  lemma LocalKeeps(p: Policy, s: State, t: nat, task: Task)
    requires Inv(p, s) && TaskOk(p, With(s, t, task), t)
    requires t in s.tasks && s.tasks[t].wrote.Some? && !s.tasks[t].pc.Written? ==>
               && task.req == s.tasks[t].req && task.seen == s.tasks[t].seen
               && task.wrote == s.tasks[t].wrote && !task.pc.Written?
    ensures Inv(p, With(s, t, task)) && Grows(s, With(s, t, task))
  {
    var s' := With(s, t, task);
    forall u ensures GrowsAt(s, s', u) {}
    TasksStay(p, s, s', t);
    AuditsStay(p, s, s', t);
  }

  lemma FailKeeps(p: Policy, s: State, t: nat, error: Error)
    requires Inv(p, s) && TaskOk(p, s, t)
    requires s.tasks[t].wrote.Some? ==> !s.tasks[t].pc.Written?
    ensures Inv(p, Fail(s, t, error)) && Grows(s, Fail(s, t, error))
  {
    LocalKeeps(p, s, t, s.tasks[t].(pc := Failed(error)));
  }

  lemma InsertKeeps(p: Policy, s: State, t: nat, id: nat, at: int, now: int)
    requires Inv(p, s) && TaskOk(p, s, t) && s.tasks[t].pc.Arrived? && s.tasks[t].req.op.Create?
    ensures Inv(p, DoInsert(p, s, t, id, at, now)) && Grows(s, DoInsert(p, s, t, id, at, now))
  {
    var s' := DoInsert(p, s, t, id, at, now);
    InsertKeepsRecords(p, s, t, id, at, now);
    if s'.tasks[t].pc.Failed? {
      FailKeeps(p, s, t, s'.tasks[t].pc.error);
    } else {
      assert TaskOk(p, s', t);
      TasksStay(p, s, s', t);
      AuditsStay(p, s, s', t);
    }
  }

  lemma ReadKeeps(p: Policy, s: State, t: nat, at: int)
    requires Inv(p, s) && TaskOk(p, s, t) && s.tasks[t].pc.Arrived? && !s.tasks[t].req.op.Create?
    ensures Inv(p, DoRead(p, s, t, at)) && Grows(s, DoRead(p, s, t, at))
  {
    var s' := DoRead(p, s, t, at);
    var id := s.tasks[t].req.id;
    if s'.tasks[t].pc.Failed? {
      FailKeeps(p, s, t, s'.tasks[t].pc.error);
    } else {
      StoredIsPast(p, s, id);
      LocalKeeps(p, s, t, s'.tasks[t]);
    }
  }

  lemma ChangedTaskOk(p: Policy, s: State, t: nat, now: int)
    requires RecordsOk(p, s.db, s.hist) && TaskOk(p, s, t) && Hits(p, s, t) && SeenAndReady(p, s.tasks[t])
    requires Grows(s, DoChange(p, s, t, now))
    ensures TaskOk(p, DoChange(p, s, t, now), t)
    ensures DoChange(p, s, t, now).tasks[t].pc.Written?
  {
    var s' := DoChange(p, s, t, now);
    ChangeAppends(p, s, t, now);
    ChangedEntryOk(p, s, t, now);
    PastStays(s, s', s.tasks[t].seen.value);
    assert RecordOk(p, s.db, s.hist, s.tasks[t].req.id);
    assert WroteOk(p, s', t, s'.tasks[t]);
  }

  lemma ChangeKeeps(p: Policy, s: State, t: nat, now: int)
    requires Inv(p, s) && TaskOk(p, s, t) && s.tasks[t].pc.Prepared? && SeenAndReady(p, s.tasks[t])
    ensures Inv(p, DoChange(p, s, t, now)) && Grows(s, DoChange(p, s, t, now))
  {
    var s' := DoChange(p, s, t, now);
    ChangeAppends(p, s, t, now);
    if Hits(p, s, t) {
      ChangeKeepsRecords(p, s, t, now);
      ChangedTaskOk(p, s, t, now);
      TasksStay(p, s, s', t);
      AuditsStay(p, s, s', t);
    } else {
      FailKeeps(p, s, t, s'.tasks[t].pc.error);
    }
  }

  lemma RemoveKeeps(p: Policy, s: State, t: nat)
    requires Inv(p, s) && TaskOk(p, s, t) && s.tasks[t].pc.Prepared? && s.tasks[t].req.op.Delete?
    ensures Inv(p, DoRemove(s, t)) && Grows(s, DoRemove(s, t))
  {
    var s' := DoRemove(s, t);
    if s'.tasks[t].pc.Failed? {
      FailKeeps(p, s, t, s'.tasks[t].pc.error);
    } else {
      RemoveKeepsRecords(p, s, t);
      StoredIsPast(p, s, s.tasks[t].req.id);
      PastStays(s, s', s.tasks[t].seen.value);
      assert TaskOk(p, s', t);
      TasksStay(p, s, s', t);
      AuditsStay(p, s, s', t);
    }
  }

  lemma AuditKeeps(p: Policy, s: State, t: nat, stored: bool, now: int)
    requires Inv(p, s) && TaskOk(p, s, t) && s.tasks[t].pc.Written? && s.tasks[t].wrote.Some?
    ensures Inv(p, DoAudit(p, s, t, stored, now)) && Grows(s, DoAudit(p, s, t, stored, now))
  {
    var s' := DoAudit(p, s, t, stored, now);
    forall u ensures GrowsAt(s, s', u) {}
    var task' := s'.tasks[t];
    if task'.pc.Done? { PastStays(s, s', task'.wrote.value); }
    assert TaskOk(p, s', t);
    TasksStay(p, s, s', t);
    forall i | 0 <= i < |s.audits| ensures s.auditors[i] != t {
      assert AuditOk(p, s, i);
    }
    forall i | 0 <= i < |s'.audits| ensures AuditOk(p, s', i) {
      if i < |s.audits| { assert AuditOk(p, s, i); }
    }
  }

  lemma RereadKeeps(p: Policy, s: State, t: nat)
    requires Inv(p, s) && TaskOk(p, s, t) && s.tasks[t].pc.Audited? && s.tasks[t].wrote.Some?
    ensures Inv(p, DoReread(p, s, t)) && Grows(s, DoReread(p, s, t))
  {
    var s' := DoReread(p, s, t);
    if s'.tasks[t].pc.Failed? {
      FailKeeps(p, s, t, s'.tasks[t].pc.error);
    } else {
      StoredIsPast(p, s, s.tasks[t].wrote.value.id);
      LocalKeeps(p, s, t, s'.tasks[t]);
    }
  }

  lemma PreloadKeeps(p: Policy, s: State, t: nat)
    requires Inv(p, s) && TaskOk(p, s, t) && s.tasks[t].pc.RowRead?
    ensures Inv(p, DoPreload(s, t)) && Grows(s, DoPreload(s, t))
  {
    var row := s.tasks[t].pc.row;
    assert RecordOk(p, s.db, s.hist, row.id);
    assert Served(DoPreload(s, t), row, RevisionsOf(s.db, row.id));
    LocalKeeps(p, s, t, s.tasks[t].(pc := Done(row, RevisionsOf(s.db, row.id))));
  }

  /** Every step keeps the invariant. */
  lemma StepKeeps(p: Policy, s: State, step: Step)
    requires Inv(p, s)
    ensures Inv(p, Do(p, s, step)) && Grows(s, Do(p, s, step))
  {
    var s' := Do(p, s, step);
    var t := step.t;
    if t !in s.tasks {
      if step.Arrive? {
        LocalKeeps(p, s, t, Task(step.req, Arrived, 0, None, None));
      } else {
        forall u ensures GrowsAt(s, s', u) {}
      }
    } else if s' == s {
      forall u ensures GrowsAt(s, s', u) {}
    } else {
      assert TaskOk(p, s, t);
      match step
      case Arrive(_, _) =>
      case Insert(_, id, at, now) => InsertKeeps(p, s, t, id, at, now);
      case Read(_, at) => ReadKeeps(p, s, t, at);
      case Commit(_, now) =>
        if s.tasks[t].req.op.Delete? { RemoveKeeps(p, s, t); } else { ChangeKeeps(p, s, t, now); }
      case Audit(_, stored, now) => AuditKeeps(p, s, t, stored, now);
      case Reread(_) => RereadKeeps(p, s, t);
      case Preload(_) => PreloadKeeps(p, s, t);
      case Fault(_) => FailKeeps(p, s, t, Unavailable);
    }
  }

  lemma GrowsTransitive(a: State, b: State, c: State)
    requires Grows(a, b) && Grows(b, c)
    ensures Grows(a, c)
  {
    forall u ensures GrowsAt(a, c, u) {
      assert GrowsAt(a, b, u) && GrowsAt(b, c, u);
    }
  }

  lemma {:induction false} RunKeeps(p: Policy, s: State, steps: seq<Step>)
    requires Inv(p, s)
    ensures Inv(p, Run(p, s, steps)) && Grows(s, Run(p, s, steps))
  {
    if steps == [] {
      forall u ensures GrowsAt(s, s, u) {}
    } else {
      var mid := Run(p, s, steps[..|steps| - 1]);
      RunKeeps(p, s, steps[..|steps| - 1]);
      StepKeeps(p, mid, steps[|steps| - 1]);
      GrowsTransitive(s, mid, Run(p, s, steps));
    }
  }
}
