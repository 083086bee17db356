/** Guarantees for every interleaving and every ExpectedVersion that clients may send. */
module Guarantees {
  import opened Basics
  import opened Statuses
  import opened Records
  import opened Tables
  import opened Protocol
  import opened Invariant
  import opened Commits

  ghost predicate Reachable(p: Policy, s: State) {
    exists start: State, steps: seq<Step> :: Start(p, start) && s == Run(p, start, steps)
  }

  lemma ReachableInv(p: Policy, s: State)
    requires Reachable(p, s)
    ensures Inv(p, s)
  {
    var start: State, steps: seq<Step> :| Start(p, start) && s == Run(p, start, steps);
    RunKeeps(p, start, steps);
  }

  /** In every reachable state the log is exactly the requests that have committed, each once. */
  lemma ReachableLogged(p: Policy, s: State)
    requires Reachable(p, s)
    ensures Logged(s)
  {
    var start: State, steps: seq<Step> :| Start(p, start) && s == Run(p, start, steps);
    RunLogs(p, start, steps);
  }

  lemma ReachableOnwards(p: Policy, s: State, steps: seq<Step>)
    requires Reachable(p, s)
    ensures Reachable(p, Run(p, s, steps))
  {
    var start: State, before: seq<Step> :| Start(p, start) && s == Run(p, start, before);
    RunConcat(p, start, before, steps);
    assert Run(p, s, steps) == Run(p, start, before + steps);
  }

  // ---- revisions ----

  /** A decision's revisions are exactly versions 1, 2, ..., Version, each once and in order. Each one
      tells what was stored at its version, and holds all of it when a request wrote it; the last
      stored version is the row. Code and preparer are the same throughout. */
  lemma RevisionChain(p: Policy, s: State, id: nat)
    requires Reachable(p, s) && p.reviewed && id in s.db.rows
    ensures id in s.hist
    ensures var row, revs, h := s.db.rows[id], RevisionsOf(s.db, id), s.hist[id];
            && row.id == id && |revs| == |h| == row.version >= 1
            && h[|h| - 1].row == row.(deleted := false)
            && (forall k :: 0 <= k < |revs| ==>
                  && revs[k].version == k + 1 && revs[k].decisionId == id && Mirrors(revs[k], h[k])
                  && (h[k].task.Some? ==> revs[k].snapshot.Full? && SameDecision(revs[k].snapshot.row, h[k].row)))
            && (forall k :: 0 <= k < |h| ==>
                  h[k].row.id == id && h[k].row.code == row.code && h[k].row.preparedBy == row.preparedBy)
  {
    ReachableInv(p, s);
    var revs, h := RevisionsOf(s.db, id), s.hist[id];
    assert RecordOk(p, s.db, s.hist, id);
    forall k | 0 <= k < |revs|
      ensures revs[k].version == k + 1 && Mirrors(revs[k], h[k]) && h[k].row.id == id
      ensures h[k].row.code == s.db.rows[id].code && h[k].row.preparedBy == s.db.rows[id].preparedBy
    {
      assert MirrorAt(revs, h, k) && EntryOk(p, id, h, k) && EntryOk(p, id, h, |h| - 1);
    }
  }

  /** Every revision that a run adds was written by one of its requests, and holds exactly what that
      request stored. */
  lemma {:induction false} SnapshotsOfRequests(p: Policy, start: State, steps: seq<Step>, id: nat, k: nat)
    requires Start(p, start) && p.reviewed
    requires id in Run(p, start, steps).hist && NewAt(start, Run(p, start, steps).hist[id], id, k)
    ensures var s := Run(p, start, steps);
            && id in s.db.rows && k < |RevisionsOf(s.db, id)|
            && Authored(s, s.hist[id][k]) && RevisionsOf(s.db, id)[k].snapshot.Full?
            && SameDecision(RevisionsOf(s.db, id)[k].snapshot.row, s.hist[id][k].row)
  {
    RunAuthors(p, start, steps, id, k);
    RunKeeps(p, start, steps);
    assert Reachable(p, Run(p, start, steps));
    RevisionChain(p, Run(p, start, steps), id);
  }

  /** Revisions are never rewritten or removed, by any continuation of a run. */
  lemma {:induction false} RevisionsAppendOnly(p: Policy, s: State, steps: seq<Step>, id: nat)
    requires Reachable(p, s)
    ensures RevisionsOf(s.db, id) <= RevisionsOf(Run(p, s, steps).db, id)
    ensures id in s.db.rows ==>
              && id in Run(p, s, steps).db.rows
              && Run(p, s, steps).db.rows[id].version >= s.db.rows[id].version
              && Run(p, s, steps).db.rows[id].code == s.db.rows[id].code
              && Run(p, s, steps).db.rows[id].preparedBy == s.db.rows[id].preparedBy
  {
    ReachableInv(p, s);
    RunKeeps(p, s, steps);
    var s' := Run(p, s, steps);
    assert GrowsAt(s, s', id);
    if id in s.db.rows {
      assert RecordOk(p, s.db, s.hist, id) && RecordOk(p, s'.db, s'.hist, id);
      assert EntryOk(p, id, s.hist[id], |s.hist[id]| - 1) && EntryOk(p, id, s'.hist[id], |s'.hist[id]| - 1);
      assert s'.hist[id][0] == s.hist[id][0];
    }
  }

  /** How a prepared change ends. The (decision, version) index never refuses one: it fails for a
      missed row, or because the version column is exhausted, and for nothing else. */
  lemma CommitOutcome(p: Policy, s: State, t: nat, now: int)
    requires Reachable(p, s) && t in s.tasks && s.tasks[t].pc.Prepared? && s.tasks[t].req.IsChange()
    ensures var task := s.tasks[t];
            var found := Find(s.db, task.req.id);
            var pc := Do(p, s, Commit(t, now)).tasks[t].pc;
            var match' := found.Some? && found.value.version == task.req.op.expected;
            && (!match' ==> pc == Failed(VersionConflict))
            && (match' && task.req.op.expected + 1 == VERSION_LIMIT ==> pc == Failed(Rejected))
            && (match' && task.req.op.expected + 1 < VERSION_LIMIT ==> pc == Written)
            && (match' ==> task.req.op.expected + 1 <= VERSION_LIMIT)
  {
    ReachableInv(p, s);
    assert TaskOk(p, s, t);
    ChangeAppends(p, s, t, now);
    var id := s.tasks[t].req.id;
    if Find(s.db, id).Some? {
      assert RecordOk(p, s.db, s.hist, id);
    }
  }

  // ---- separation of duty ----

  /** Whoever moved a decision out of draft was a reviewer or an admin and not its preparer; whoever
      wrote a draft version was its preparer or an admin. Stale reads cannot break this, because a
      record's preparer never changes. */
  lemma SeparationOfDuties(s: State, id: nat, k: nat)
    requires Reachable(DECISION, s) && id in s.db.rows && k < |RevisionsOf(s.db, id)|
    ensures id in s.hist && k < |s.hist[id]|
    ensures var rev, caller := RevisionsOf(s.db, id)[k], s.hist[id][k].caller;
            && rev.actor == caller.actor
            && (rev.status == "draft" ==> rev.actor == s.db.rows[id].preparedBy || caller.role == ADMIN)
            && (rev.status != "draft" ==>
                  && IsPriorityLevel(rev.status) && rev.actor != s.db.rows[id].preparedBy
                  && (caller.role == REVIEWER || caller.role == ADMIN))
  {
    ReachableInv(DECISION, s);
    var revs, h := RevisionsOf(s.db, id), s.hist[id];
    assert RecordOk(DECISION, s.db, s.hist, id);
    assert MirrorAt(revs, h, k) && EntryOk(DECISION, id, h, k) && EntryOk(DECISION, id, h, |h| - 1);
    if k > 0 {
      assert EntryOk(DECISION, id, h, h[k].basis.version - 1);
      DecisionMoves(h[k].basis.status, h[k].row.status);
    }
  }

  // ---- optimistic locking ----

  ghost predicate CommittedChange(s: State, t: nat) {
    t in s.tasks && s.tasks[t].req.IsChange() && s.tasks[t].wrote.Some?
  }

  /** What a committed change has stored for ever: the content that it asked for and nothing else. An
      update keeps the status of the row it read, a transition its fields; in both the revision
      carries the caller and the note. */
  lemma CommitStoresRequest(p: Policy, s: State, t: nat)
    requires Reachable(p, s) && CommittedChange(s, t)
    ensures var req := s.tasks[t].req;
            && s.tasks[t].seen.Some? && req.id in s.hist && req.op.expected < |s.hist[req.id]|
            && var seen, stored := s.tasks[t].seen.value, s.hist[req.id][req.op.expected].row;
               && stored == s.tasks[t].wrote.value && stored.version == req.op.expected + 1
               && stored.code == seen.code && stored.preparedBy == seen.preparedBy && stored.createdAt == seen.createdAt
               && stored.fields == (if req.op.Update? then req.op.fields else seen.fields)
               && stored.status == (if req.op.Update? then seen.status else req.op.target)
               && (p.reviewed ==>
                     && req.op.expected < |RevisionsOf(s.db, req.id)|
                     && var rev := RevisionsOf(s.db, req.id)[req.op.expected];
                        && rev.version == stored.version && rev.status == stored.status
                        && rev.evidence == stored.fields.evidence
                        && rev.actor == req.caller.actor && rev.requestID == req.caller.requestID
                        && rev.reason == NoteOf(p, req.op))
  {
    ReachableInv(p, s);
    assert TaskOk(p, s, t);
    var id, k := s.tasks[t].req.id, s.tasks[t].req.op.expected;
    assert RecordOk(p, s.db, s.hist, id);
    assert EntryOk(p, id, s.hist[id], k);
    assert EntryOk(p, id, s.hist[id], s.tasks[t].seen.value.version - 1);
    if p.reviewed { assert MirrorAt(RevisionsOf(s.db, id), s.hist[id], k); }
  }

  /** What a committed creation has stored for ever: its own content, at version 1 and in the initial
      status, prepared by its caller, who also signs the first revision. */
  lemma CreationStoresRequest(p: Policy, s: State, t: nat)
    requires Reachable(p, s) && t in s.tasks && s.tasks[t].req.op.Create? && s.tasks[t].wrote.Some?
    ensures var req, stored := s.tasks[t].req, s.tasks[t].wrote.value;
            && stored.id in s.hist && |s.hist[stored.id]| >= 1 && s.hist[stored.id][0].row == stored
            && stored.code == req.op.code && stored.fields == req.op.fields && stored.status == p.initial
            && stored.version == 1 && !stored.deleted
            && stored.preparedBy == (if p.reviewed then req.caller.actor else "")
            && (p.reviewed ==>
                  && |RevisionsOf(s.db, stored.id)| >= 1
                  && var rev := RevisionsOf(s.db, stored.id)[0];
                     && rev.version == 1 && rev.status == p.initial && rev.evidence == req.op.fields.evidence
                     && rev.actor == req.caller.actor && rev.requestID == req.caller.requestID
                     && rev.reason == p.texts.firstNote)
  {
    ReachableInv(p, s);
    assert TaskOk(p, s, t);
    var id := s.tasks[t].wrote.value.id;
    assert RecordOk(p, s.db, s.hist, id);
    assert EntryOk(p, id, s.hist[id], 0);
    if p.reviewed { assert MirrorAt(RevisionsOf(s.db, id), s.hist[id], 0); }
  }

  /** How an insertion ends: refused for invalid input or for a taken key or code, stored otherwise. */
  lemma InsertOutcome(p: Policy, s: State, t: nat, id: nat, at: int, now: int)
    requires Reachable(p, s) && t in s.tasks && s.tasks[t].pc.Arrived? && s.tasks[t].req.op.Create?
    ensures var op, s' := s.tasks[t].req.op, Do(p, s, Insert(t, id, at, now));
            var taken := id in s.db.rows || exists u :: u in s.db.rows && s.db.rows[u].code == op.code;
            s'.tasks[t].pc == if !p.valid(op.code, op.fields) then Failed(InvalidInput)
                              else if taken then Failed(Rejected)
                              else Written
  {
    ReachableInv(p, s);
  }

  /** How a checked deletion ends: the record is there and goes, or it has gone already. */
  lemma RemoveOutcome(p: Policy, s: State, t: nat, now: int)
    requires Reachable(p, s) && t in s.tasks && s.tasks[t].pc.Prepared? && s.tasks[t].req.op.Delete?
    ensures var id, s' := s.tasks[t].req.id, Do(p, s, Commit(t, now));
            if id in s.db.rows && !s.db.rows[id].deleted then
              s'.tasks[t].pc == Written && s'.db == s.db.(rows := s.db.rows[id := s.db.rows[id].(deleted := true)])
            else s'.tasks[t].pc == Failed(NotFound) && s'.db == s.db
  {
    ReachableInv(p, s);
    assert TaskOk(p, s, t);
  }

  /** How the final read goes on: with the row as it is now, or not at all if that was deleted. */
  lemma RereadOutcome(p: Policy, s: State, t: nat)
    requires Reachable(p, s) && t in s.tasks && s.tasks[t].pc.Audited?
    ensures s.tasks[t].wrote.Some? && s.tasks[t].wrote.value.id in s.db.rows
    ensures var row := s.db.rows[s.tasks[t].wrote.value.id];
            Do(p, s, Reread(t)).tasks[t].pc ==
              if row.deleted then Failed(NotFound) else if p.reviewed then RowRead(row) else Done(row, [])
  {
    ReachableInv(p, s);
    assert TaskOk(p, s, t);
  }

  /** Every version of every record that was ever stored passes validation, although transitions do
      not validate and stale reads write all columns. */
  lemma {:induction false} VersionsStayValid(p: Policy, s: State, id: nat, k: nat)
    requires Reachable(p, s) && id in s.hist && k < |s.hist[id]|
    ensures p.valid(s.hist[id][k].row.code, s.hist[id][k].row.fields)
    decreases k
  {
    ReachableInv(p, s);
    assert RecordOk(p, s.db, s.hist, id);
    assert EntryOk(p, id, s.hist[id], k);
    if s.hist[id][k].act.Moved? {
      var before := s.hist[id][k].basis.version - 1;
      assert EntryOk(p, id, s.hist[id], before);
      VersionsStayValid(p, s, id, before);
    }
  }

  /** Of all requests on one record with the same ExpectedVersion, at most one ever commits. So a
      client that repeats a request, whatever answer the first one got, cannot apply it twice. */
  lemma OneWinner(p: Policy, s: State, t: nat, u: nat)
    requires Reachable(p, s) && CommittedChange(s, t) && CommittedChange(s, u)
    requires s.tasks[t].req.id == s.tasks[u].req.id
    requires s.tasks[t].req.op.expected == s.tasks[u].req.op.expected
    ensures t == u
  {
    ReachableInv(p, s);
    assert TaskOk(p, s, t) && TaskOk(p, s, u);
  }

  ghost predicate VersionCounts(start: State, s: State, id: nat) {
    id in s.db.rows ==>
      s.db.rows[id].version == Changes(s.log, id) + if id in start.db.rows then start.db.rows[id].version else 1
  }

  lemma ChangesNext(log: seq<Event>, event: Event, id: nat)
    ensures Changes(log + [event], id) == Changes(log, id) + if IsChangeOf(event, id) then 1 else 0
  {
    assert (log + [event])[..|log + [event]| - 1] == log;
  }

  /** A record that does not exist yet has no changes in the log. */
  ghost predicate NoneYet(s: State, id: nat) {
    id !in s.db.rows ==> Changes(s.log, id) == 0
  }

  lemma ChangeCounts(p: Policy, start: State, s: State, t: nat, now: int, id: nat)
    requires RecordsOk(p, s.db, s.hist) && TaskOk(p, s, t) && s.tasks[t].pc.Prepared? && SeenAndReady(p, s.tasks[t])
    requires VersionCounts(start, s, id) && NoneYet(s, id)
    ensures VersionCounts(start, DoChange(p, s, t, now), id) && NoneYet(DoChange(p, s, t, now), id)
    ensures id in s.db.rows ==> id in DoChange(p, s, t, now).db.rows
  {
    ChangeAppends(p, s, t, now);
    if Hits(p, s, t) {
      ChangesNext(s.log, Changed(t, s.tasks[t].req, s.tasks[t].at, now), id);
      assert RecordOk(p, s.db, s.hist, s.tasks[t].req.id);
    }
  }

  lemma InsertCounts(p: Policy, start: State, s: State, t: nat, u: nat, at: int, now: int, id: nat)
    requires t in s.tasks && s.tasks[t].req.op.Create? && VersionCounts(start, s, id) && NoneYet(s, id)
    requires id in start.db.rows ==> id in s.db.rows
    ensures VersionCounts(start, DoInsert(p, s, t, u, at, now), id) && NoneYet(DoInsert(p, s, t, u, at, now), id)
    ensures id in s.db.rows ==> id in DoInsert(p, s, t, u, at, now).db.rows
  {
    var s' := DoInsert(p, s, t, u, at, now);
    if s'.tasks[t].pc.Failed? {
      assert s'.db == s.db && s'.log == s.log;
    } else {
      var event := Inserted(t, s.tasks[t].req, u, at, now);
      ChangesNext(s.log, event, id);
      assert s'.log == s.log + [event] && u !in s.db.rows;
      assert s'.db.rows == s.db.rows[u := s'.db.rows[u]] && s'.db.rows[u].version == 1;
    }
  }

  lemma RemoveCounts(start: State, s: State, t: nat, id: nat)
    requires t in s.tasks && VersionCounts(start, s, id) && NoneYet(s, id)
    ensures VersionCounts(start, DoRemove(s, t), id) && NoneYet(DoRemove(s, t), id)
    ensures id in s.db.rows ==> id in DoRemove(s, t).db.rows
  {
    ChangesNext(s.log, Removed(t, s.tasks[t].req.id), id);
  }

  lemma StepCounts(p: Policy, start: State, s: State, step: Step, id: nat)
    requires Inv(p, s) && VersionCounts(start, s, id) && NoneYet(s, id)
    requires id in start.db.rows ==> id in s.db.rows
    ensures VersionCounts(start, Do(p, s, step), id) && NoneYet(Do(p, s, step), id)
    ensures id in s.db.rows ==> id in Do(p, s, step).db.rows
  {
    var t := step.t;
    if t in s.tasks {
      if step.Commit? && s.tasks[t].pc.Prepared? {
        assert TaskOk(p, s, t);
        if s.tasks[t].req.op.Delete? {
          RemoveCounts(start, s, t, id);
        } else {
          ChangeCounts(p, start, s, t, step.now, id);
        }
      } else if step.Insert? && s.tasks[t].req.op.Create? {
        InsertCounts(p, start, s, t, step.id, step.at, step.now, id);
      } else {
        assert Do(p, s, step).db == s.db && Do(p, s, step).log == s.log;
      }
    }
  }

  lemma {:induction false} RunCounts(p: Policy, start: State, steps: seq<Step>, id: nat)
    requires Start(p, start)
    ensures VersionCounts(start, Run(p, start, steps), id) && NoneYet(Run(p, start, steps), id)
    ensures id in start.db.rows ==> id in Run(p, start, steps).db.rows
  {
    if steps != [] {
      RunCounts(p, start, steps[..|steps| - 1], id);
      RunKeeps(p, start, steps[..|steps| - 1]);
      StepCounts(p, start, Run(p, start, steps[..|steps| - 1]), steps[|steps| - 1], id);
    }
  }

  /** Conservation: a record's version is its starting version plus the number of requests that have
      committed an update or transition of it. */
  lemma {:induction false} VersionIsCommitCount(p: Policy, start: State, steps: seq<Step>, id: nat)
    requires Start(p, start)
    ensures var s := Run(p, start, steps);
            id in s.db.rows ==>
              s.db.rows[id].version == |Changers(s, id)| + if id in start.db.rows then start.db.rows[id].version else 1
  {
    RunCounts(p, start, steps, id);
    RunLogs(p, start, steps);
    ChangesAreRequests(Run(p, start, steps), id);
  }

  // ---- torn reads ----

  /** The record returned after a commit was read in two statements, with others writing between
      them. It still is some version of the record, its revisions have no gap and include its own,
      and it is at least as new as the commit; at the same version it is the row that was committed. */
  lemma ServedAfterCommit(p: Policy, s: State, t: nat)
    requires Reachable(p, s) && p.reviewed && t in s.tasks && s.tasks[t].pc.Done?
    ensures var task := s.tasks[t];
            var row, revs := task.pc.result, task.pc.revisions;
            && 1 <= row.version <= |revs|
            && (forall k :: 0 <= k < |revs| ==> revs[k].version == k + 1 && revs[k].decisionId == row.id)
            && revs[row.version - 1].status == row.status
            && revs[row.version - 1].evidence == row.fields.evidence
            && row.id in s.hist && row.version <= |s.hist[row.id]| && s.hist[row.id][row.version - 1].row == row
            && Mirrors(revs[row.version - 1], s.hist[row.id][row.version - 1])
            && task.wrote.Some? && row.version >= task.wrote.value.version
            && (task.req.IsChange() ==> task.wrote.value.version == task.req.op.expected + 1)
            && (row.version == task.wrote.value.version ==> row == task.wrote.value)
            && revs <= RevisionsOf(s.db, row.id)
  {
    ReachableInv(p, s);
    DoneIsServed(p, s, t);
    ServedIsChain(p, s, s.tasks[t].pc.result, s.tasks[t].pc.revisions);
  }

  lemma DoneIsServed(p: Policy, s: State, t: nat)
    requires Inv(p, s) && p.reviewed && t in s.tasks && s.tasks[t].pc.Done?
    ensures var task := s.tasks[t];
            && Served(s, task.pc.result, task.pc.revisions) && ReadBack(s, task, task.pc.result)
            && (task.req.IsChange() ==> task.wrote.value.version == task.req.op.expected + 1)
            && (task.pc.result.version == task.wrote.value.version ==> task.pc.result == task.wrote.value)
  {
    assert TaskOk(p, s, t);
  }

  lemma ServedIsChain(p: Policy, s: State, row: Row, revs: seq<Revision>)
    requires Inv(p, s) && Served(s, row, revs)
    ensures forall k :: 0 <= k < |revs| ==> revs[k].version == k + 1 && revs[k].decisionId == row.id
    ensures Mirrors(revs[row.version - 1], s.hist[row.id][row.version - 1])
  {
    var h := s.hist[row.id];
    assert RecordOk(p, s.db, s.hist, row.id);
    forall k | 0 <= k < |revs| ensures Mirrors(revs[k], h[k]) && h[k].row.version == k + 1 && h[k].row.id == row.id {
      assert MirrorAt(revs, h, k) && EntryOk(p, row.id, h, k);
    }
  }

  /** The same for any reader, of a decision read now and its revisions read later: whatever is written
      in between, the revisions have no gap, reach the row and tell what it was. */
  lemma ReadsAreConsistent(p: Policy, s: State, steps: seq<Step>, id: nat)
    requires Reachable(p, s) && p.reviewed && Find(s.db, id).Some?
    ensures var row, s' := s.db.rows[id], Run(p, s, steps);
            var revs := RevisionsOf(s'.db, id);
            && 1 <= row.version <= |revs|
            && (forall k :: 0 <= k < |revs| ==> revs[k].version == k + 1 && revs[k].decisionId == id)
            && id in s.hist && row.version == |s.hist[id]| && s.hist[id][row.version - 1].row == row
            && Mirrors(revs[row.version - 1], s.hist[id][row.version - 1])
  {
    var s' := Run(p, s, steps);
    ReachableOnwards(p, s, steps);
    RevisionsAppendOnly(p, s, steps, id);
    RowIsLastRevision(p, s, id);
    RevisionsHaveNoGap(p, s', id);
    var revs, revs' := RevisionsOf(s.db, id), RevisionsOf(s'.db, id);
    assert revs'[|revs| - 1] == revs[|revs| - 1];
  }

  lemma RowIsLastRevision(p: Policy, s: State, id: nat)
    requires Reachable(p, s) && p.reviewed && Find(s.db, id).Some?
    ensures var row, revs := s.db.rows[id], RevisionsOf(s.db, id);
            && 1 <= row.version == |revs|
            && id in s.hist && |s.hist[id]| == row.version && s.hist[id][row.version - 1].row == row
            && Mirrors(revs[row.version - 1], s.hist[id][row.version - 1])
  {
    RevisionChain(p, s, id);
  }

  lemma RevisionsHaveNoGap(p: Policy, s: State, id: nat)
    requires Reachable(p, s) && p.reviewed && id in s.db.rows
    ensures forall k :: 0 <= k < |RevisionsOf(s.db, id)| ==>
              RevisionsOf(s.db, id)[k].version == k + 1 && RevisionsOf(s.db, id)[k].decisionId == id
  {
    RevisionChain(p, s, id);
  }

  // ---- audit ----

  /** Actor and request id of an entry are the caller's, with a stand-in for either if it is missing. */
  predicate SignedBy(a: AuditLog, caller: Caller) {
    && a.actor == (if caller.actor == "" then "system" else caller.actor)
    && a.requestID == (if caller.requestID == "" then "untracked" else caller.requestID)
  }

  /** Commit `version` of record `id` is what the audit entry reports. */
  ghost predicate Attests(p: Policy, s: State, a: AuditLog, id: nat, version: nat) {
    && a.entityType == p.entity && a.entityID == id
    && id in s.hist && 1 <= version <= |s.hist[id]|
    && var e := s.hist[id][version - 1];
       && SignedBy(a, e.caller) && a.after == e.row.status
       && a.before == (if e.act.Created? then "" else e.basis.status)
       && (a.action == "create" <==> e.act.Created?)
       && (a.action == "update" <==> e.act.Edited?)
       && (a.action == "transition" <==> e.act.Moved?)
       && (p.reviewed ==> MirrorAt(RevisionsOf(s.db, id), s.hist[id], version - 1))
  }

  ghost predicate Linked(p: Policy, s: State, link: seq<(nat, nat)>, i: nat)
    requires i < |link| == |s.audits|
  {
    s.audits[i].action == "delete" || Attests(p, s, s.audits[i], link[i].0, link[i].1)
  }

  function LinkOf(s: State, i: nat): (nat, nat) {
    if i < |s.auditors| && s.auditors[i] in s.tasks && s.tasks[s.auditors[i]].wrote.Some?
    then (s.tasks[s.auditors[i]].wrote.value.id, s.tasks[s.auditors[i]].wrote.value.version) else (0, 0)
  }

  /** Every entry is signed by the caller of the request that appended it, and reports that request:
      what it did, to which record, from the status it read to the status it gave, and why. */
  lemma EntryTellsRequest(p: Policy, s: State, i: nat)
    requires Reachable(p, s) && i < |s.audits|
    ensures i < |s.auditors| && s.auditors[i] in s.tasks && s.tasks[s.auditors[i]].wrote.Some?
    ensures var a, task := s.audits[i], s.tasks[s.auditors[i]];
            var read := if task.seen.Some? then task.seen.value.status else "";
            && SignedBy(a, task.req.caller) && a.entityType == p.entity && a.entityID == task.wrote.value.id
            && match task.req.op
               case Create(_, _) =>
                 a.action == "create" && a.before == "" && a.after == p.initial && a.detail == p.texts.created
               case Update(_, _) =>
                 a.action == "update" && a.before == a.after == read && a.detail == p.texts.updated
               case Transition(_, target, reason, _) =>
                 a.action == "transition" && a.before == read && a.after == target && a.detail == reason
               case Delete =>
                 && a.action == "delete" && a.before == read && a.after == "deleted" && a.detail == p.texts.deleted
                 && a.entityID in s.db.rows && s.db.rows[a.entityID].deleted
  {
    ReachableInv(p, s);
    assert AuditOk(p, s, i);
    assert TaskOk(p, s, s.auditors[i]);
  }

  lemma LinkAttests(p: Policy, s: State, i: nat)
    requires Inv(p, s) && i < |s.audits| && s.audits[i].action != "delete"
    ensures Attests(p, s, s.audits[i], LinkOf(s, i).0, LinkOf(s, i).1)
    ensures s.auditors[i] in s.tasks && !s.tasks[s.auditors[i]].req.op.Delete?
    ensures Recorded(s, s.auditors[i], s.tasks[s.auditors[i]].wrote.value)
  {
    assert AuditOk(p, s, i);
    var t := s.auditors[i];
    assert TaskOk(p, s, t);
    var row := s.tasks[t].wrote.value;
    var h := s.hist[row.id];
    assert RecordOk(p, s.db, s.hist, row.id);
    assert EntryOk(p, row.id, h, row.version - 1);
    assert MirrorsUpTo(RevisionsOf(s.db, row.id), h, |h|) ==> MirrorAt(RevisionsOf(s.db, row.id), h, row.version - 1);
  }

  /** Audit soundness, audit failures included: distinct create, update and transition entries report
      distinct commits, each with the commit's actor, request and resulting status. As this holds in
      every state of a run, no entry is stored before its commit. */
  lemma AuditsReportCommits(p: Policy, s: State)
    requires Reachable(p, s)
    ensures exists link: seq<(nat, nat)> ::
              && |link| == |s.audits|
              && (forall i :: 0 <= i < |link| ==> Linked(p, s, link, i))
              && (forall i, j :: 0 <= i < j < |link| ==>
                    link[i] != link[j] || s.audits[i].action == "delete" || s.audits[j].action == "delete")
  {
    ReachableInv(p, s);
    var link := seq(|s.audits|, i requires 0 <= i < |s.audits| => LinkOf(s, i));
    forall i | 0 <= i < |link| ensures Linked(p, s, link, i) {
      if s.audits[i].action != "delete" { LinkAttests(p, s, i); }
    }
    forall i, j | 0 <= i < j < |link| && s.audits[i].action != "delete" && s.audits[j].action != "delete"
      ensures link[i] != link[j]
    {
      LinksDiffer(p, s, i, j);
    }
  }

  lemma LinksDiffer(p: Policy, s: State, i: nat, j: nat)
    requires Inv(p, s) && i < j < |s.audits| && s.audits[i].action != "delete" && s.audits[j].action != "delete"
    ensures LinkOf(s, i) != LinkOf(s, j)
  {
    LinkAttests(p, s, i);
    LinkAttests(p, s, j);
    assert s.auditors[i] != s.auditors[j];
  }

  ghost predicate PastAudit(s: State, t: nat) {
    && t in s.tasks && s.tasks[t].wrote.Some?
    && !s.tasks[t].pc.Arrived? && !s.tasks[t].pc.Prepared? && !s.tasks[t].pc.Written?
  }

  /** A transition or deletion whose audit attempt is over. */
  ghost predicate Reported(s: State, t: nat) {
    && t in s.tasks && (s.tasks[t].req.op.Transition? || s.tasks[t].req.op.Delete?)
    && s.tasks[t].wrote.Some? && !s.tasks[t].pc.Written?
  }

  ghost predicate Told(s: State, t: nat) {
    Reported(s, t) ==> (t in s.auditors <==> s.tasks[t].pc != Failed(AuditFailed))
  }

  lemma StepTells(p: Policy, s: State, step: Step, t: nat)
    requires Inv(p, s) && Told(s, t)
    ensures Told(Do(p, s, step), t)
  {
    if t in s.tasks { assert TaskOk(p, s, t); }
    if PastAudit(s, t) {
      StepKeepsAttempt(p, s, step, t);
    } else if t == step.t && t in s.tasks && step.Audit? && s.tasks[t].pc.Written? {
      AuditTells(p, s, t, step.stored, step.now);
    } else {
      StepNotAudit(p, s, step, t);
    }
  }

  lemma StepNotAudit(p: Policy, s: State, step: Step, t: nat)
    requires t in s.tasks ==> s.tasks[t].wrote.None? || s.tasks[t].pc.Written?
    requires !(t == step.t && t in s.tasks && step.Audit? && s.tasks[t].pc.Written?)
    ensures !Reported(Do(p, s, step), t)
  {
  }

  /** A request whose audit attempt is over makes no other, and does not fail of it later. */
  lemma StepKeepsAttempt(p: Policy, s: State, step: Step, t: nat)
    requires PastAudit(s, t)
    ensures var s' := Do(p, s, step);
            && PastAudit(s', t) && (t in s'.auditors <==> t in s.auditors)
            && s'.tasks[t].req == s.tasks[t].req
            && (s'.tasks[t].pc == Failed(AuditFailed) <==> s.tasks[t].pc == Failed(AuditFailed))
  {
  }

  lemma AuditTells(p: Policy, s: State, t: nat, stored: bool, now: int)
    requires AuditsOk(p, s) && t in s.tasks && s.tasks[t].pc.Written? && s.tasks[t].wrote.Some?
    ensures var s' := DoAudit(p, s, t, stored, now);
            && (t in s'.auditors <==> stored) && t !in s.auditors && Told(s', t)
  {
    forall i | 0 <= i < |s.audits| ensures s.auditors[i] != t { assert AuditOk(p, s, i); }
    if stored { assert DoAudit(p, s, t, stored, now).auditors[|s.auditors|] == t; }
  }

  lemma {:induction false} RunTells(p: Policy, s: State, steps: seq<Step>, t: nat)
    requires Inv(p, s) && Told(s, t)
    ensures Told(Run(p, s, steps), t)
  {
    if steps != [] {
      var front := steps[..|steps| - 1];
      RunTells(p, s, front, t);
      RunKeeps(p, s, front);
      StepTells(p, Run(p, s, front), steps[|steps| - 1], t);
    }
  }

  /** A committed transition or deletion can lack its audit entry, but its client is told: the entry
      exists if and only if the answer is not the audit failure. */
  lemma AnswerTellsAudit(p: Policy, s: State, t: nat)
    requires Reachable(p, s) && t in s.tasks && s.tasks[t].wrote.Some? && !s.tasks[t].pc.Written?
    requires s.tasks[t].req.op.Transition? || s.tasks[t].req.op.Delete?
    ensures t in s.auditors <==> s.tasks[t].pc != Failed(AuditFailed)
  {
    var start: State, steps: seq<Step> :| Start(p, start) && s == Run(p, start, steps);
    RunTells(p, start, steps, t);
  }

  /** The audit log apart, two states are the same. */
  ghost predicate SameButAudits(a: State, b: State) {
    a == b.(audits := a.audits, auditors := a.auditors)
  }

  /** Task `t` has its audit attempt behind it: `stored` in one state and lost in the other. */
  ghost predicate Apart(a: State, b: State, t: nat) {
    SameButAudits(a, b) && PastAudit(b, t) && t in a.auditors && t !in b.auditors
  }

  lemma StepIgnoresAudits(p: Policy, a: State, b: State, step: Step)
    requires SameButAudits(a, b)
    ensures SameButAudits(Do(p, a, step), Do(p, b, step))
  {
  }

  lemma StepKeepsApart(p: Policy, a: State, b: State, t: nat, step: Step)
    requires Apart(a, b, t)
    ensures Apart(Do(p, a, step), Do(p, b, step), t)
  {
    StepIgnoresAudits(p, a, b, step);
    StepKeepsAttempt(p, a, step, t);
    StepKeepsAttempt(p, b, step, t);
  }

  lemma {:induction false} RunKeepsApart(p: Policy, a: State, b: State, t: nat, steps: seq<Step>)
    requires Apart(a, b, t)
    ensures Apart(Run(p, a, steps), Run(p, b, steps), t)
  {
    if steps != [] {
      var front := steps[..|steps| - 1];
      RunKeepsApart(p, a, b, t, front);
      StepKeepsApart(p, Run(p, a, front), Run(p, b, front), t, steps[|steps| - 1]);
    }
  }

  /** The client of a creation or an update is never told: whether its entry was stored or lost, every
      continuation gives every client the same answers and leaves the same tables. */
  lemma {:induction false} AnswerHidesAudit(p: Policy, s: State, t: nat, now: int, steps: seq<Step>)
    requires Reachable(p, s) && t in s.tasks && s.tasks[t].pc.Written?
    requires s.tasks[t].req.op.Create? || s.tasks[t].req.op.Update?
    ensures var kept := Run(p, Do(p, s, Audit(t, true, now)), steps);
            var lost := Run(p, Do(p, s, Audit(t, false, now)), steps);
            kept.tasks == lost.tasks && kept.db == lost.db && t in kept.auditors && t !in lost.auditors
  {
    ReachableInv(p, s);
    assert TaskOk(p, s, t);
    var kept, lost := Do(p, s, Audit(t, true, now)), Do(p, s, Audit(t, false, now));
    AuditTells(p, s, t, true, now);
    RunKeepsApart(p, kept, lost, t, steps);
  }

  // ---- deletion ----

  /** A deleted record is frozen: no continuation changes its row or its revisions, and its code
      stays taken for ever. */
  lemma {:induction false} DeletedForever(p: Policy, s: State, steps: seq<Step>, id: nat)
    requires Reachable(p, s) && id in s.db.rows && s.db.rows[id].deleted
    ensures var s' := Run(p, s, steps);
            && id in s'.db.rows && s'.db.rows[id] == s.db.rows[id]
            && RevisionsOf(s'.db, id) == RevisionsOf(s.db, id)
            && forall u, draft: Draft, now :: draft.item.code == s.db.rows[id].code ==>
                 InsertRow(s'.db, u, draft, now) == Err(Rejected)
  {
    ReachableInv(p, s);
    RunKeeps(p, s, steps);
    var s' := Run(p, s, steps);
    assert GrowsAt(s, s', id) && RecordOk(p, s.db, s.hist, id) && RecordOk(p, s'.db, s'.hist, id);
    assert CodeTaken(s'.db, s.db.rows[id].code);
  }

  /** What an interleaved deletion of a decision guarantees: it was draft when it was read. The row
      removed is the row read exactly when its version had not moved in between. */
  lemma DeletedWasDraftWhenRead(p: Policy, s: State, t: nat)
    requires Reachable(p, s) && p.reviewed
    requires t in s.tasks && s.tasks[t].req.op.Delete? && s.tasks[t].wrote.Some?
    ensures s.tasks[t].seen.Some?
    ensures var seen, gone := s.tasks[t].seen.value, s.tasks[t].wrote.value;
            && seen.status == p.initial && !seen.deleted && gone.deleted
            && gone.id == seen.id && gone.version >= seen.version
            && (gone.version == seen.version <==> gone.(deleted := false) == seen)
  {
    ReachableInv(p, s);
    assert TaskOk(p, s, t);
    var seen := s.tasks[t].seen.value;
    StoredIsPast(p, s, seen.id);
    assert RecordOk(p, s.db, s.hist, seen.id) && EntryOk(p, seen.id, s.hist[seen.id], seen.version - 1);
  }
}
