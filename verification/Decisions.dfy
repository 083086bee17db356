/** Priority decisions when every client sends a version it has seen. */
module Decisions {
  import opened Statuses
  import opened Records
  import opened Tables
  import opened Protocol
  import opened Invariant
  import opened ObservedVersions

  lemma ObservedRunFacts(p: Policy, start: State, steps: seq<Step>)
    requires ObservedRun(p, start, steps)
    ensures Inv(p, Run(p, start, steps)) && Stacked(Run(p, start, steps))
  {
    RunSequential(p, start, steps);
    RunKeeps(p, start, steps);
  }

  /** Entry `k` replaced a draft, and a non-draft entry moved it without touching anything else. */
  lemma EntryReplacesDraft(s: State, id: nat, k: nat)
    requires Inv(DECISION, s) && Stacked(s) && id in s.hist && 0 < k < |s.hist[id]|
    ensures var h := s.hist[id];
            && h[k - 1].row.status == "draft"
            && (h[k].row.status == "draft" || IsPriorityLevel(h[k].row.status))
            && (h[k].row.status != "draft" ==>
                  h[k].act.Moved? && h[k].row.fields == h[k - 1].row.fields)
  {
    var h := s.hist[id];
    assert RecordOk(DECISION, s.db, s.hist, id);
    assert EntryOk(DECISION, id, h, k) && OnPrevious(h, k);
    DecisionMoves(h[k].basis.status, h[k].row.status);
  }

  /** Finality over whole runs: a decision's revisions are drafts, followed by at most one that sets
      a priority level, which is then the last. */
  lemma DraftsThenOneLevel(start: State, steps: seq<Step>, id: nat)
    requires ObservedRun(DECISION, start, steps) && id in Run(DECISION, start, steps).db.rows
    ensures var s := Run(DECISION, start, steps);
            var revs := RevisionsOf(s.db, id);
            && |revs| == s.db.rows[id].version >= 1
            && (forall k :: 0 <= k < |revs| - 1 ==> revs[k].status == "draft")
            && revs[|revs| - 1].status == s.db.rows[id].status
            && (s.db.rows[id].status == "draft" || IsPriorityLevel(s.db.rows[id].status))
  {
    ObservedRunFacts(DECISION, start, steps);
    var s := Run(DECISION, start, steps);
    var revs, h := RevisionsOf(s.db, id), s.hist[id];
    assert RecordOk(DECISION, s.db, s.hist, id);
    forall k | 0 <= k < |revs| - 1 ensures revs[k].status == "draft" { ReplacedWasDraft(s, id, k); }
    assert MirrorAt(revs, h, |h| - 1);
    LastEntryStatus(s, id);
  }

  lemma ReplacedWasDraft(s: State, id: nat, k: nat)
    requires Inv(DECISION, s) && Stacked(s) && id in s.db.rows && k + 1 < |RevisionsOf(s.db, id)|
    ensures RevisionsOf(s.db, id)[k].status == "draft"
  {
    assert RecordOk(DECISION, s.db, s.hist, id);
    assert MirrorAt(RevisionsOf(s.db, id), s.hist[id], k);
    EntryReplacesDraft(s, id, k + 1);
  }

  lemma LastEntryStatus(s: State, id: nat)
    requires Inv(DECISION, s) && Stacked(s) && id in s.hist && |s.hist[id]| > 0
    ensures var row := s.hist[id][|s.hist[id]| - 1].row; row.status == "draft" || IsPriorityLevel(row.status)
  {
    var h := s.hist[id];
    if |h| > 1 {
      EntryReplacesDraft(s, id, |h| - 1);
    } else {
      assert RecordOk(DECISION, s.db, s.hist, id);
      assert EntryOk(DECISION, id, h, 0);
    }
  }

  /** Once a decision has a priority level, no update and no transition of any client changes its
      fields, status, version or revisions for the rest of the run. */
  lemma LevelsAreFinal(start: State, before: seq<Step>, after: seq<Step>, id: nat)
    requires ObservedRun(DECISION, start, before + after)
    requires id in Run(DECISION, start, before).db.rows
    requires Run(DECISION, start, before).db.rows[id].status != "draft"
    ensures var s, s' := Run(DECISION, start, before), Run(DECISION, start, before + after);
            && id in s'.db.rows
            && s'.db.rows[id].(deleted := false) == s.db.rows[id].(deleted := false)
            && RevisionsOf(s'.db, id) == RevisionsOf(s.db, id)
  {
    var s, s' := Run(DECISION, start, before), Run(DECISION, start, before + after);
    RunConcat(DECISION, start, before, after);
    RunKeeps(DECISION, start, before);
    RunKeeps(DECISION, s, after);
    ObservedRunFacts(DECISION, start, before + after);
    assert GrowsAt(s, s', id);
    assert RecordOk(DECISION, s.db, s.hist, id) && RecordOk(DECISION, s'.db, s'.hist, id);
    var h, h' := s.hist[id], s'.hist[id];
    assert h'[|h| - 1] == h[|h| - 1];
    if |h'| > |h| {
      EntryReplacesDraft(s', id, |h|);
    }
    assert h == h';
  }

  /** Equal up to what finalisation may change. */
  ghost predicate SameSubject(a: Row, b: Row) {
    a.code == b.code && a.preparedBy == b.preparedBy && a.fields == b.fields
  }

  ghost predicate SnapshotShows(rev: Revision, row: Row) {
    rev.snapshot.Full? && SameSubject(rev.snapshot.row, row)
  }

  /** The reviewer finalises exactly what was reviewed: the final version repeats the content of the
      version before it, which is a draft, and the snapshots that requests wrote show that content. */
  lemma FinalRepeatsLastDraft(start: State, steps: seq<Step>, id: nat, k: nat)
    requires ObservedRun(DECISION, start, steps) && id in Run(DECISION, start, steps).db.rows
    requires 0 < k < |RevisionsOf(Run(DECISION, start, steps).db, id)|
    requires RevisionsOf(Run(DECISION, start, steps).db, id)[k].status != "draft"
    ensures var s := Run(DECISION, start, steps);
            var revs := RevisionsOf(s.db, id);
            && revs[k - 1].status == "draft" && revs[k].evidence == revs[k - 1].evidence
            && id in s.hist && k < |s.hist[id]| && SameSubject(s.hist[id][k].row, s.hist[id][k - 1].row)
            && (s.hist[id][k].task.Some? ==> SnapshotShows(revs[k], s.hist[id][k - 1].row))
            && (s.hist[id][k - 1].task.Some? ==> SnapshotShows(revs[k - 1], s.hist[id][k - 1].row))
  {
    ObservedRunFacts(DECISION, start, steps);
    var s := Run(DECISION, start, steps);
    var revs, h := RevisionsOf(s.db, id), s.hist[id];
    assert RecordOk(DECISION, s.db, s.hist, id);
    assert MirrorAt(revs, h, k) && MirrorAt(revs, h, k - 1);
    EntryReplacesDraft(s, id, k);
    assert EntryOk(DECISION, id, h, k) && EntryOk(DECISION, id, h, k - 1);
  }

  /** And whoever wrote it asked for a transition, expected the version of that last draft, and had
      read precisely that draft. */
  lemma FinaliserReadLastDraft(start: State, steps: seq<Step>, id: nat, t: nat)
    requires ObservedRun(DECISION, start, steps)
    requires var s := Run(DECISION, start, steps);
             && CommittedChangeOf(s, t, id) && s.tasks[t].wrote.value.status != "draft"
    ensures var s := Run(DECISION, start, steps);
            && s.tasks[t].req.op.Transition? && s.tasks[t].seen.Some? && id in s.hist
            && var revs, h := RevisionsOf(s.db, id), s.hist[id];
               var v, seen := s.tasks[t].req.op.expected, s.tasks[t].seen.value;
               && 1 <= v < |revs| == |h| && revs[v].version == s.tasks[t].wrote.value.version
               && revs[v - 1].status == "draft"
               && seen == h[v - 1].row && seen.version == v && seen.status == "draft"
               && seen.fields.evidence == revs[v - 1].evidence
               && seen.fields == s.tasks[t].wrote.value.fields
  {
    ObservedRunFacts(DECISION, start, steps);
    var s := Run(DECISION, start, steps);
    FinaliserRead(s, id, t);
    var revs, h, v := RevisionsOf(s.db, id), s.hist[id], s.tasks[t].req.op.expected;
    assert RecordOk(DECISION, s.db, s.hist, id);
    assert MirrorAt(revs, h, v) && MirrorAt(revs, h, v - 1);
  }

  lemma FinaliserRead(s: State, id: nat, t: nat)
    requires Inv(DECISION, s) && Stacked(s) && CommittedChangeOf(s, t, id) && s.tasks[t].wrote.value.status != "draft"
    ensures s.tasks[t].req.op.Transition? && s.tasks[t].seen.Some? && id in s.hist
    ensures var h, v, seen := s.hist[id], s.tasks[t].req.op.expected, s.tasks[t].seen.value;
            && 1 <= v < |h| && h[v].row == s.tasks[t].wrote.value && h[v].row.version == v + 1
            && seen == h[v - 1].row && seen.version == v && seen.status == "draft" && seen.fields == h[v].row.fields
  {
    assert TaskOk(DECISION, s, t);
    var h, v := s.hist[id], s.tasks[t].req.op.expected;
    assert RecordOk(DECISION, s.db, s.hist, id);
    assert OnPrevious(h, v) && EntryOk(DECISION, id, h, v - 1);
    EntryReplacesDraft(s, id, v);
  }

  ghost predicate CommittedChangeOf(s: State, t: nat, id: nat) {
    && t in s.tasks && s.tasks[t].req.IsChange() && s.tasks[t].req.id == id && s.tasks[t].wrote.Some?
  }
}
