/** How far the guarantees reach: a request whose ExpectedVersion runs ahead of the row it read can
    overwrite a row that it never checked, and the guard `ExpectedVersion <= version read` is exactly
    what rules this out. */
module Boundary {
  import opened Basics
  import opened Statuses
  import opened Records
  import opened Tables
  import opened Protocol
  import opened Invariant
  import opened ObservedVersions
  import opened Guarantees

  // ---- other clients can always push a record forward ----

  lemma {:induction false} FreshTask(used: set<nat>) returns (u: nat)
    ensures forall k :: k in used ==> k < u
  {
    u := 0;
    if used != {} {
      var k :| k in used;
      u := FreshTask(used - {k});
      if u <= k { u := k + 1; }
      assert forall j :: j in used ==> j == k || j in used - {k};
    }
  }

  /** `later` continues `s` while `t` waits, with the record one version on, same status or `status`. */
  ghost predicate Pushed(p: Policy, s: State, later: State, t: nat, id: nat, gap: nat, status: string) {
    && Inv(p, later)
    && t in s.tasks && t in later.tasks && later.tasks[t] == s.tasks[t]
    && id in s.db.rows && id in later.db.rows && !later.db.rows[id].deleted
    && later.db.rows[id].version == s.db.rows[id].version + gap
    && later.db.rows[id].status == status
    && later.db.rows[id].code == s.db.rows[id].code && later.db.rows[id].preparedBy == s.db.rows[id].preparedBy
  }

  /** A newcomer's request, run without interruption up to its commit. */
  lemma Push(p: Policy, s: State, t: nat, req: Request) returns (steps: seq<Step>)
    requires Inv(p, s) && t in s.tasks && req.IsChange() && Find(s.db, req.id).Some?
    requires req.op.expected == s.db.rows[req.id].version && req.op.expected + 1 < VERSION_LIMIT
    requires Prepare(p, s.db.rows[req.id], req, 0).Ok?
    ensures Pushed(p, s, Run(p, s, steps), t, req.id, 1, Prepare(p, s.db.rows[req.id], req, 0).value.item.status)
    ensures Observed(s) ==> Observed(Run(p, s, steps))
  {
    var u := FreshTask(s.tasks.Keys);
    var id := req.id;
    steps := [Arrive(u, req), Read(u, 0), Commit(u, 0)];
    RunThree(p, s, steps[0], steps[1], steps[2]);
    RunKeeps(p, s, steps);
    var s1 := Do(p, s, steps[0]);
    var s2 := Do(p, s1, steps[1]);
    assert s2.tasks[u] == Task(req, Prepared, 0, Some(s.db.rows[id]), None);
    StepKeeps(p, s, steps[0]);
    ChangeAppends(p, s2, u, 0);
    assert RecordOk(p, s.db, s.hist, id);
  }

  lemma {:induction false} PushTo(p: Policy, s: State, t: nat, id: nat, gap: nat) returns (steps: seq<Step>)
    requires Reachable(p, s) && t in s.tasks && Find(s.db, id).Some? && s.db.rows[id].version + gap < VERSION_LIMIT
    requires p.reviewed ==> s.db.rows[id].status == p.initial
    ensures Pushed(p, s, Run(p, s, steps), t, id, gap, s.db.rows[id].status)
    ensures Observed(s) ==> Observed(Run(p, s, steps))
    decreases gap
  {
    ReachableInv(p, s);
    if gap == 0 {
      steps := [];
    } else {
      var row := s.db.rows[id];
      StoredIsPast(p, s, id);
      VersionsStayValid(p, s, id, row.version - 1);
      var first := Push(p, s, t, Request(Update(row.version, row.fields), id, Caller(row.preparedBy, "", "")));
      ReachableOnwards(p, s, first);
      var rest := PushTo(p, Run(p, s, first), t, id, gap - 1);
      steps := first + rest;
      RunConcat(p, s, first, rest);
    }
  }

  // ---- exactly when a prepared change can miss its mark ----

  /** After `steps`, `t` is about to overwrite a row other than the one it checked. */
  ghost predicate WouldOverwriteUnseen(p: Policy, s: State, steps: seq<Step>, t: nat) {
    var end := Run(p, s, steps);
    Hits(p, end, t) && Find(end.db, end.tasks[t].req.id) != end.tasks[t].seen
  }

  /** `t` has just been prepared: it is a change, and the row it read is still current. */
  ghost predicate JustPrepared(p: Policy, s: State, t: nat) {
    && t in s.tasks && s.tasks[t].pc.Prepared? && s.tasks[t].req.IsChange() && s.tasks[t].seen.Some?
    && Find(s.db, s.tasks[t].req.id) == s.tasks[t].seen
  }

  lemma UnseenNeedsLead(p: Policy, s: State, steps: seq<Step>, t: nat)
    requires Inv(p, s) && t in s.tasks && s.tasks[t].seen.Some? && s.tasks[t].req.IsChange()
    requires WouldOverwriteUnseen(p, s, steps, t)
    ensures s.tasks[t].seen.value.version < s.tasks[t].req.op.expected
    ensures s.tasks[t].req.op.expected + 1 < VERSION_LIMIT
  {
    var end := Run(p, s, steps);
    RunKeeps(p, s, steps);
    RunRemembers(p, s, steps, t);
    if s.tasks[t].req.op.expected <= s.tasks[t].seen.value.version {
      NoAba(p, end, t);
    }
    assert RecordOk(p, end.db, end.hist, end.tasks[t].req.id);
  }

  /** Once others have pushed the record to the version that `t` expects, `t` would commit. */
  lemma PushedHits(p: Policy, s: State, later: State, t: nat, status: string)
    requires JustPrepared(p, s, t) && s.tasks[t].seen.value.id == s.tasks[t].req.id
    requires s.tasks[t].seen.value.version < s.tasks[t].req.op.expected < VERSION_LIMIT - 1
    requires var req := s.tasks[t].req;
             Pushed(p, s, later, t, req.id, req.op.expected - s.tasks[t].seen.value.version, status)
    ensures Hits(p, later, t) && Find(later.db, later.tasks[t].req.id) != later.tasks[t].seen
    ensures later.tasks[t].req == s.tasks[t].req
  {
  }

  lemma LeadReachesUnseen(p: Policy, s: State, t: nat) returns (steps: seq<Step>)
    requires Reachable(p, s) && JustPrepared(p, s, t)
    requires p.reviewed ==> s.tasks[t].seen.value.status == p.initial
    requires s.tasks[t].seen.value.version < s.tasks[t].req.op.expected
    requires s.tasks[t].req.op.expected + 1 < VERSION_LIMIT
    ensures WouldOverwriteUnseen(p, s, steps, t)
  {
    ReachableInv(p, s);
    var seen := s.tasks[t].seen.value;
    assert TaskOk(p, s, t);
    steps := PushTo(p, s, t, seen.id, s.tasks[t].req.op.expected - seen.version);
    PushedHits(p, s, Run(p, s, steps), t, seen.status);
  }

  /** Exact boundary of the optimistic lock, for every aggregate: other requests can make a prepared
      change overwrite a row that it did not check if and only if its ExpectedVersion is ahead of
      the version it read (and still storable). */
  lemma OverwritesUnseenIffAhead(p: Policy, s: State, t: nat)
    requires Reachable(p, s) && JustPrepared(p, s, t)
    requires p.reviewed ==> s.tasks[t].seen.value.status == p.initial
    ensures (exists steps :: WouldOverwriteUnseen(p, s, steps, t)) <==>
            s.tasks[t].seen.value.version < s.tasks[t].req.op.expected < VERSION_LIMIT - 1
  {
    ReachableInv(p, s);
    if steps :| WouldOverwriteUnseen(p, s, steps, t) {
      UnseenNeedsLead(p, s, steps, t);
    }
    if s.tasks[t].seen.value.version < s.tasks[t].req.op.expected < VERSION_LIMIT - 1 {
      var steps := LeadReachesUnseen(p, s, t);
    }
  }

  // ---- exactly when a priority level can be overwritten ----

  /** After `steps`, `t` is about to overwrite a decision that already has its priority level. */
  ghost predicate WouldOverwriteLevel(s: State, steps: seq<Step>, t: nat) {
    var end := Run(DECISION, s, steps);
    Hits(DECISION, end, t) && end.db.rows[end.tasks[t].req.id].status != "draft"
  }

  lemma PreparedSawDraft(s: State, t: nat)
    requires Inv(DECISION, s) && t in s.tasks && s.tasks[t].seen.Some?
    ensures s.tasks[t].seen.value.status == "draft"
  {
    assert TaskOk(DECISION, s, t);
    var req := s.tasks[t].req;
    if req.op.Transition? {
      DecisionMoves(s.tasks[t].seen.value.status, req.op.target);
    }
  }

  /** Moves the decision to a priority level with one independent review. */
  lemma {:induction false} Finalise(s: State, t: nat, id: nat) returns (steps: seq<Step>)
    requires Inv(DECISION, s) && t in s.tasks && Find(s.db, id).Some? && s.db.rows[id].status == "draft"
    requires s.db.rows[id].version + 1 < VERSION_LIMIT
    ensures Pushed(DECISION, s, Run(DECISION, s, steps), t, id, 1, "observe")
    ensures Observed(s) ==> Observed(Run(DECISION, s, steps))
  {
    var row := s.db.rows[id];
    var reviewer := row.preparedBy + "'s reviewer";
    assert |reviewer| > |row.preparedBy|;
    DecisionMoves("draft", "observe");
    var review := Request(Transition(row.version, "observe", "", ""), id, Caller(reviewer, REVIEWER, ""));
    steps := Push(DECISION, s, t, review);
  }

  lemma LeadReachesLevel(s: State, t: nat) returns (steps: seq<Step>)
    requires Reachable(DECISION, s) && JustPrepared(DECISION, s, t)
    requires s.tasks[t].seen.value.version < s.tasks[t].req.op.expected
    requires s.tasks[t].req.op.expected + 1 < VERSION_LIMIT
    ensures WouldOverwriteLevel(s, steps, t)
  {
    ReachableInv(DECISION, s);
    PreparedSawDraft(s, t);
    assert TaskOk(DECISION, s, t);
    var seen := s.tasks[t].seen.value;
    steps := PushToLevel(s, t, seen.id, s.tasks[t].req.op.expected - seen.version);
    PushedHits(DECISION, s, Run(DECISION, s, steps), t, "observe");
  }

  lemma {:induction false} PushToLevel(s: State, t: nat, id: nat, gap: nat) returns (steps: seq<Step>)
    requires Reachable(DECISION, s) && t in s.tasks && Find(s.db, id).Some? && s.db.rows[id].status == "draft"
    requires 1 <= gap && s.db.rows[id].version + gap < VERSION_LIMIT
    ensures Pushed(DECISION, s, Run(DECISION, s, steps), t, id, gap, "observe")
  {
    var first := PushTo(DECISION, s, t, id, gap - 1);
    var last := Finalise(Run(DECISION, s, first), t, id);
    steps := first + last;
    RunConcat(DECISION, s, first, last);
  }

  /** Exact boundary of finality: a prepared update or transition can be made to overwrite a decision
      that has been finalised if and only if its ExpectedVersion is ahead of the version it read. */
  lemma FinalityBreaksIffAhead(s: State, t: nat)
    requires Reachable(DECISION, s) && JustPrepared(DECISION, s, t)
    ensures (exists steps :: WouldOverwriteLevel(s, steps, t)) <==>
            s.tasks[t].seen.value.version < s.tasks[t].req.op.expected < VERSION_LIMIT - 1
  {
    ReachableInv(DECISION, s);
    PreparedSawDraft(s, t);
    if steps :| WouldOverwriteLevel(s, steps, t) {
      RunRemembers(DECISION, s, steps, t);
      assert WouldOverwriteUnseen(DECISION, s, steps, t);
      UnseenNeedsLead(DECISION, s, steps, t);
    }
    if s.tasks[t].seen.value.version < s.tasks[t].req.op.expected < VERSION_LIMIT - 1 {
      var steps := LeadReachesLevel(s, t);
    }
  }

  // ---- exactly when a deletion can remove a row that it did not read ----

  /** After `steps`, in which clients name only versions they have seen if they did so before, the
      deletion `t` is about to remove a row other than the one it read. */
  ghost predicate WouldRemoveUnseen(p: Policy, s: State, steps: seq<Step>, t: nat) {
    var end := Run(p, s, steps);
    && (Observed(s) ==> Observed(end))
    && t in end.tasks && end.tasks[t].pc.Prepared? && end.tasks[t].req.op.Delete?
    && Find(end.db, end.tasks[t].req.id).Some? && Find(end.db, end.tasks[t].req.id) != end.tasks[t].seen
  }

  /** The record is there, and has moved on since the deletion read it or has a version left to. */
  ghost predicate UnseenInReach(s: State, t: nat)
    requires t in s.tasks
  {
    var found := Find(s.db, s.tasks[t].req.id);
    found.Some? && (found == s.tasks[t].seen ==> found.value.version + 1 < VERSION_LIMIT)
  }

  lemma RemovalNeedsUnseen(p: Policy, s: State, steps: seq<Step>, t: nat)
    requires Inv(p, s) && t in s.tasks && s.tasks[t].seen.Some? && WouldRemoveUnseen(p, s, steps, t)
    ensures UnseenInReach(s, t)
  {
    var id, end := s.tasks[t].req.id, Run(p, s, steps);
    RunKeeps(p, s, steps);
    RunRemembers(p, s, steps, t);
    assert TaskOk(p, s, t);
    assert GrowsAt(s, end, id);
    assert RecordOk(p, s.db, s.hist, id) && RecordOk(p, end.db, end.hist, id);
  }

  /** Exact boundary of the unversioned deletion, for every aggregate: a deletion that has passed its
      checks can still remove a row that it did not read if and only if the record has moved on
      already or has a version left to move on to, whatever care clients take. */
  lemma DeletionMayRemoveUnseen(p: Policy, s: State, t: nat)
    requires Reachable(p, s) && t in s.tasks && s.tasks[t].pc.Prepared? && s.tasks[t].req.op.Delete?
    ensures (exists steps :: WouldRemoveUnseen(p, s, steps, t)) <==> UnseenInReach(s, t)
  {
    ReachableInv(p, s);
    assert TaskOk(p, s, t);
    var id := s.tasks[t].req.id;
    if steps :| WouldRemoveUnseen(p, s, steps, t) {
      RemovalNeedsUnseen(p, s, steps, t);
    }
    if UnseenInReach(s, t) {
      if Find(s.db, id) == s.tasks[t].seen {
        var steps := PushTo(p, s, t, id, 1);
        assert WouldRemoveUnseen(p, s, steps, t);
      } else {
        assert WouldRemoveUnseen(p, s, [], t);
      }
    }
  }

  // ---- exactly when a deletion can remove a priority level ----

  /** After `steps`, in which clients name only versions they have seen if they did so before, the
      deletion `t` is about to remove a decision that already has its priority level. */
  ghost predicate WouldRemoveLevel(s: State, steps: seq<Step>, t: nat) {
    var end := Run(DECISION, s, steps);
    && (Observed(s) ==> Observed(end))
    && t in end.tasks && end.tasks[t].pc.Prepared? && end.tasks[t].req.op.Delete?
    && Find(end.db, end.tasks[t].req.id).Some? && end.db.rows[end.tasks[t].req.id].status != "draft"
  }

  /** The deletion's decision is there, and has its level already or a version left for getting one. */
  predicate LevelInReach(db: Db, id: nat) {
    Find(db, id).Some? && (db.rows[id].status == "draft" ==> db.rows[id].version + 1 < VERSION_LIMIT)
  }

  lemma RemovalNeedsReach(s: State, steps: seq<Step>, t: nat)
    requires Inv(DECISION, s) && t in s.tasks && s.tasks[t].seen.Some? && WouldRemoveLevel(s, steps, t)
    ensures LevelInReach(s.db, s.tasks[t].req.id)
  {
    var id, end := s.tasks[t].req.id, Run(DECISION, s, steps);
    RunKeeps(DECISION, s, steps);
    RunRemembers(DECISION, s, steps, t);
    assert TaskOk(DECISION, s, t);
    assert GrowsAt(s, end, id);
    assert RecordOk(DECISION, s.db, s.hist, id) && RecordOk(DECISION, end.db, end.hist, id);
  }

  /** Exact boundary of "only drafts are deleted": a deletion that has passed its check can still
      remove a priority level if and only if the decision has one or has a version left for one. No
      version that clients send, and no care on their side, prevents it. */
  lemma DeletionMayRemoveLevel(s: State, t: nat)
    requires Reachable(DECISION, s) && t in s.tasks && s.tasks[t].pc.Prepared? && s.tasks[t].req.op.Delete?
    ensures (exists steps :: WouldRemoveLevel(s, steps, t)) <==> LevelInReach(s.db, s.tasks[t].req.id)
  {
    ReachableInv(DECISION, s);
    assert TaskOk(DECISION, s, t);
    var id := s.tasks[t].req.id;
    if steps :| WouldRemoveLevel(s, steps, t) {
      RemovalNeedsReach(s, steps, t);
    }
    if LevelInReach(s.db, id) {
      if s.db.rows[id].status == "draft" {
        var steps := Finalise(s, t, id);
        assert WouldRemoveLevel(s, steps, t);
      } else {
        assert WouldRemoveLevel(s, [], t);
      }
    }
  }
}
