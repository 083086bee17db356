/** Concrete runs from an empty database that show where the guarantees end. */
module Exhibits {
  import opened Basics
  import opened Statuses
  import opened Records
  import opened Tables
  import opened Protocol
  import opened ObservedVersions

  const PREPARER := Caller("p", "operator", "r")
  const INSPECTOR := Caller("c", "reviewer", "r")
  const TEXT := Fields("x", "x", "x", "x", "x", "low", 0.0, "x", 0, "x", "X")
  const REVIEW := Request(Transition(1, "observe", "why", "why"), 1, INSPECTOR)

  const EMPTY := State(Db(map[], map[]), [], [], map[], map[], [])

  /** The preparer's draft, then request 1 prepared on it, then an independent review, request 2, that
      finalises it. */
  function Finalised(req: Request): seq<Step> {
    [Arrive(0, Request(Create("X", TEXT), 0, PREPARER)), Insert(0, 1, 0, 0), Arrive(1, req)]
    + [Read(1, 0), Arrive(2, REVIEW), Read(2, 0)]
    + [Commit(2, 0)]
  }

  const FIRST := Row(1, "X", "draft", 1, TEXT, "p", 0, 0, false)
  const FINAL := Row(1, "X", "observe", 2, TEXT, "p", 0, 0, false)

  lemma Opening(req: Request)
    requires !req.op.Create? && req.id == 1 && Prepare(DECISION, FIRST, req, 0).Ok?
    ensures var s := Run(DECISION, EMPTY, Finalised(req)[..3]);
            && s.db.rows == map[1 := FIRST] && |RevisionsOf(s.db, 1)| == 1
            && RevisionsOf(s.db, 1)[0].status == "draft" && RevisionsOf(s.db, 1)[0].version == 1
            && s.tasks.Keys == {0, 1} && s.tasks[1] == Task(req, Arrived, 0, None, None) && s.tasks[0].seen == None
            && s.audits == []
  {
    var steps := Finalised(req);
    RunThree(DECISION, EMPTY, steps[0], steps[1], steps[2]);
    assert steps[..3] == [steps[0], steps[1], steps[2]];
    FirstDraft();
  }

  lemma FirstDraft()
    ensures var create := Request(Create("X", TEXT), 0, PREPARER);
            var s := Do(DECISION, Do(DECISION, EMPTY, Arrive(0, create)), Insert(0, 1, 0, 0));
            && s.db.rows == map[1 := FIRST] && |RevisionsOf(s.db, 1)| == 1
            && RevisionsOf(s.db, 1)[0].status == "draft" && RevisionsOf(s.db, 1)[0].version == 1
            && s.tasks.Keys == {0} && s.tasks[0].seen == None && s.audits == []
  {
    assert DECISION.valid("X", TEXT);
  }

  lemma Review(req: Request)
    requires !req.op.Create? && req.id == 1 && Prepare(DECISION, FIRST, req, 0).Ok?
    ensures var s := Run(DECISION, EMPTY, Finalised(req)[..6]);
            && s.db.rows == map[1 := FIRST] && |RevisionsOf(s.db, 1)| == 1
            && RevisionsOf(s.db, 1)[0].status == "draft" && RevisionsOf(s.db, 1)[0].version == 1
            && s.tasks.Keys == {0, 1, 2} && s.tasks[0].seen == None
            && s.tasks[1] == Task(req, Prepared, 0, Some(FIRST), None)
            && s.tasks[2] == Task(REVIEW, Prepared, 0, Some(FIRST), None)
            && s.audits == []
  {
    var steps := Finalised(req);
    var s := Run(DECISION, EMPTY, steps[..3]);
    Opening(req);
    RunConcat(DECISION, EMPTY, steps[..3], steps[3..6]);
    RunThree(DECISION, s, steps[3], steps[4], steps[5]);
    assert steps[..6] == steps[..3] + steps[3..6] && steps[3..6] == [steps[3], steps[4], steps[5]];
    TwoReads(s, req);
  }

  lemma TwoReads(s: State, req: Request)
    requires !req.op.Create? && req.id == 1 && Prepare(DECISION, FIRST, req, 0).Ok?
    requires s.db.rows == map[1 := FIRST] && s.tasks.Keys == {0, 1} && s.tasks[1] == Task(req, Arrived, 0, None, None)
    ensures var s' := Do(DECISION, Do(DECISION, Do(DECISION, s, Read(1, 0)), Arrive(2, REVIEW)), Read(2, 0));
            && s'.db == s.db && s'.audits == s.audits && s'.tasks.Keys == {0, 1, 2} && s'.tasks[0] == s.tasks[0]
            && s'.tasks[1] == Task(req, Prepared, 0, Some(FIRST), None)
            && s'.tasks[2] == Task(REVIEW, Prepared, 0, Some(FIRST), None)
  {
    DecisionMoves("draft", "observe");
    var s1 := Do(DECISION, s, Read(1, 0));
    assert s1 == With(s, 1, Task(req, Prepared, 0, Some(FIRST), None));
    var s2 := Do(DECISION, s1, Arrive(2, REVIEW));
    assert Do(DECISION, s2, Read(2, 0)) == With(s2, 2, Task(REVIEW, Prepared, 0, Some(FIRST), None));
  }

  lemma Finalisation(req: Request)
    requires !req.op.Create? && req.id == 1 && Prepare(DECISION, FIRST, req, 0).Ok?
    ensures var s := Run(DECISION, EMPTY, Finalised(req));
            && s.db.rows == map[1 := FINAL] && |RevisionsOf(s.db, 1)| == 2
            && RevisionsOf(s.db, 1)[1].status == "observe" && RevisionsOf(s.db, 1)[1].version == 2
            && s.tasks.Keys == {0, 1, 2} && s.tasks[0].seen == None
            && s.tasks[1] == Task(req, Prepared, 0, Some(FIRST), None)
            && s.tasks[2] == Task(REVIEW, Written, 0, Some(FIRST), Some(FINAL)) && s.audits == []
  {
    var steps := Finalised(req);
    Review(req);
    RunNext(DECISION, EMPTY, steps[..6], steps[6]);
    assert steps[..6] + [steps[6]] == steps;
    FinalStep(Run(DECISION, EMPTY, steps[..6]));
  }

  /** The review's commit meets the version that it names. */
  lemma FinalStep(s: State)
    requires s.db.rows == map[1 := FIRST] && |RevisionsOf(s.db, 1)| == 1 && RevisionsOf(s.db, 1)[0].version == 1
    requires 2 in s.tasks && s.tasks[2] == Task(REVIEW, Prepared, 0, Some(FIRST), None)
    ensures var s' := Do(DECISION, s, Commit(2, 0));
            && s'.db.rows == map[1 := FINAL] && |RevisionsOf(s'.db, 1)| == 2
            && RevisionsOf(s'.db, 1)[1].status == "observe" && RevisionsOf(s'.db, 1)[1].version == 2
            && s'.tasks.Keys == s.tasks.Keys && s'.tasks[2] == Task(REVIEW, Written, 0, Some(FIRST), Some(FINAL))
            && s'.audits == s.audits
            && (forall t :: t in s.tasks && t != 2 ==> s'.tasks[t] == s.tasks[t])
  {
    DecisionMoves("draft", "observe");
  }

  /** An update that names version 2 while it reads version 1 replaces the final version 2 with a draft:
      every check was made, on a row that was no longer there. */
  lemma StaleDraftReplacesFinal()
    ensures var req := Request(Update(2, TEXT), 1, PREPARER);
            var s := Run(DECISION, EMPTY, Finalised(req) + [Commit(1, 0)]);
            && Rest(DECISION, EMPTY) && !Observed(s)
            && 1 in s.db.rows && s.db.rows[1].status == "draft" && s.db.rows[1].version == 3
            && |RevisionsOf(s.db, 1)| == 3
            && RevisionsOf(s.db, 1)[1].status == "observe" && RevisionsOf(s.db, 1)[2].status == "draft"
  {
    var req := Request(Update(2, TEXT), 1, PREPARER);
    assert DECISION.valid("X", TEXT);
    Finalisation(req);
    RunNext(DECISION, EMPTY, Finalised(req), Commit(1, 0));
    var s7 := Run(DECISION, EMPTY, Finalised(req));
    var s8 := Do(DECISION, s7, Commit(1, 0));
    OverwriteStep(s7, req);
    assert s8.tasks[1].pc == Written;
    assert !SeenCoversExpected(s8.tasks[1]);
  }

  /** Request 1's commit meets the version that it names. */
  lemma OverwriteStep(s: State, req: Request)
    requires req == Request(Update(2, TEXT), 1, PREPARER)
    requires s.db.rows == map[1 := FINAL] && |RevisionsOf(s.db, 1)| == 2 && RevisionsOf(s.db, 1)[1].version == 2
    requires 1 in s.tasks && s.tasks[1] == Task(req, Prepared, 0, Some(FIRST), None)
    ensures var s' := Do(DECISION, s, Commit(1, 0));
            && s'.db.rows.Keys == {1} && s'.db.rows[1].status == "draft" && s'.db.rows[1].version == 3
            && |RevisionsOf(s'.db, 1)| == 3 && RevisionsOf(s'.db, 1)[2].status == "draft"
            && RevisionsOf(s'.db, 1)[1] == RevisionsOf(s.db, 1)[1]
            && s'.tasks.Keys == s.tasks.Keys && s'.tasks[1].pc == Written
            && s'.tasks[1].req == req && s'.tasks[1].seen == Some(FIRST)
  {
    assert DECISION.valid("X", TEXT);
  }

  /** A deletion that was checked against a draft removes a decision that has been finalised since. */
  lemma DeletionRemovesFinal()
    ensures var req := Request(Delete, 1, Caller("a", "admin", "r"));
            var s := Run(DECISION, EMPTY, Finalised(req) + [Commit(1, 0)]);
            && Rest(DECISION, EMPTY) && Observed(s)
            && 1 in s.db.rows && s.db.rows[1].deleted && s.db.rows[1].status == "observe" && s.db.rows[1].version == 2
  {
    var req := Request(Delete, 1, Caller("a", "admin", "r"));
    Finalisation(req);
    RunNext(DECISION, EMPTY, Finalised(req), Commit(1, 0));
    var s7 := Run(DECISION, EMPTY, Finalised(req));
    var s8 := Do(DECISION, s7, Commit(1, 0));
    assert s8.tasks[1].pc == Written;
    forall t | t in s8.tasks ensures SeenCoversExpected(s8.tasks[t]) {
      assert t == 0 || t == 1 || t == 2;
    }
  }

  /** A review that has finalised its decision, and whose audit entry is lost: the status has changed
      and the log is empty. */
  lemma CommitWithoutEntry()
    ensures var req := Request(Delete, 1, Caller("a", "admin", "r"));
            var s := Run(DECISION, EMPTY, Finalised(req) + [Audit(2, false, 0)]);
            && Rest(DECISION, EMPTY) && Observed(s)
            && s.db.rows == map[1 := FINAL] && s.audits == []
            && 2 in s.tasks && s.tasks[2] == Task(REVIEW, Failed(AuditFailed), 0, Some(FIRST), Some(FINAL))
  {
    var req := Request(Delete, 1, Caller("a", "admin", "r"));
    Finalisation(req);
    RunNext(DECISION, EMPTY, Finalised(req), Audit(2, false, 0));
    var s := Run(DECISION, EMPTY, Finalised(req) + [Audit(2, false, 0)]);
    forall t | t in s.tasks ensures SeenCoversExpected(s.tasks[t]) {
      assert t == 0 || t == 1 || t == 2;
    }
  }
}
