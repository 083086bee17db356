/** Whole service calls with nothing in between, as functions: what the service methods compute and
    what an uninterrupted task of the protocol does. */
module Serving {
  import opened Basics
  import opened Records
  import opened Tables
  import opened Protocol
  import opened Invariant

  /** One aggregate's tables and its audit log. */
  datatype World = World(db: Db, audits: seq<AuditLog>)

  /** The clock readings of a call: while preparing, at the database write, and in the audit entry. */
  datatype Clock = Clock(at: int, now: int, audited: int)

  /** Which of a call's storage accesses succeed. */
  datatype Storage = Storage(read: bool, write: bool, audit: bool, reread: bool)

  datatype Reply = Reply(row: Row, revisions: seq<Revision>)

  function KeyOf(req: Request, id: nat): nat {
    if req.op.Create? then id else req.id
  }

  /** Read, check and write; `id` is the key that an insertion would get. */
  function Write(p: Policy, db: Db, req: Request, id: nat, clock: Clock, up: Storage): Result<Db> {
    if req.op.Create? then
      match PrepareCreate(p, req.op.code, req.op.fields, req.caller, clock.at)
      case Err(e) => Err(e)
      case Ok(draft) => if up.write then InsertRow(db, id, draft, clock.now) else Err(Unavailable)
    else if !up.read then Err(Unavailable)
    else
      match Find(db, req.id)
      case None => Err(NotFound)
      case Some(row) =>
        match Prepare(p, row, req, clock.at)
        case Err(e) => Err(e)
        case Ok(draft) =>
          if !up.write then Err(Unavailable)
          else if req.op.Delete? then SoftDelete(db, req.id)
          else CompareAndSet(db, req.id, req.op.expected, draft, clock.now)
  }

  /** The answer once the write is committed: a lost audit entry fails transitions and deletions. */
  function Answer(p: Policy, db: Db, req: Request, id: nat, up: Storage): Result<Reply>
    requires KeyOf(req, id) in db.rows
  {
    var row := db.rows[KeyOf(req, id)];
    if !up.audit && (req.op.Transition? || req.op.Delete?) then Err(AuditFailed)
    else if req.op.Delete? || (req.op.Create? && !p.reviewed) then Ok(Reply(row, []))
    else if !up.reread then Err(Unavailable)
    else Ok(Reply(row, if p.reviewed then RevisionsOf(db, row.id) else []))
  }

  lemma WriteKeepsKey(p: Policy, db: Db, req: Request, id: nat, clock: Clock, up: Storage)
    requires Write(p, db, req, id, clock, up).Ok?
    ensures KeyOf(req, id) in Write(p, db, req, id, clock, up).value.rows
    ensures db.rows.Keys <= Write(p, db, req, id, clock, up).value.rows.Keys
  {
  }

  function Handle(p: Policy, w: World, req: Request, id: nat, clock: Clock, up: Storage): (World, Result<Reply>) {
    match Write(p, w.db, req, id, clock, up)
    case Err(e) => (w, Err(e))
    case Ok(db) =>
      WriteKeepsKey(p, w.db, req, id, clock, up);
      var seen := if req.op.Create? then None else Find(w.db, req.id);
      var entry := AuditFor(p, req, seen, db.rows[KeyOf(req, id)], clock.audited);
      (World(db, if up.audit then w.audits + [entry] else w.audits), Answer(p, db, req, id, up))
  }

  // ---- the protocol and the calls agree ----

  /** Task `t` from arrival to commit, or to its failure. A step that a request does not need is one
      that changes nothing for it. */
  function WriteSteps(p: Policy, t: nat, req: Request, id: nat, clock: Clock, up: Storage): seq<Step> {
    var first :=
      if req.op.Create? then
        if up.write || !p.valid(req.op.code, req.op.fields) then Insert(t, id, clock.at, clock.now) else Fault(t)
      else if up.read then Read(t, clock.at) else Fault(t);
    [Arrive(t, req), first, if up.write then Commit(t, clock.now) else Fault(t)]
  }

  function AnswerSteps(t: nat, clock: Clock, up: Storage): seq<Step> {
    [Audit(t, up.audit, clock.audited), if up.reread then Reread(t) else Fault(t), Preload(t)]
  }

  /** What a task that has ended tells its client. */
  function Outcome(task: Task): Result<Reply> {
    match task.pc
    case Done(row, revs) => Ok(Reply(row, revs))
    case Closed => if task.wrote.Some? then Ok(Reply(task.wrote.value, [])) else Err(NotFound)
    case Failed(e) => Err(e)
    case _ => Err(Unavailable)
  }

  ghost predicate WriteDone(p: Policy, s: State, s': State, t: nat, req: Request, id: nat, clock: Clock, up: Storage) {
    && t in s'.tasks && s'.audits == s.audits && s'.tasks[t].req == req
    && match Write(p, s.db, req, id, clock, up)
       case Err(e) => s'.db == s.db && s'.tasks[t].pc == Failed(e)
       case Ok(db) =>
         && s'.db == db && s'.tasks[t].pc == Written
         && KeyOf(req, id) in db.rows && s'.tasks[t].wrote == Some(db.rows[KeyOf(req, id)])
         && s'.tasks[t].seen == (if req.op.Create? then None else Find(s.db, req.id))
  }

  lemma SoloCreate(p: Policy, s: State, t: nat, req: Request, id: nat, clock: Clock, up: Storage)
    requires t in s.tasks && s.tasks[t] == Task(req, Arrived, 0, None, None) && req.op.Create?
    ensures var steps := WriteSteps(p, t, req, id, clock, up);
            WriteDone(p, s, Do(p, Do(p, s, steps[1]), steps[2]), t, req, id, clock, up)
  {
    var steps := WriteSteps(p, t, req, id, clock, up);
    var s2 := Do(p, s, steps[1]);
    assert Do(p, s2, steps[2]) == s2;
  }

  lemma SoloRead(p: Policy, s: State, t: nat, req: Request, id: nat, clock: Clock, up: Storage)
    requires t in s.tasks && s.tasks[t] == Task(req, Arrived, 0, None, None) && !req.op.Create?
    ensures var s' := Do(p, s, WriteSteps(p, t, req, id, clock, up)[1]);
            var found := Find(s.db, req.id);
            var pc := if !up.read then Failed(Unavailable)
                      else if found.None? then Failed(NotFound)
                      else if Prepare(p, found.value, req, clock.at).Err? then
                        Failed(Prepare(p, found.value, req, clock.at).error)
                      else Prepared;
            s' == With(s, t, if pc.Failed? then s.tasks[t].(pc := pc) else Task(req, Prepared, clock.at, found, None))
  {
  }

  lemma SoloPut(p: Policy, s: State, t: nat, req: Request, id: nat, clock: Clock, up: Storage)
    requires t in s.tasks && s.tasks[t] == Task(req, Prepared, clock.at, Find(s.db, req.id), None) && !req.op.Create?
    requires Find(s.db, req.id).Some? && Prepare(p, s.db.rows[req.id], req, clock.at).Ok? && up.read
    ensures WriteDone(p, s, Do(p, s, WriteSteps(p, t, req, id, clock, up)[2]), t, req, id, clock, up)
  {
  }

  lemma SoloWrite(p: Policy, s: State, t: nat, req: Request, id: nat, clock: Clock, up: Storage)
    requires t !in s.tasks
    ensures WriteDone(p, s, Run(p, s, WriteSteps(p, t, req, id, clock, up)), t, req, id, clock, up)
  {
    var steps := WriteSteps(p, t, req, id, clock, up);
    RunThree(p, s, steps[0], steps[1], steps[2]);
    assert steps == [steps[0], steps[1], steps[2]];
    var s1 := Do(p, s, steps[0]);
    if req.op.Create? {
      SoloCreate(p, s1, t, req, id, clock, up);
    } else {
      var s2 := Do(p, s1, steps[1]);
      SoloRead(p, s1, t, req, id, clock, up);
      if s2.tasks[t].pc.Prepared? {
        SoloPut(p, s2, t, req, id, clock, up);
      } else {
        assert Do(p, s2, steps[2]) == s2;
      }
    }
  }

  lemma SoloAnswer(p: Policy, s: State, t: nat, req: Request, id: nat, clock: Clock, up: Storage)
    requires t in s.tasks && s.tasks[t].req == req && s.tasks[t].pc.Written?
    requires KeyOf(req, id) in s.db.rows && s.tasks[t].wrote == Some(s.db.rows[KeyOf(req, id)])
    requires s.db.rows[KeyOf(req, id)].id == KeyOf(req, id) && s.db.rows[KeyOf(req, id)].deleted == req.op.Delete?
    ensures var s' := Run(p, s, AnswerSteps(t, clock, up));
            var row := s.db.rows[KeyOf(req, id)];
            && t in s'.tasks && s'.db == s.db
            && s'.audits == (
                 if up.audit then s.audits + [AuditFor(p, req, s.tasks[t].seen, row, clock.audited)] else s.audits)
            && Outcome(s'.tasks[t]) == Answer(p, s.db, req, id, up)
  {
    var steps := AnswerSteps(t, clock, up);
    RunThree(p, s, steps[0], steps[1], steps[2]);
    assert steps == [steps[0], steps[1], steps[2]];
    var s1 := Do(p, s, steps[0]);
    assert s1.tasks[t] == s.tasks[t].(pc := AfterAudit(p, s.tasks[t], up.audit)) && s1.db == s.db;
    SoloReadBack(p, s1, t, req, id, up);
  }

  lemma SoloReadBack(p: Policy, s: State, t: nat, req: Request, id: nat, up: Storage)
    requires t in s.tasks && KeyOf(req, id) in s.db.rows && s.tasks[t].wrote == Some(s.db.rows[KeyOf(req, id)])
    requires s.tasks[t].req == req && s.tasks[t].pc == AfterAudit(p, s.tasks[t], up.audit)
    requires s.db.rows[KeyOf(req, id)].id == KeyOf(req, id) && s.db.rows[KeyOf(req, id)].deleted == req.op.Delete?
    ensures var s' := Do(p, Do(p, s, if up.reread then Reread(t) else Fault(t)), Preload(t));
            && t in s'.tasks && s'.db == s.db && s'.audits == s.audits
            && Outcome(s'.tasks[t]) == Answer(p, s.db, req, id, up)
  {
    var s1 := Do(p, s, if up.reread then Reread(t) else Fault(t));
    if s.tasks[t].pc.Audited? {
      assert s1.tasks[t].pc.RowRead? || Do(p, s1, Preload(t)) == s1;
    } else {
      assert s1 == s;
    }
  }

  lemma SoloFailed(p: Policy, s: State, t: nat, clock: Clock, up: Storage)
    requires t in s.tasks && s.tasks[t].pc.Failed?
    ensures Run(p, s, AnswerSteps(t, clock, up)) == s
  {
    var steps := AnswerSteps(t, clock, up);
    RunThree(p, s, steps[0], steps[1], steps[2]);
    assert steps == [steps[0], steps[1], steps[2]];
  }

  /** A task that nobody interrupts does exactly what the whole call does: same tables, same audit
      log, same answer, for every request and every pattern of storage failures. */
  lemma UninterruptedTaskIsCall(p: Policy, s: State, t: nat, req: Request, id: nat, clock: Clock, up: Storage)
    requires Inv(p, s) && t !in s.tasks
    ensures var s' := Run(p, s, WriteSteps(p, t, req, id, clock, up) + AnswerSteps(t, clock, up));
            && t in s'.tasks
            && (World(s'.db, s'.audits), Outcome(s'.tasks[t])) == Handle(p, World(s.db, s.audits), req, id, clock, up)
  {
    var first, last := WriteSteps(p, t, req, id, clock, up), AnswerSteps(t, clock, up);
    RunConcat(p, s, first, last);
    var mid := Run(p, s, first);
    SoloWrite(p, s, t, req, id, clock, up);
    RunKeeps(p, s, first);
    if mid.tasks[t].pc.Failed? {
      SoloFailed(p, mid, t, clock, up);
    } else {
      assert TaskOk(p, mid, t);
      StoredIsPast(p, mid, KeyOf(req, id));
      assert RecordOk(p, mid.db, mid.hist, KeyOf(req, id));
      SoloAnswer(p, mid, t, req, id, clock, up);
    }
  }
}
