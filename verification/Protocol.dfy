/** The concurrent protocol: any number of in-flight requests against one aggregate's tables.
    Each request runs as separate database steps that others interleave with freely:
    read and check, commit, audit, read back the row, read back the revisions.
    The checks touch local state only, so they share a step with the read before them. */
module Protocol {
  import opened Basics
  import opened Records
  import opened Tables

  datatype AuditLog = AuditLog(
    requestID: string, actor: string, action: string, entityType: string, entityID: nat,
    before: string, after: string, detail: string, createdAt: int)

  datatype Pc =
    | Arrived
    | Prepared            // read and checked; the write is next
    | Written             // committed; the audit entry is next
    | Audited             // the final read is next
    | RowRead(row: Row)   // the final read's second statement is next
    | Done(result: Row, revisions: seq<Revision>)
    | Closed              // a finished deletion
    | Failed(error: Error)

  /** A request in flight. `seen` is the row its checks ran on, `wrote` the row its commit stored. */
  datatype Task = Task(req: Request, pc: Pc, at: int, seen: Option<Row>, wrote: Option<Row>)

  datatype Act = Created | Edited | Moved

  /** History kept for the proofs: the row as stored by one commit, who committed it, and the row
      that the commit's checks were made on. */
  datatype Entry = Entry(row: Row, act: Act, caller: Caller, basis: Row, task: Option<nat>)

  /** The write transactions in commit order, each with the request that committed it. */
  datatype Event =
    | Inserted(t: nat, req: Request, id: nat, at: int, now: int)
    | Changed(t: nat, req: Request, at: int, now: int)
    | Removed(t: nat, id: nat)

  /** `auditors[i]` is the request that appended `audits[i]`. */
  datatype State = State(
    db: Db, audits: seq<AuditLog>, auditors: seq<nat>, tasks: map<nat, Task>,
    hist: map<nat, seq<Entry>>, log: seq<Event>)

  datatype Step =
    | Arrive(t: nat, req: Request)
    | Insert(t: nat, id: nat, at: int, now: int)
    | Read(t: nat, at: int)
    | Commit(t: nat, now: int)
    | Audit(t: nat, stored: bool, now: int)
    | Reread(t: nat)
    | Preload(t: nat)
    | Fault(t: nat)

  function AuditEntry(caller: Caller, action: string, entity: string, id: nat,
                      before: string, after: string, detail: string, now: int): AuditLog {
    AuditLog(if caller.requestID == "" then "untracked" else caller.requestID,
             if caller.actor == "" then "system" else caller.actor,
             action, entity, id, before, after, detail, now)
  }

  /** The audit entry of a committed request; `row` is what it wrote, `seen` what it read. */
  function AuditFor(p: Policy, req: Request, seen: Option<Row>, row: Row, now: int): AuditLog {
    var read := if seen.Some? then seen.value.status else "";
    match req.op
    case Create(_, _) =>
      AuditEntry(req.caller, "create", p.entity, row.id, "", p.initial, p.texts.created, now)
    case Update(_, _) =>
      AuditEntry(req.caller, "update", p.entity, row.id, read, read, p.texts.updated, now)
    case Transition(_, target, reason, _) =>
      AuditEntry(req.caller, "transition", p.entity, row.id, read, target, reason, now)
    case Delete =>
      AuditEntry(req.caller, "delete", p.entity, row.id, read, "deleted", p.texts.deleted, now)
  }

  function With(s: State, t: nat, task: Task): State {
    s.(tasks := s.tasks[t := task])
  }

  function Fail(s: State, t: nat, error: Error): State
    requires t in s.tasks
  {
    With(s, t, s.tasks[t].(pc := Failed(error)))
  }

  function DoInsert(p: Policy, s: State, t: nat, id: nat, at: int, now: int): State
    requires t in s.tasks && s.tasks[t].req.op.Create?
  {
    var task := s.tasks[t];
    match PrepareCreate(p, task.req.op.code, task.req.op.fields, task.req.caller, at)
    case Err(e) => Fail(s, t, e)
    case Ok(draft) =>
      match InsertRow(s.db, id, draft, now)
      case Err(e) => Fail(s, t, e)
      case Ok(db) =>
        var row := db.rows[id];
        With(s, t, task.(pc := Written, wrote := Some(row))).(
          db := db,
          hist := s.hist[id := [Entry(row, Created, task.req.caller, row, Some(t))]],
          log := s.log + [Inserted(t, task.req, id, at, now)])
  }

  function DoRead(p: Policy, s: State, t: nat, at: int): State
    requires t in s.tasks
  {
    var task := s.tasks[t];
    match Find(s.db, task.req.id)
    case None => Fail(s, t, NotFound)
    case Some(row) =>
      match Prepare(p, row, task.req, at)
      case Err(e) => Fail(s, t, e)
      case Ok(_) => With(s, t, task.(pc := Prepared, at := at, seen := Some(row)))
  }

  function DoChange(p: Policy, s: State, t: nat, now: int): State
    requires t in s.tasks && s.tasks[t].seen.Some? && s.tasks[t].req.IsChange()
    requires Prepare(p, s.tasks[t].seen.value, s.tasks[t].req, s.tasks[t].at).Ok?
  {
    var task := s.tasks[t];
    var req, basis := task.req, task.seen.value;
    var draft := Prepare(p, basis, req, task.at).value;
    match CompareAndSet(s.db, req.id, req.op.expected, draft, now)
    case Err(e) => Fail(s, t, e)
    case Ok(db) =>
      var row := db.rows[req.id];
      var act := if req.op.Update? then Edited else Moved;
      var past := if req.id in s.hist then s.hist[req.id] else [];
      With(s, t, task.(pc := Written, wrote := Some(row))).(
        db := db,
        hist := s.hist[req.id := past + [Entry(row, act, req.caller, basis, Some(t))]],
        log := s.log + [Changed(t, req, task.at, now)])
  }

  function DoRemove(s: State, t: nat): State
    requires t in s.tasks
  {
    var task := s.tasks[t];
    match SoftDelete(s.db, task.req.id)
    case Err(e) => Fail(s, t, e)
    case Ok(db) =>
      With(s, t, task.(pc := Written, wrote := Some(db.rows[task.req.id]))).(
        db := db, log := s.log + [Removed(t, task.req.id)])
  }

  /** Where a request goes once its audit entry has been stored, or lost. */
  function AfterAudit(p: Policy, task: Task, stored: bool): Pc
    requires task.wrote.Some?
  {
    match task.req.op
    case Create(_, _) => if p.reviewed then Audited else Done(task.wrote.value, [])
    case Update(_, _) => Audited
    case Transition(_, _, _, _) => if stored then Audited else Failed(AuditFailed)
    case Delete => if stored then Closed else Failed(AuditFailed)
  }

  function DoAudit(p: Policy, s: State, t: nat, stored: bool, now: int): State
    requires t in s.tasks && s.tasks[t].wrote.Some?
  {
    var task := s.tasks[t];
    var s' := With(s, t, task.(pc := AfterAudit(p, task, stored)));
    if !stored then s'
    else s'.(audits := s.audits + [AuditFor(p, task.req, task.seen, task.wrote.value, now)],
             auditors := s.auditors + [t])
  }

  function DoReread(p: Policy, s: State, t: nat): State
    requires t in s.tasks && s.tasks[t].wrote.Some?
  {
    match Find(s.db, s.tasks[t].wrote.value.id)
    case None => Fail(s, t, NotFound)
    case Some(row) => With(s, t, s.tasks[t].(pc := if p.reviewed then RowRead(row) else Done(row, [])))
  }

  function DoPreload(s: State, t: nat): State
    requires t in s.tasks && s.tasks[t].pc.RowRead?
  {
    var row := s.tasks[t].pc.row;
    With(s, t, s.tasks[t].(pc := Done(row, RevisionsOf(s.db, row.id))))
  }

  /** One step of one request; a step that the request is not ready for changes nothing. */
  function Do(p: Policy, s: State, step: Step): State {
    if step.t !in s.tasks then
      if step.Arrive? then With(s, step.t, Task(step.req, Arrived, 0, None, None)) else s
    else
      var task := s.tasks[step.t];
      match step
      case Arrive(_, _) => s
      case Insert(t, id, at, now) =>
        if task.pc.Arrived? && task.req.op.Create? then DoInsert(p, s, t, id, at, now) else s
      case Read(t, at) =>
        if task.pc.Arrived? && !task.req.op.Create? then DoRead(p, s, t, at) else s
      case Commit(t, now) =>
        if !task.pc.Prepared? || task.seen.None? then s
        else if task.req.op.Delete? then DoRemove(s, t)
        else if task.req.IsChange() && Prepare(p, task.seen.value, task.req, task.at).Ok? then DoChange(p, s, t, now)
        else s
      case Audit(t, stored, now) =>
        if task.pc.Written? && task.wrote.Some? then DoAudit(p, s, t, stored, now) else s
      case Reread(t) =>
        if task.pc.Audited? && task.wrote.Some? then DoReread(p, s, t) else s
      case Preload(t) =>
        if task.pc.RowRead? then DoPreload(s, t) else s
      case Fault(t) =>
        if task.pc.Arrived? || task.pc.Prepared? || task.pc.Audited? || task.pc.RowRead?
        then Fail(s, t, Unavailable) else s
  }

  /** An interleaving is any sequence of steps. */
  function Run(p: Policy, s: State, steps: seq<Step>): State {
    if steps == [] then s else Do(p, Run(p, s, steps[..|steps| - 1]), steps[|steps| - 1])
  }

  lemma {:induction false} RunConcat(p: Policy, s: State, a: seq<Step>, b: seq<Step>)
    ensures Run(p, s, a + b) == Run(p, Run(p, s, a), b)
  {
    if b == [] {
      assert a + b == a;
    } else {
      var front := b[..|b| - 1];
      assert (a + b)[..|a + b| - 1] == a + front;
      RunConcat(p, s, a, front);
    }
  }

  lemma RunNext(p: Policy, s: State, steps: seq<Step>, step: Step)
    ensures Run(p, s, steps + [step]) == Do(p, Run(p, s, steps), step)
  {
    assert (steps + [step])[..|steps + [step]| - 1] == steps;
  }

  lemma RunThree(p: Policy, s: State, a: Step, b: Step, c: Step)
    ensures Run(p, s, [a, b, c]) == Do(p, Do(p, Do(p, s, a), b), c)
  {
    RunNext(p, s, [], a);
    RunNext(p, s, [a], b);
    RunNext(p, s, [a, b], c);
    assert [] + [a] == [a] && [a] + [b] == [a, b] && [a, b] + [c] == [a, b, c];
  }
}
