/** What holds when clients send only versions they have seen: every request's ExpectedVersion is
    at most the version of the row that the request itself reads first. */
module ObservedVersions {
  import opened Basics
  import opened Statuses
  import opened Records
  import opened Tables
  import opened Protocol
  import opened Invariant
  import opened Commits
  import opened Guarantees

  ghost predicate SeenCoversExpected(task: Task) {
    task.seen.Some? && task.req.IsChange() ==> task.req.op.expected <= task.seen.value.version
  }

  /** Tasks are never dropped and never forget what they read, so this speaks of the whole run. */
  ghost predicate Observed(s: State) {
    forall t {:trigger SeenCoversExpected(s.tasks[t])} :: t in s.tasks ==> SeenCoversExpected(s.tasks[t])
  }

  /** A request never forgets or changes what it read. */
  lemma StepRemembers(p: Policy, s: State, step: Step, t: nat)
    requires Inv(p, s) && t in s.tasks && s.tasks[t].seen.Some?
    ensures var s' := Do(p, s, step);
            t in s'.tasks && s'.tasks[t].req == s.tasks[t].req && s'.tasks[t].seen == s.tasks[t].seen
  {
    assert TaskOk(p, s, t);
  }

  lemma {:induction false} RunRemembers(p: Policy, s: State, steps: seq<Step>, t: nat)
    requires Inv(p, s) && t in s.tasks && s.tasks[t].seen.Some?
    ensures var s' := Run(p, s, steps);
            t in s'.tasks && s'.tasks[t].req == s.tasks[t].req && s'.tasks[t].seen == s.tasks[t].seen
  {
    if steps != [] {
      RunRemembers(p, s, steps[..|steps| - 1], t);
      RunKeeps(p, s, steps[..|steps| - 1]);
      StepRemembers(p, Run(p, s, steps[..|steps| - 1]), steps[|steps| - 1], t);
    }
  }

  lemma {:induction false} ObservedBefore(p: Policy, s: State, steps: seq<Step>)
    requires Inv(p, s) && Observed(Run(p, s, steps))
    ensures Observed(s)
  {
    var s' := Run(p, s, steps);
    forall t | t in s.tasks ensures SeenCoversExpected(s.tasks[t]) {
      if s.tasks[t].seen.Some? {
        RunRemembers(p, s, steps, t);
        assert SeenCoversExpected(s'.tasks[t]);
      }
    }
  }

  /** No ABA: the row that is overwritten is the very row that the checks were made on. */
  lemma NoAba(p: Policy, s: State, t: nat)
    requires Inv(p, s) && Hits(p, s, t) && SeenCoversExpected(s.tasks[t])
    ensures Find(s.db, s.tasks[t].req.id) == s.tasks[t].seen
  {
    assert TaskOk(p, s, t);
    StoredIsPast(p, s, s.tasks[t].req.id);
  }

  // ---- every interleaving is equivalent to serving the commits one by one ----

  /** One request served with nothing in between: read, check and write. */
  function ServeChange(p: Policy, db: Db, req: Request, at: int, now: int): Result<Db>
    requires req.IsChange()
  {
    match Find(db, req.id)
    case None => Err(NotFound)
    case Some(row) =>
      match Prepare(p, row, req, at)
      case Err(e) => Err(e)
      case Ok(draft) => CompareAndSet(db, req.id, req.op.expected, draft, now)
  }

  function ServeCreate(p: Policy, db: Db, req: Request, id: nat, at: int, now: int): Result<Db>
    requires req.op.Create?
  {
    match PrepareCreate(p, req.op.code, req.op.fields, req.caller, at)
    case Err(e) => Err(e)
    case Ok(draft) => InsertRow(db, id, draft, now)
  }

  function Serve(p: Policy, db: Db, event: Event): Result<Db> {
    match event
    case Inserted(_, req, id, at, now) => if req.op.Create? then ServeCreate(p, db, req, id, at, now) else Err(Rejected)
    case Changed(_, req, at, now) => if req.IsChange() then ServeChange(p, db, req, at, now) else Err(Rejected)
    case Removed(_, id) => SoftDelete(db, id)
  }

  /** Serves a list of writes one after the other; fails as soon as one of them is refused. */
  function Replay(p: Policy, db: Db, log: seq<Event>): Result<Db> {
    if log == [] then Ok(db)
    else
      match Replay(p, db, log[..|log| - 1])
      case Err(e) => Err(e)
      case Ok(mid) => Serve(p, mid, log[|log| - 1])
  }

  /** The checks of each later commit were made on the row of the commit before it. */
  ghost predicate OnPrevious(h: seq<Entry>, k: nat) {
    0 < k < |h| ==> h[k].basis == h[k - 1].row
  }

  ghost predicate Stacked(s: State) {
    forall id, k {:trigger OnPrevious(s.hist[id], k)} :: id in s.hist ==> OnPrevious(s.hist[id], k)
  }

  ghost predicate Sequential(p: Policy, db: Db, s: State) {
    Stacked(s) && Replay(p, db, s.log) == Ok(s.db)
  }

  lemma ReplayNext(p: Policy, db: Db, s: State, event: Event, after: Db)
    requires Replay(p, db, s.log) == Ok(s.db) && Serve(p, s.db, event) == Ok(after)
    ensures Replay(p, db, s.log + [event]) == Ok(after)
  {
    assert (s.log + [event])[..|s.log + [event]| - 1] == s.log;
  }

  lemma InsertSequential(p: Policy, db: Db, s: State, t: nat, id: nat, at: int, now: int)
    requires Inv(p, s) && Sequential(p, db, s) && t in s.tasks && s.tasks[t].req.op.Create?
    ensures Sequential(p, db, DoInsert(p, s, t, id, at, now))
  {
    var s' := DoInsert(p, s, t, id, at, now);
    var req := s.tasks[t].req;
    if s'.log != s.log {
      ReplayNext(p, db, s, Inserted(t, req, id, at, now), s'.db);
    }
    forall u, k | u in s'.hist && k >= 0 ensures OnPrevious(s'.hist[u], k) {
      if u in s.hist { assert OnPrevious(s.hist[u], k); }
    }
  }

  lemma ChangeSequential(p: Policy, db: Db, s: State, t: nat, now: int)
    requires Inv(p, s) && Sequential(p, db, s) && TaskOk(p, s, t) && s.tasks[t].pc.Prepared?
    requires SeenAndReady(p, s.tasks[t]) && SeenCoversExpected(s.tasks[t])
    ensures Sequential(p, db, DoChange(p, s, t, now))
  {
    var s' := DoChange(p, s, t, now);
    var task := s.tasks[t];
    var id := task.req.id;
    ChangeAppends(p, s, t, now);
    if Hits(p, s, t) {
      NoAba(p, s, t);
      StoredIsPast(p, s, id);
      ReplayNext(p, db, s, Changed(t, task.req, task.at, now), s'.db);
      var h := s.hist[id];
      forall u, k | u in s'.hist && k >= 0 ensures OnPrevious(s'.hist[u], k) {
        if u in s.hist { assert OnPrevious(s.hist[u], k); }
        if u == id && k == |h| { assert s'.hist[id][k - 1] == h[|h| - 1]; }
      }
    }
  }

  lemma RemoveSequential(p: Policy, db: Db, s: State, t: nat)
    requires Sequential(p, db, s) && t in s.tasks
    ensures Sequential(p, db, DoRemove(s, t))
  {
    var s' := DoRemove(s, t);
    if s'.log != s.log {
      ReplayNext(p, db, s, Removed(t, s.tasks[t].req.id), s'.db);
    }
    forall u, k | u in s'.hist && k >= 0 ensures OnPrevious(s'.hist[u], k) {
      assert OnPrevious(s.hist[u], k);
    }
  }

  lemma StepSequential(p: Policy, db: Db, s: State, step: Step)
    requires Inv(p, s) && Sequential(p, db, s) && Observed(s)
    ensures Sequential(p, db, Do(p, s, step))
  {
    var s' := Do(p, s, step);
    var t := step.t;
    if step.Insert? && t in s.tasks && s.tasks[t].req.op.Create? && s.tasks[t].pc.Arrived? {
      InsertSequential(p, db, s, t, step.id, step.at, step.now);
    } else if step.Commit? && t in s.tasks && s.tasks[t].pc.Prepared? {
      assert TaskOk(p, s, t);
      assert SeenCoversExpected(s.tasks[t]);
      if s.tasks[t].req.op.Delete? {
        RemoveSequential(p, db, s, t);
      } else {
        ChangeSequential(p, db, s, t, step.now);
      }
    } else {
      assert s'.hist == s.hist && s'.db == s.db && s'.log == s.log;
      forall u, k | u in s'.hist && k >= 0 ensures OnPrevious(s'.hist[u], k) {
        assert OnPrevious(s.hist[u], k);
      }
    }
  }

  /** A database at rest whose history was built commit on commit. */
  ghost predicate Rest(p: Policy, start: State) {
    Start(p, start) && Stacked(start)
  }

  ghost predicate ObservedRun(p: Policy, start: State, steps: seq<Step>) {
    Rest(p, start) && Observed(Run(p, start, steps))
  }

  lemma {:induction false} RunSequential(p: Policy, s: State, steps: seq<Step>)
    requires ObservedRun(p, s, steps)
    ensures Inv(p, s) && Sequential(p, s.db, Run(p, s, steps))
  {
    if steps != [] {
      var front := steps[..|steps| - 1];
      RunKeeps(p, s, front);
      ObservedBefore(p, Run(p, s, front), [steps[|steps| - 1]]);
      assert [steps[|steps| - 1]][..0] == [];
      RunSequential(p, s, front);
      StepSequential(p, s.db, Run(p, s, front), steps[|steps| - 1]);
    }
  }

  /** Refinement: with observed versions, any interleaving of any number of requests leaves the
      tables exactly as serving its commits whole, one after the other in commit order. Every one of
      them succeeds there too, and they are exactly the requests that committed, each once. */
  lemma {:induction false} InterleavingsAreSequential(p: Policy, s: State, steps: seq<Step>)
    requires ObservedRun(p, s, steps)
    ensures var end := Run(p, s, steps);
            Replay(p, s.db, end.log) == Ok(end.db) && Logged(end)
  {
    RunSequential(p, s, steps);
    RunLogs(p, s, steps);
  }

  /** For any transition graph, a record's history is a walk: each transition follows an edge from
      the status it replaced, each update keeps the status it replaced. */
  ghost predicate WalkStep(p: Policy, from: Entry, to: Entry) {
    || (to.act.Moved? && CanTransition(p.graph, from.row.status, to.row.status))
    || (to.act.Edited? && to.row.status == from.row.status)
  }

  ghost predicate Walk(p: Policy, h: seq<Entry>) {
    forall k {:trigger h[k]} :: 0 < k < |h| ==> WalkStep(p, h[k - 1], h[k])
  }

  /** A record created in the run starts at the initial status. */
  lemma HistoriesAreWalks(p: Policy, s: State, steps: seq<Step>, id: nat)
    requires ObservedRun(p, s, steps)
    requires id in Run(p, s, steps).db.rows
    ensures var end := Run(p, s, steps);
            && id in end.hist && Walk(p, end.hist[id])
            && 1 <= |end.hist[id]| == end.db.rows[id].version
            && end.hist[id][|end.hist[id]| - 1].row.status == end.db.rows[id].status
            && end.hist[id][0].act.Created?
            && (id !in s.db.rows ==> end.hist[id][0].row.status == p.initial && Authored(end, end.hist[id][0]))
  {
    RunSequential(p, s, steps);
    RunKeeps(p, s, steps);
    var end := Run(p, s, steps);
    var h := end.hist[id];
    assert RecordOk(p, end.db, end.hist, id);
    assert EntryOk(p, id, h, 0);
    if id !in s.db.rows { RunAuthors(p, s, steps, id, 0); }
    forall k | 0 < k < |h|
      ensures WalkStep(p, h[k - 1], h[k]) {
      assert OnPrevious(h, k) && EntryOk(p, id, h, k);
    }
  }

  // ---- what audit entries say of the status before ----

  /** With observed versions an entry's status before is that of the version before the commit that it
      reports; a creation's is empty. */
  lemma AuditsReportBefore(p: Policy, start: State, steps: seq<Step>, i: nat)
    requires ObservedRun(p, start, steps)
    requires var s := Run(p, start, steps); i < |s.audits| && s.audits[i].action != "delete"
    ensures var s := Run(p, start, steps);
            var id, version := LinkOf(s, i).0, LinkOf(s, i).1;
            && Attests(p, s, s.audits[i], id, version)
            && s.audits[i].before == if version == 1 then "" else s.hist[id][version - 2].row.status
  {
    RunSequential(p, start, steps);
    RunKeeps(p, start, steps);
    AuditBefore(p, Run(p, start, steps), i);
  }

  lemma AuditBefore(p: Policy, s: State, i: nat)
    requires Inv(p, s) && Stacked(s) && i < |s.audits| && s.audits[i].action != "delete"
    ensures var id, version := LinkOf(s, i).0, LinkOf(s, i).1;
            && Attests(p, s, s.audits[i], id, version)
            && s.audits[i].before == if version == 1 then "" else s.hist[id][version - 2].row.status
  {
    LinkAttests(p, s, i);
    assert AuditOk(p, s, i);
    StatusBefore(p, s, s.auditors[i], s.audits[i].createdAt);
  }

  lemma StatusBefore(p: Policy, s: State, t: nat, now: int)
    requires Inv(p, s) && Stacked(s) && t in s.tasks && s.tasks[t].wrote.Some? && !s.tasks[t].req.op.Delete?
    ensures var task := s.tasks[t];
            var row := task.wrote.value;
            && row.id in s.hist && 1 <= row.version <= |s.hist[row.id]|
            && AuditFor(p, task.req, task.seen, row, now).before ==
                 if row.version == 1 then "" else s.hist[row.id][row.version - 2].row.status
  {
    assert TaskOk(p, s, t);
    var row := s.tasks[t].wrote.value;
    assert OnPrevious(s.hist[row.id], row.version - 1);
  }
}
