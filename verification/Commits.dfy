/** The log of writes holds exactly what the requests have committed, and histories grow by nothing else. */
module Commits {
  import opened Basics
  import opened Records
  import opened Protocol
  import opened Invariant

  /** Event `i` is the commit of the request that it names. */
  ghost predicate Logs(s: State, i: nat)
    requires i < |s.log|
  {
    var e := s.log[i];
    && e.t in s.tasks && s.tasks[e.t].wrote.Some?
    && var task := s.tasks[e.t];
       match e
       case Inserted(_, req, id, _, _) => req == task.req && req.op.Create? && id == task.wrote.value.id
       case Changed(_, req, at, _) => req == task.req && req.IsChange() && at == task.at
       case Removed(_, id) => task.req.op.Delete? && id == task.req.id
  }

  ghost predicate HasEvent(s: State, t: nat) {
    exists i :: 0 <= i < |s.log| && s.log[i].t == t
  }

  predicate Once(log: seq<Event>) {
    forall i, j :: 0 <= i < j < |log| ==> log[i].t != log[j].t
  }

  /** The events are the requests that have committed, each once. */
  ghost predicate Logged(s: State) {
    && (forall i {:trigger Logs(s, i)} :: 0 <= i < |s.log| ==> Logs(s, i))
    && Once(s.log)
    && (forall t {:trigger HasEvent(s, t)} :: t in s.tasks && s.tasks[t].wrote.Some? ==> HasEvent(s, t))
  }

  /** A request that has committed keeps what it asked for and what it wrote. */
  ghost predicate Settled(s: State, s': State, t: nat) {
    t in s.tasks && s.tasks[t].wrote.Some? ==>
      && t in s'.tasks && s'.tasks[t].req == s.tasks[t].req
      && s'.tasks[t].at == s.tasks[t].at && s'.tasks[t].wrote == s.tasks[t].wrote
  }

  /** A step that logs nothing commits nothing: tables and histories stay as they are. */
  lemma QuietStep(p: Policy, s: State, step: Step)
    requires Inv(p, s) && Do(p, s, step).log == s.log
    ensures Do(p, s, step).db == s.db && Do(p, s, step).hist == s.hist
  {
    if step.t in s.tasks { assert TaskOk(p, s, step.t); }
  }

  lemma StepTouchesOne(p: Policy, s: State, step: Step, t: nat)
    requires t != step.t
    ensures var s' := Do(p, s, step);
            (t in s'.tasks <==> t in s.tasks) && (t in s.tasks ==> s'.tasks[t] == s.tasks[t])
  {
  }

  lemma QuietStepSettles(p: Policy, s: State, step: Step, t: nat)
    requires Inv(p, s) && Do(p, s, step).log == s.log
    ensures Settled(s, Do(p, s, step), t)
  {
    if t != step.t {
      StepTouchesOne(p, s, step, t);
    } else if t in s.tasks {
      assert TaskOk(p, s, t);
    }
  }

  lemma QuietStepCommitsNone(p: Policy, s: State, step: Step, t: nat)
    requires Inv(p, s) && Do(p, s, step).log == s.log
    ensures Settled(Do(p, s, step), s, t)
  {
    if t != step.t {
      StepTouchesOne(p, s, step, t);
    } else if t in s.tasks {
      assert TaskOk(p, s, t);
    }
  }

  /** Any other step is the one commit of its request. */
  lemma CommitStep(p: Policy, s: State, step: Step)
    requires Inv(p, s) && Do(p, s, step).log != s.log
    ensures var s', t, n := Do(p, s, step), step.t, |s.log|;
            && |s'.log| == n + 1 && s'.log[..n] == s.log && s'.log[n].t == t && Logs(s', n)
            && t in s.tasks && s.tasks[t].wrote.None? && s'.tasks == s.tasks[t := s'.tasks[t]]
  {
    assert TaskOk(p, s, step.t);
  }

  ghost predicate SameCommit(s: State, s': State, t: nat) {
    Settled(s, s', t) && Settled(s', s, t)
  }

  lemma QuietLogs(s: State, s': State)
    requires Logged(s) && s'.log == s.log
    requires forall t {:trigger SameCommit(s, s', t)} :: SameCommit(s, s', t)
    ensures Logged(s')
  {
    forall i | 0 <= i < |s'.log| ensures Logs(s', i) {
      assert Logs(s, i) && SameCommit(s, s', s.log[i].t);
    }
    forall t | t in s'.tasks && s'.tasks[t].wrote.Some? ensures HasEvent(s', t) {
      assert SameCommit(s, s', t) && HasEvent(s, t);
    }
  }

  lemma CommitLogs(s: State, s': State, t: nat)
    requires Logged(s) && |s'.log| == |s.log| + 1 && s'.log[..|s.log|] == s.log
    requires s'.log[|s.log|].t == t && Logs(s', |s.log|)
    requires t in s.tasks && t in s'.tasks && s.tasks[t].wrote.None? && s'.tasks == s.tasks[t := s'.tasks[t]]
    ensures Logged(s')
  {
    forall i | 0 <= i < |s'.log| ensures Logs(s', i) && (i < |s.log| ==> s'.log[i] == s.log[i] && s.log[i].t != t) {
      if i < |s.log| {
        assert s'.log[..|s.log|][i] == s.log[i];
        assert Logs(s, i);
      }
    }
    forall u | u in s'.tasks && s'.tasks[u].wrote.Some? ensures HasEvent(s', u) {
      if u != t {
        assert HasEvent(s, u);
        var i :| 0 <= i < |s.log| && s.log[i].t == u;
        assert s'.log[i].t == u;
      }
    }
  }

  lemma StepLogs(p: Policy, s: State, step: Step)
    requires Inv(p, s) && Logged(s)
    ensures Logged(Do(p, s, step))
  {
    var s' := Do(p, s, step);
    if s'.log == s.log {
      forall t {:trigger SameCommit(s, s', t)} ensures SameCommit(s, s', t) {
        QuietStepSettles(p, s, step, t);
        QuietStepCommitsNone(p, s, step, t);
      }
      QuietLogs(s, s');
    } else {
      CommitStep(p, s, step);
      CommitLogs(s, s', step.t);
    }
  }

  lemma {:induction false} RunLogs(p: Policy, s: State, steps: seq<Step>)
    requires Inv(p, s) && Logged(s)
    ensures Logged(Run(p, s, steps))
  {
    if steps != [] {
      var front := steps[..|steps| - 1];
      RunLogs(p, s, front);
      RunKeeps(p, s, front);
      StepLogs(p, Run(p, s, front), steps[|steps| - 1]);
    }
  }

  // ---- counting commits ----

  predicate IsChangeOf(e: Event, id: nat) {
    e.Changed? && e.req.id == id
  }

  /** The number of committed updates and transitions of a record. */
  function Changes(log: seq<Event>, id: nat): nat {
    if log == [] then 0
    else
      var last := log[|log| - 1];
      Changes(log[..|log| - 1], id) + if IsChangeOf(last, id) then 1 else 0
  }

  /** The requests that have changed a record. */
  ghost function Changers(s: State, id: nat): set<nat> {
    set t | t in s.tasks && s.tasks[t].req.IsChange() && s.tasks[t].req.id == id && s.tasks[t].wrote.Some?
  }

  function ChangeTasks(log: seq<Event>, id: nat): set<nat> {
    if log == [] then {}
    else
      var last := log[|log| - 1];
      ChangeTasks(log[..|log| - 1], id) + if IsChangeOf(last, id) then {last.t} else {}
  }

  lemma {:induction false} ChangeTasksMember(log: seq<Event>, id: nat, t: nat)
    ensures t in ChangeTasks(log, id) <==> exists i :: 0 <= i < |log| && IsChangeOf(log[i], id) && log[i].t == t
  {
    if log != [] {
      var front, last := log[..|log| - 1], log[|log| - 1];
      ChangeTasksMember(front, id, t);
      assert log == front + [last];
    }
  }

  lemma {:induction false} ChangeTasksCounted(log: seq<Event>, id: nat)
    requires Once(log)
    ensures |ChangeTasks(log, id)| == Changes(log, id)
  {
    if log != [] {
      var front, last := log[..|log| - 1], log[|log| - 1];
      ChangeTasksCounted(front, id);
      ChangeTasksMember(front, id, last.t);
    }
  }

  /** So the log counts requests. */
  lemma ChangesAreRequests(s: State, id: nat)
    requires Logged(s)
    ensures Changes(s.log, id) == |Changers(s, id)|
  {
    ChangeTasksCounted(s.log, id);
    forall t ensures t in ChangeTasks(s.log, id) <==> t in Changers(s, id) {
      ChangeTasksMember(s.log, id, t);
      if t in ChangeTasks(s.log, id) {
        var i :| 0 <= i < |s.log| && IsChangeOf(s.log[i], id) && s.log[i].t == t;
        assert Logs(s, i);
      }
      if t in Changers(s, id) {
        assert HasEvent(s, t);
        var i :| 0 <= i < |s.log| && s.log[i].t == t;
        assert Logs(s, i);
      }
    }
    assert ChangeTasks(s.log, id) == Changers(s, id);
  }

  // ---- who wrote what ----

  /** An entry that a request of this run has written, with exactly that row. */
  ghost predicate Authored(s: State, e: Entry) {
    && e.task.Some? && e.task.value in s.tasks
    && s.tasks[e.task.value].wrote == Some(e.row)
  }

  ghost predicate NewAt(s: State, h: seq<Entry>, id: nat, k: nat) {
    k < |h| && (id in s.hist ==> |s.hist[id]| <= k)
  }

  lemma StepAuthors(p: Policy, s: State, step: Step, id: nat, k: nat)
    requires Inv(p, s)
    requires var s' := Do(p, s, step); id in s'.hist && NewAt(s, s'.hist[id], id, k)
    ensures Authored(Do(p, s, step), Do(p, s, step).hist[id][k])
  {
    var s' := Do(p, s, step);
    if s'.log == s.log {
      QuietStep(p, s, step);
    } else {
      assert TaskOk(p, s, step.t);
      if step.Commit? && s.tasks[step.t].req.IsChange() {
        assert id in s.hist ==> id == s.tasks[step.t].req.id;
      }
    }
  }

  lemma StepKeepsAuthor(p: Policy, s: State, step: Step, e: Entry)
    requires Inv(p, s) && Authored(s, e)
    ensures Authored(Do(p, s, step), e)
  {
    if Do(p, s, step).log == s.log {
      QuietStepSettles(p, s, step, e.task.value);
    } else {
      CommitStep(p, s, step);
    }
  }

  /** Whatever a run adds to the histories, one of its requests has written. */
  lemma {:induction false} RunAuthors(p: Policy, s: State, steps: seq<Step>, id: nat, k: nat)
    requires Inv(p, s)
    requires var s' := Run(p, s, steps); id in s'.hist && NewAt(s, s'.hist[id], id, k)
    ensures Authored(Run(p, s, steps), Run(p, s, steps).hist[id][k])
  {
    if steps != [] {
      var mid, last := Run(p, s, steps[..|steps| - 1]), steps[|steps| - 1];
      RunKeeps(p, s, steps[..|steps| - 1]);
      StepKeeps(p, mid, last);
      assert GrowsAt(mid, Do(p, mid, last), id);
      if id in mid.hist && k < |mid.hist[id]| {
        RunAuthors(p, s, steps[..|steps| - 1], id, k);
        StepKeepsAuthor(p, mid, last, mid.hist[id][k]);
      } else {
        StepAuthors(p, mid, last, id, k);
      }
    }
  }
}
