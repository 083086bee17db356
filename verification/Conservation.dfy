/** How the status counts move during a run of the protocol. */
module Conservation {
  import opened Records
  import opened Tables
  import opened Protocol
  import opened Invariant
  import opened Commits
  import opened ObservedVersions
  import opened Guarantees
  import opened Queries
  import opened Tallies

  function LiveWith(rows: map<nat, Row>, status: string): set<nat> {
    set id | id in rows && !rows[id].deleted && rows[id].status == status
  }

  function Live(rows: map<nat, Row>, status: string): nat {
    |LiveWith(rows, status)|
  }

  /** The listing filtered by a status has one row for each live id with that status. */
  lemma LiveIsListed(rows: map<nat, Row>, status: string, list: seq<Row>)
    requires IsListing(rows, (row: Row) => row.status == status, list)
    requires Keyed(rows)
    ensures |list| == Live(rows, status)
  {
    var ids := set i | 0 <= i < |list| :: list[i].id;
    forall id ensures id in ids <==> id in LiveWith(rows, status) {
      if id in LiveWith(rows, status) {
        assert Listed(rows, (row: Row) => row.status == status, rows[id]) && rows[id] in list;
      }
      if id in ids {
        var i :| 0 <= i < |list| && list[i].id == id;
        assert list[i] in list;
      }
    }
    assert ids == LiveWith(rows, status);
    forall i, j | 0 <= i < j < |list| ensures list[i].id != list[j].id {
      assert list[i] in list && list[j] in list && Before(list[i], list[j]);
    }
    SortedIds(list);
  }

  /** So the status counts are the numbers of live rows. */
  lemma CountsAreLive(rows: map<nat, Row>, all: seq<Row>, status: string)
    requires Keyed(rows) && IsListing(rows, EVERY, all)
    ensures var counts := Tally(StatusesIn(all));
            (if status in counts then counts[status] else 0) == Live(rows, status)
  {
    var some := WithStatus(all, status);
    WithStatusSorted(all, status);
    WithStatusMembers(all, status);
    assert IsListing(rows, (row: Row) => row.status == status, some);
    CountsAgreeWithLists(rows, all, status, some);
    LiveIsListed(rows, status, some);
  }

  lemma {:induction false} SortedIds(list: seq<Row>)
    requires Sorted(list)
    requires forall i, j :: 0 <= i < j < |list| ==> list[i].id != list[j].id
    ensures |set i | 0 <= i < |list| :: list[i].id| == |list|
  {
    var ids := set i | 0 <= i < |list| :: list[i].id;
    if list != [] {
      var front, last := list[..|list| - 1], list[|list| - 1];
      SortedIds(front);
      var before := set i | 0 <= i < |front| :: front[i].id;
      assert ids == before + {last.id} by {
        forall id | id in ids ensures id in before + {last.id} {
          var i :| 0 <= i < |list| && list[i].id == id;
          if i < |front| { assert front[i].id == id; }
        }
        forall id | id in before ensures id in ids {
          var i :| 0 <= i < |front| && front[i].id == id;
          assert list[i].id == id;
        }
        assert list[|list| - 1].id in ids;
      }
      assert last.id !in before;
    }
  }

  function One(b: bool): nat { if b then 1 else 0 }

  /** Replacing or adding one row moves the counts by that row alone. */
  lemma LiveAfterPut(rows: map<nat, Row>, id: nat, row: Row, status: string)
    ensures Live(rows[id := row], status) ==
            Live(rows, status)
            - One(id in rows && !rows[id].deleted && rows[id].status == status)
            + One(!row.deleted && row.status == status)
  {
    var before, after := LiveWith(rows, status), LiveWith(rows[id := row], status);
    assert after - {id} == before - {id};
    SizeWithout(before, id);
    SizeWithout(after, id);
  }

  lemma SizeWithout(ids: set<nat>, id: nat)
    ensures |ids - {id}| == |ids| - One(id in ids)
  {
    if id !in ids { assert ids - {id} == ids; }
  }

  /** How one logged write moves the count of `status`. */
  ghost predicate MovedBy(p: Policy, s: State, s': State, event: Event, status: string) {
    var before, after := Live(s.db.rows, status), Live(s'.db.rows, status);
    match event
    case Inserted(_, _, _, _, _) => after == before + One(p.initial == status)
    case Changed(_, req, _, _) =>
      && Find(s.db, req.id).Some? && Find(s'.db, req.id).Some?
      && after == before - One(s.db.rows[req.id].status == status) + One(s'.db.rows[req.id].status == status)
    case Removed(_, id) =>
      Find(s.db, id).Some? && after == before - One(s.db.rows[id].status == status)
  }

  /** Nothing but a logged write changes a count; an insertion adds one to the initial status, a
      deletion takes one from the status the row had, and a change moves one from the status it
      overwrites to the status it writes, for every interleaving. */
  lemma StepMovesCounts(p: Policy, s: State, step: Step, status: string)
    requires Reachable(p, s)
    ensures var s' := Do(p, s, step);
            if s'.log == s.log then Live(s'.db.rows, status) == Live(s.db.rows, status)
            else |s'.log| == |s.log| + 1 && MovedBy(p, s, s', s'.log[|s.log|], status)
  {
    ReachableInv(p, s);
    var s', t := Do(p, s, step), step.t;
    if s'.log == s.log {
      QuietStep(p, s, step);
    } else {
      CommitStep(p, s, step);
      assert TaskOk(p, s, t);
      if step.Insert? {
        InsertMovesCounts(p, s, t, step.id, step.at, step.now, status);
      } else if s.tasks[t].req.IsChange() {
        ChangeMovesCounts(p, s, t, step.now, status);
      } else {
        RemoveMovesCounts(p, s, t, status);
      }
    }
  }

  lemma InsertMovesCounts(p: Policy, s: State, t: nat, id: nat, at: int, now: int, status: string)
    requires t in s.tasks && s.tasks[t].req.op.Create? && DoInsert(p, s, t, id, at, now).log != s.log
    ensures var s' := DoInsert(p, s, t, id, at, now);
            |s'.log| == |s.log| + 1 && MovedBy(p, s, s', s'.log[|s.log|], status)
  {
    LiveAfterPut(s.db.rows, id, DoInsert(p, s, t, id, at, now).db.rows[id], status);
  }

  lemma ChangeMovesCounts(p: Policy, s: State, t: nat, now: int, status: string)
    requires Inv(p, s) && t in s.tasks && s.tasks[t].pc.Prepared? && SeenAndReady(p, s.tasks[t])
    requires DoChange(p, s, t, now).log != s.log
    ensures var s' := DoChange(p, s, t, now);
            |s'.log| == |s.log| + 1 && MovedBy(p, s, s', s'.log[|s.log|], status)
  {
    var id := s.tasks[t].req.id;
    ChangeAppends(p, s, t, now);
    LiveAfterPut(s.db.rows, id, DoChange(p, s, t, now).db.rows[id], status);
  }

  lemma RemoveMovesCounts(p: Policy, s: State, t: nat, status: string)
    requires t in s.tasks && DoRemove(s, t).log != s.log
    ensures var s' := DoRemove(s, t);
            |s'.log| == |s.log| + 1 && MovedBy(p, s, s', s'.log[|s.log|], status)
  {
    var id := s.tasks[t].req.id;
    LiveAfterPut(s.db.rows, id, DoRemove(s, t).db.rows[id], status);
  }

  /** With observed versions an update moves no count, and a transition moves exactly one row from
      the status it was checked against to its target. */
  lemma ObservedChangeMovesCounts(p: Policy, s: State, t: nat, now: int, status: string)
    requires Reachable(p, s) && Hits(p, s, t) && SeenCoversExpected(s.tasks[t])
    ensures var s', req := Do(p, s, Commit(t, now)), s.tasks[t].req;
            && s.tasks[t].seen.Some?
            && Live(s'.db.rows, status) ==
                 if req.op.Update? then Live(s.db.rows, status)
                 else Live(s.db.rows, status)
                      - One(s.tasks[t].seen.value.status == status) + One(req.op.target == status)
  {
    ReachableInv(p, s);
    assert TaskOk(p, s, t);
    NoAba(p, s, t);
    ChangeAppends(p, s, t, now);
    var id := s.tasks[t].req.id;
    LiveAfterPut(s.db.rows, id, Do(p, s, Commit(t, now)).db.rows[id], status);
  }
}
