/** The audit summary: five queries, one after the other, over a log that others keep extending. */
module AuditQueries {
  import opened Protocol
  import opened Tallies

  datatype Group = Group(name: string, count: nat)

  datatype Summary = Summary(
    since: int, total: nat, transitions: nat, uniqueActors: nat, actions: seq<Group>, entityTypes: seq<Group>)

  /** WHERE created_at >= since. */
  function Since(logs: seq<AuditLog>, since: int): seq<AuditLog> {
    if logs == [] then []
    else Since(logs[..|logs| - 1], since) + if logs[|logs| - 1].createdAt >= since then [logs[|logs| - 1]] else []
  }

  function ActionsOf(logs: seq<AuditLog>): seq<string> {
    seq(|logs|, i requires 0 <= i < |logs| => logs[i].action)
  }

  function EntitiesOf(logs: seq<AuditLog>): seq<string> {
    seq(|logs|, i requires 0 <= i < |logs| => logs[i].entityType)
  }

  function ActorsOf(logs: seq<AuditLog>): set<string> {
    set i | 0 <= i < |logs| :: logs[i].actor
  }

  function CountFor(groups: seq<Group>, name: string): nat {
    if groups == [] then 0
    else CountFor(groups[1..], name) + if groups[0].name == name then groups[0].count else 0
  }

  function Sum(groups: seq<Group>): nat {
    if groups == [] then 0 else groups[0].count + Sum(groups[1..])
  }

  /** One group for each key of `counts`, largest first. */
  ghost predicate Groups(groups: seq<Group>, counts: map<string, nat>) {
    if groups == [] then counts == map[]
    else
      && groups[0].name in counts && counts[groups[0].name] == groups[0].count
      && (forall k :: k in counts ==> counts[k] <= groups[0].count)
      && Groups(groups[1..], counts - {groups[0].name})
  }

  lemma {:induction false} GroupsAddUp(groups: seq<Group>, counts: map<string, nat>, name: string)
    requires Groups(groups, counts)
    ensures Sum(groups) == Total(counts)
    ensures CountFor(groups, name) == if name in counts then counts[name] else 0
  {
    if groups != [] {
      TotalPick(counts, groups[0].name);
      GroupsAddUp(groups[1..], counts - {groups[0].name}, name);
    }
  }

  /** A largest count. */
  method Largest(counts: map<string, nat>) returns (top: string)
    requires counts != map[]
    ensures top in counts && forall k :: k in counts ==> counts[k] <= counts[top]
  {
    var keys := counts.Keys;
    top :| top in keys;
    while keys != {}
      invariant keys <= counts.Keys && top in counts
      invariant forall k :: k in counts && k !in keys ==> counts[k] <= counts[top]
      decreases |keys|
    {
      var k :| k in keys;
      keys := keys - {k};
      if counts[k] > counts[top] {
        top := k;
      }
    }
  }

  /** SELECT name, COUNT(*) ... GROUP BY name ORDER BY count DESC. */
  method GroupCounts(counts: map<string, nat>) returns (groups: seq<Group>)
    ensures Groups(groups, counts)
    decreases |counts|
  {
    if counts == map[] {
      return [];
    }
    var top := Largest(counts);
    assert (counts - {top}).Keys == counts.Keys - {top};
    assert |counts - {top}| == |(counts - {top}).Keys| < |counts.Keys| == |counts|;
    var rest := GroupCounts(counts - {top});
    groups := [Group(top, counts[top])] + rest;
  }

  /** What each query saw: the log as it was when that query ran. */
  ghost predicate Summarises(s: Summary, l0: seq<AuditLog>, l1: seq<AuditLog>, l2: seq<AuditLog>,
                             l3: seq<AuditLog>, l4: seq<AuditLog>) {
    && s.total == |Since(l0, s.since)|
    && s.transitions == multiset(ActionsOf(Since(l1, s.since)))["transition"]
    && s.uniqueActors == |ActorsOf(Since(l2, s.since))|
    && Groups(s.actions, Tally(ActionsOf(Since(l3, s.since))))
    && Groups(s.entityTypes, Tally(EntitiesOf(Since(l4, s.since))))
  }

  /** The repository's method; `logs[i]` is the log as query `i` finds it. */
  method SummarizeAudits(logs: seq<seq<AuditLog>>, since: int) returns (summary: Summary)
    requires |logs| == 5
    ensures summary.since == since && Summarises(summary, logs[0], logs[1], logs[2], logs[3], logs[4])
  {
    summary := Summary(since, 0, 0, 0, [], []);
    summary := summary.(total := |Since(logs[0], since)|);
    summary := summary.(transitions := multiset(ActionsOf(Since(logs[1], since)))["transition"]);
    summary := summary.(uniqueActors := |ActorsOf(Since(logs[2], since))|);
    var actions := GroupCounts(Tally(ActionsOf(Since(logs[3], since))));
    summary := summary.(actions := actions);
    var entities := GroupCounts(Tally(EntitiesOf(Since(logs[4], since))));
    summary := summary.(entityTypes := entities);
  }

  // ---- what the figures count ----

  /** The entries from `since` on that `pick` selects, by their place in the log. */
  ghost function Picked(logs: seq<AuditLog>, since: int, pick: AuditLog -> bool): set<nat> {
    set i | 0 <= i < |logs| && logs[i].createdAt >= since && pick(logs[i])
  }

  function CountPicked(logs: seq<AuditLog>, pick: AuditLog -> bool): nat {
    if logs == [] then 0
    else CountPicked(logs[..|logs| - 1], pick) + if pick(logs[|logs| - 1]) then 1 else 0
  }

  lemma {:induction false} SinceCounts(logs: seq<AuditLog>, since: int, pick: AuditLog -> bool)
    ensures CountPicked(Since(logs, since), pick) == |Picked(logs, since, pick)|
  {
    if logs != [] {
      var front, last := logs[..|logs| - 1], logs[|logs| - 1];
      SinceCounts(front, since, pick);
      var added := if last.createdAt >= since && pick(last) then {|front|} else {};
      assert forall i :: 0 <= i < |front| ==> logs[i] == front[i];
      assert Picked(logs, since, pick) == Picked(front, since, pick) + added;
      assert |front| !in Picked(front, since, pick);
      if last.createdAt >= since {
        CountNext(Since(front, since), last, pick);
      } else {
        assert Since(logs, since) == Since(front, since);
      }
    }
  }

  lemma CountNext(logs: seq<AuditLog>, a: AuditLog, pick: AuditLog -> bool)
    ensures CountPicked(logs + [a], pick) == CountPicked(logs, pick) + if pick(a) then 1 else 0
  {
    assert (logs + [a])[..|logs + [a]| - 1] == logs;
  }

  lemma {:induction false} CountsAll(logs: seq<AuditLog>)
    ensures CountPicked(logs, (a: AuditLog) => true) == |logs|
  {
    if logs != [] { CountsAll(logs[..|logs| - 1]); }
  }

  lemma {:induction false} CountsAction(logs: seq<AuditLog>, name: string)
    ensures CountPicked(logs, (a: AuditLog) => a.action == name) == multiset(ActionsOf(logs))[name]
  {
    if logs != [] {
      var front, last := logs[..|logs| - 1], logs[|logs| - 1];
      CountsAction(front, name);
      assert ActionsOf(logs) == ActionsOf(front) + [last.action];
    }
  }

  lemma {:induction false} CountsEntity(logs: seq<AuditLog>, name: string)
    ensures CountPicked(logs, (a: AuditLog) => a.entityType == name) == multiset(EntitiesOf(logs))[name]
  {
    if logs != [] {
      var front, last := logs[..|logs| - 1], logs[|logs| - 1];
      CountsEntity(front, name);
      assert EntitiesOf(logs) == EntitiesOf(front) + [last.entityType];
    }
  }

  /** Each actor of an entry from `since` on, once. */
  lemma {:induction false} SinceActors(logs: seq<AuditLog>, since: int, actor: string)
    ensures actor in ActorsOf(Since(logs, since)) <==>
            exists i :: 0 <= i < |logs| && logs[i].createdAt >= since && logs[i].actor == actor
  {
    if logs != [] {
      var front, last := logs[..|logs| - 1], logs[|logs| - 1];
      SinceActors(front, since, actor);
      assert forall i :: 0 <= i < |front| ==> logs[i] == front[i];
      var kept, all := Since(front, since), Since(logs, since);
      assert forall i :: 0 <= i < |kept| ==> all[i] == kept[i];
      if last.createdAt >= since { assert all[|kept|] == last; }
    }
  }

  /** The five figures in terms of the log itself: how many entries from `since` on there are, in all,
      of transitions, of each action and of each entity type, and whose they are. */
  lemma FiguresCountEntries(s: Summary, l0: seq<AuditLog>, l1: seq<AuditLog>, l2: seq<AuditLog>, l3: seq<AuditLog>,
                            l4: seq<AuditLog>, name: string)
    requires Summarises(s, l0, l1, l2, l3, l4)
    ensures s.total == |Picked(l0, s.since, (a: AuditLog) => true)|
    ensures s.transitions == |Picked(l1, s.since, (a: AuditLog) => a.action == "transition")|
    ensures s.uniqueActors == |set i | 0 <= i < |l2| && l2[i].createdAt >= s.since :: l2[i].actor|
    ensures CountFor(s.actions, name) == |Picked(l3, s.since, (a: AuditLog) => a.action == name)|
    ensures CountFor(s.entityTypes, name) == |Picked(l4, s.since, (a: AuditLog) => a.entityType == name)|
  {
    SinceCounts(l0, s.since, (a: AuditLog) => true);
    CountsAll(Since(l0, s.since));
    SinceCounts(l1, s.since, (a: AuditLog) => a.action == "transition");
    CountsAction(Since(l1, s.since), "transition");
    var actors := set i | 0 <= i < |l2| && l2[i].createdAt >= s.since :: l2[i].actor;
    forall actor ensures actor in actors <==> actor in ActorsOf(Since(l2, s.since)) {
      SinceActors(l2, s.since, actor);
    }
    assert actors == ActorsOf(Since(l2, s.since));
    GroupedLog(s.actions, ActionsOf(Since(l3, s.since)), name);
    SinceCounts(l3, s.since, (a: AuditLog) => a.action == name);
    CountsAction(Since(l3, s.since), name);
    GroupedLog(s.entityTypes, EntitiesOf(Since(l4, s.since)), name);
    SinceCounts(l4, s.since, (a: AuditLog) => a.entityType == name);
    CountsEntity(Since(l4, s.since), name);
  }

  // ---- how the figures compare ----

  lemma {:induction false} SinceGrows(logs: seq<AuditLog>, more: seq<AuditLog>, since: int)
    ensures Since(logs, since) <= Since(logs + more, since)
  {
    if more == [] {
      assert logs + more == logs;
    } else {
      var front := more[..|more| - 1];
      SinceGrows(logs, front, since);
      assert (logs + more)[..|logs + more| - 1] == logs + front;
    }
  }

  lemma {:induction false} FewActors(logs: seq<AuditLog>)
    ensures |ActorsOf(logs)| <= |logs|
  {
    if logs != [] {
      var front := logs[..|logs| - 1];
      FewActors(front);
      assert ActorsOf(logs) <= ActorsOf(front) + {logs[|logs| - 1].actor};
      SubsetSize(ActorsOf(logs), ActorsOf(front) + {logs[|logs| - 1].actor});
    }
  }

  lemma {:induction false} GroupedLog(groups: seq<Group>, xs: seq<string>, name: string)
    requires Groups(groups, Tally(xs))
    ensures Sum(groups) == |xs| && CountFor(groups, name) == multiset(xs)[name]
  {
    GroupsAddUp(groups, Tally(xs), name);
    TallyTotal(xs);
    TallyCounts(xs, name);
  }

  /** With entries arriving between the queries the figures can only lag behind one another in query
      order: Total <= sum of the actions <= sum of the entity types, Transitions <= the count of that
      action, and there are no more actors than entries. On a log at rest they agree exactly. */
  lemma SummaryIsConsistent(s: Summary, l0: seq<AuditLog>, a: seq<AuditLog>, b: seq<AuditLog>, c: seq<AuditLog>,
                            d: seq<AuditLog>)
    requires Summarises(s, l0, l0 + a, l0 + a + b, l0 + a + b + c, l0 + a + b + c + d)
    ensures s.total <= Sum(s.actions) <= Sum(s.entityTypes)
    ensures s.transitions <= CountFor(s.actions, "transition")
    ensures s.uniqueActors <= Sum(s.actions)
    ensures a == b == c == d == [] ==>
              && s.total == Sum(s.actions) == Sum(s.entityTypes)
              && s.transitions == CountFor(s.actions, "transition")
              && s.uniqueActors <= s.total
  {
    var l1, l2, l3, l4 := l0 + a, l0 + a + b, l0 + a + b + c, l0 + a + b + c + d;
    SinceGrows(l0, a, s.since);
    SinceGrows(l1, b, s.since);
    SinceGrows(l2, c, s.since);
    SinceGrows(l3, d, s.since);
    GroupedLog(s.actions, ActionsOf(Since(l3, s.since)), "transition");
    GroupedLog(s.entityTypes, EntitiesOf(Since(l4, s.since)), "transition");
    FewActors(Since(l2, s.since));
    var seen, all := ActionsOf(Since(l1, s.since)), ActionsOf(Since(l3, s.since));
    assert Since(l1, s.since) <= Since(l3, s.since);
    assert all == seen + all[|seen|..];
    if a == b == c == d == [] {
      assert l1 == l0 && l2 == l0 && l3 == l0 && l4 == l0;
    }
  }
}
