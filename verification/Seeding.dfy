/** The decisions that a fresh database starts with, and why the guarantees hold from there on. */
module Seeding {
  import opened Basics
  import opened Text
  import opened Statuses
  import opened Records
  import opened Tables
  import opened Protocol
  import opened Invariant
  import opened ObservedVersions
  import opened Commits
  import opened Guarantees
  import opened Repositories
  import opened Serving
  import opened Trails

  function SeedItem(number: nat, name: string, status: string, version: Uint, facility: string, owner: string,
                    category: string, riskLevel: string, metric: real, unit: string, hours: int, now: int): Row
    requires number < 10
  {
    var digit := ['0' + number as char];
    Row(0, "PD-00" + digit, status, version,
        Fields(name, "用于启动验证和主要流程演示的优先级决定记录", facility, owner, category, riskLevel, metric, unit,
               now + 3600 * hours, "已完成基础证据核对", "DF-00" + digit),
        "operator", 0, 0, false)
  }

  function SeedItems(now: int): seq<Row> {
    [SeedItem(1, "优先级决定示例一", "draft", 1, "铁路桥梁缺陷处置优先级区域1", "运行一组", "常规", "low", 12.5, "unit", 0, now),
     SeedItem(2, "优先级决定示例二", "observe", 2, "铁路桥梁缺陷处置优先级区域2", "质量复核组", "重点", "medium", 25.0, "%", 3, now),
     SeedItem(3, "优先级决定示例三", "restrict", 2, "铁路桥梁缺陷处置优先级区域3", "安全主管组", "复核", "high", 37.5, "score", 6, now)]
  }

  /** A draft has one revision; a finalised decision has the draft's and the review's. */
  function SeedRevisions(row: Row, now: int): seq<Revision> {
    var first := Revision(row.id, 1, "draft", row.fields.evidence, "seeded decision draft", "operator",
                          "seed-" + row.code + "-create", Brief(row.code, "draft", row.fields.evidence), now);
    if row.status == "draft" then [first]
    else [first, Revision(row.id, row.version, row.status, row.fields.evidence, "seeded independent review", "reviewer",
                          "seed-" + row.code + "-review", Brief(row.code, row.status, row.fields.evidence), now + 60)]
  }

  lemma SeedRevisionsTell(row: Row, now: int)
    ensures var revs := SeedRevisions(row, now);
            && |revs| == (if row.status == "draft" then 1 else 2)
            && revs[0].version == 1 && revs[0].status == "draft" && revs[0].actor == "operator"
            && revs[0].reason == "seeded decision draft" && revs[0].requestID == "seed-" + row.code + "-create"
            && revs[0].createdAt == now
            && (row.status != "draft" ==>
                  && revs[1].version == row.version && revs[1].status == row.status && revs[1].actor == "reviewer"
                  && revs[1].reason == "seeded independent review"
                  && revs[1].requestID == "seed-" + row.code + "-review" && revs[1].createdAt == now + 60)
    ensures forall rev :: rev in SeedRevisions(row, now) ==>
              && rev.decisionId == row.id && rev.evidence == row.fields.evidence
              && rev.snapshot == Brief(row.code, rev.status, row.fields.evidence)
  {
  }

  function Stored(item: Row, id: nat, now: int): Row {
    item.(id := id, createdAt := now, updatedAt := now)
  }

  /** The tables after the first `n` seeded decisions went into an empty database. */
  function SeededDb(items: seq<Row>, n: nat, now: int): Db
    requires n <= |items|
  {
    if n == 0 then Db(map[], map[])
    else
      var before := SeededDb(items, n - 1, now);
      var row := Stored(items[n - 1], n, now);
      Db(before.rows[n := row], before.revisions[n := SeedRevisions(row, now)])
  }

  predicate Seedable(items: seq<Row>) {
    && (forall i :: 0 <= i < |items| ==> SeedableItem(items[i]))
    && (forall i, j :: 0 <= i < j < |items| ==> items[i].code != items[j].code)
  }

  predicate SeedableItem(item: Row) {
    && !item.deleted && item.preparedBy == "operator"
    && if item.status == "draft" then item.version == 1 else item.version == 2 && IsPriorityLevel(item.status)
  }

  predicate ValidItems(items: seq<Row>) {
    forall i :: 0 <= i < |items| ==> DECISION.valid(items[i].code, items[i].fields)
  }

  predicate Tidy(s: string) {
    s != "" && Trimmed(s)
  }

  predicate TidyItem(item: Row) {
    && Tidy(item.code) && Tidy(item.fields.name) && Tidy(item.fields.facility) && Tidy(item.fields.owner)
    && Tidy(item.fields.evidence) && Tidy(item.fields.relatedCode)
  }

  lemma TidyIsValid(item: Row)
    requires TidyItem(item)
    ensures DECISION.valid(item.code, item.fields)
  {
    TrimProjects(item.code); TrimProjects(item.fields.name); TrimProjects(item.fields.facility);
    TrimProjects(item.fields.owner); TrimProjects(item.fields.evidence); TrimProjects(item.fields.relatedCode);
  }

  lemma SeedItemsTidy(now: int)
    ensures var items := SeedItems(now); TidyItem(items[0]) && TidyItem(items[1]) && TidyItem(items[2])
  {
  }

  /** The seeds bypass the service, yet they pass its validation. */
  lemma SeedItemsValid(now: int)
    ensures ValidItems(SeedItems(now))
  {
    SeedItemsTidy(now);
    forall i | 0 <= i < 3 ensures DECISION.valid(SeedItems(now)[i].code, SeedItems(now)[i].fields) {
      TidyIsValid(SeedItems(now)[i]);
    }
  }

  lemma SeedItemsSeedable(now: int)
    ensures Seedable(SeedItems(now))
    ensures var items := SeedItems(now);
            && |items| == 3 && items[0].code == "PD-001" && items[1].code == "PD-002" && items[2].code == "PD-003"
            && items[0].status == "draft" && items[1].status == "observe" && items[2].status == "restrict"
  {
    var items := SeedItems(now);
    assert items[0].code[5] != items[1].code[5] && items[0].code[5] != items[2].code[5];
    assert items[1].code[5] != items[2].code[5];
  }

  predicate StoredAt(db: Db, items: seq<Row>, id: nat, now: int)
    requires 1 <= id <= |items|
  {
    && id in db.rows && db.rows[id] == Stored(items[id - 1], id, now)
    && id in db.revisions && db.revisions[id] == SeedRevisions(db.rows[id], now)
  }

  /** Row and revisions of item i have id i + 1, and there is nothing else. */
  lemma {:induction false} SeededRows(items: seq<Row>, n: nat, now: int)
    requires n <= |items|
    ensures var db := SeededDb(items, n, now);
            && (forall id :: id in db.rows ==> 1 <= id <= n)
            && db.revisions.Keys == db.rows.Keys
            && (forall id {:trigger StoredAt(db, items, id, now)} :: 1 <= id <= n ==> StoredAt(db, items, id, now))
  {
    if n > 0 {
      var before, db := SeededDb(items, n - 1, now), SeededDb(items, n, now);
      SeededRows(items, n - 1, now);
      forall id {:trigger StoredAt(db, items, id, now)} | 1 <= id <= n ensures StoredAt(db, items, id, now) {
        if id < n { assert StoredAt(before, items, id, now); }
      }
    }
  }

  /** The next item meets no code and no id of the items before it. */
  lemma NextItemFits(items: seq<Row>, n: nat, now: int)
    requires Seedable(items) && n < |items|
    ensures var db := SeededDb(items, n, now);
            !CodeTaken(db, items[n].code) && n + 1 !in db.revisions
  {
    var db := SeededDb(items, n, now);
    SeededRows(items, n, now);
    forall id | id in db.rows ensures db.rows[id].code != items[n].code {
      assert StoredAt(db, items, id, now);
    }
  }

  lemma SeedRevisionsFit(row: Row, now: int)
    requires SeedableItem(row)
    ensures Ordered(SeedRevisions(row, now)) && SeedRevisions(row, now) != []
    ensures forall rev :: rev in SeedRevisions(row, now) ==> rev.decisionId == row.id
  {
  }

  /** Inserts the revisions of one decision; the caller rolls back when this fails. */
  method InsertAll(repository: DecisionRepository, id: nat, pending: seq<Revision>) returns (ok: bool)
    requires Ordered(pending) && pending != [] && forall rev :: rev in pending ==> rev.decisionId == id
    modifies repository.table
    ensures repository.table.rows == old(repository.table.rows)
    ensures repository.table.lastId == old(repository.table.lastId)
    ensures id !in old(repository.table.revisions) ==>
              ok && repository.table.revisions == old(repository.table.revisions)[id := pending]
  {
    var table := repository.table;
    for i := 0 to |pending|
      invariant table.rows == old(table.rows) && table.lastId == old(table.lastId)
      invariant id !in old(table.revisions) ==>
                  table.revisions == if i == 0 then old(table.revisions) else old(table.revisions)[id := pending[..i]]
    {
      assert pending[i] in pending;
      if id !in old(table.revisions) {
        InsertAtEnd(pending[..i], pending[i]);
        assert pending[..i] + [pending[i]] == pending[..i + 1];
      }
      ok := repository.AppendRevision(pending[i]);
      if !ok {
        return;
      }
    }
    assert pending[..|pending|] == pending;
    ok := true;
  }

  /** Inserts one decision with its revisions; the caller rolls back when this fails. */
  method SeedOne(table: Table, item: Row, now: int) returns (ok: bool)
    requires table.Valid() && SeedableItem(item)
    modifies table
    ensures table.Valid()
    ensures !CodeTaken(old(table.View()), item.code) && old(table.lastId) + 1 !in old(table.revisions) ==>
              var row := Stored(item, old(table.lastId) + 1, now);
              && ok && table.lastId == row.id
              && table.View() ==
                   Db(old(table.rows)[row.id := row], old(table.revisions)[row.id := SeedRevisions(row, now)])
  {
    if !CodeTaken(table.View(), item.code) {
      RowInserted(table.View(), table.lastId + 1, item, now);
    }
    var repository := new DecisionRepository(table);
    var created := repository.store.Create(item, true, now);
    if created.Err? {
      return false;
    }
    SeedRevisionsFit(created.value, now);
    ok := InsertAll(repository, created.value.id, SeedRevisions(created.value, now));
  }

  /** Seeds the table if it holds no live decision, in one transaction that leaves nothing behind when
      an insertion is refused. */
  method SeedPriorityDecision(table: Table, items: seq<Row>, now: int) returns (ok: bool)
    requires table.Valid() && Seedable(items)
    modifies table
    ensures table.Valid()
    ensures (exists id :: id in old(table.rows) && !old(table.rows)[id].deleted) ==>
              ok && table.View() == old(table.View())
    ensures !ok ==> table.View() == old(table.View()) && table.lastId == old(table.lastId)
    ensures old(table.View()) == Db(map[], map[]) && old(table.lastId) == 0 ==>
              ok && table.View() == SeededDb(items, |items|, now)
  {
    if exists id :: id in table.rows && !table.rows[id].deleted {
      return true;
    }
    var rows, revisions, lastId := table.rows, table.revisions, table.lastId;
    ok := SeedAll(table, items, now);
    if !ok {
      table.rows, table.revisions, table.lastId := rows, revisions, lastId; // rollback
    }
  }

  /** The statements of that transaction. */
  method SeedAll(table: Table, items: seq<Row>, now: int) returns (ok: bool)
    requires table.Valid() && Seedable(items)
    modifies table
    ensures table.Valid()
    ensures old(table.View()) == Db(map[], map[]) && old(table.lastId) == 0 ==>
              ok && table.View() == SeededDb(items, |items|, now)
  {
    ghost var empty := table.View() == Db(map[], map[]) && table.lastId == 0;
    for i := 0 to |items|
      invariant table.Valid()
      invariant empty ==> table.View() == SeededDb(items, i, now) && table.lastId == i
    {
      NextItemFits(items, i, now);
      ok := SeedOne(table, items[i], now);
      if !ok {
        return;
      }
    }
    ok := true;
  }

  // ---- seeded tables are at rest ----

  function SeedHistory(row: Row): seq<Entry> {
    var draft := row.(status := "draft", version := 1);
    var first := Entry(draft, Created, Caller("operator", "operator", "seed-" + row.code + "-create"), draft, None);
    if row.status == "draft" then [first]
    else [first, Entry(row, Moved, Caller("reviewer", REVIEWER, "seed-" + row.code + "-review"), draft, None)]
  }

  function SeededState(items: seq<Row>, now: int): State {
    var db := SeededDb(items, |items|, now);
    State(db, [], [], map[], map id | id in db.rows :: SeedHistory(db.rows[id]), [])
  }

  lemma SeedRecordOk(db: Db, hist: map<nat, seq<Entry>>, id: nat, now: int)
    requires id in db.rows && id in hist && id in db.revisions
    requires SeedableItem(db.rows[id]) && DECISION.valid(db.rows[id].code, db.rows[id].fields)
    requires db.rows[id].id == id && hist[id] == SeedHistory(db.rows[id])
    requires db.revisions[id] == SeedRevisions(db.rows[id], now)
    ensures RecordOk(DECISION, db, hist, id)
  {
    var row, h, revs := db.rows[id], hist[id], db.revisions[id];
    assert EntryOk(DECISION, id, h, 0);
    if row.status != "draft" {
      DecisionMoves("draft", row.status);
      assert EntryOk(DECISION, id, h, 1);
    }
    forall k | 0 <= k < |h| ensures EntryOk(DECISION, id, h, k) && MirrorAt(revs, h, k) {
      assert k == 0 || k == 1;
    }
  }

  /** Base case of every guarantee about decisions: the seeded tables form a well-kept history. */
  lemma SeededAtRest(items: seq<Row>, now: int)
    requires Seedable(items) && ValidItems(items)
    ensures Rest(DECISION, SeededState(items, now))
  {
    var s := SeededState(items, now);
    SeededRows(items, |items|, now);
    SeededCodes(items, now);
    SeededRecordsOk(items, now, s.db, s.hist);
    SeededStacked(s);
  }

  lemma SeededRecordsOk(items: seq<Row>, now: int, db: Db, hist: map<nat, seq<Entry>>)
    requires Seedable(items) && ValidItems(items) && CodesUnique(db)
    requires hist.Keys == db.rows.Keys == db.revisions.Keys
    requires forall id :: id in db.rows ==> 1 <= id <= |items|
    requires forall id {:trigger StoredAt(db, items, id, now)} :: 1 <= id <= |items| ==> StoredAt(db, items, id, now)
    requires forall id {:trigger hist[id]} :: id in db.rows ==> hist[id] == SeedHistory(db.rows[id])
    ensures RecordsOk(DECISION, db, hist)
  {
    forall id {:trigger RecordOk(DECISION, db, hist, id)} | id in db.rows ensures RecordOk(DECISION, db, hist, id) {
      SeededRecordOk(items, now, db, hist, id);
    }
  }

  lemma SeededRecordOk(items: seq<Row>, now: int, db: Db, hist: map<nat, seq<Entry>>, id: nat)
    requires Seedable(items) && ValidItems(items) && 1 <= id <= |items| && StoredAt(db, items, id, now)
    requires id in hist && hist[id] == SeedHistory(db.rows[id])
    ensures RecordOk(DECISION, db, hist, id)
  {
    assert SeedableItem(items[id - 1]);
    SeedRecordOk(db, hist, id, now);
  }

  lemma SeededStacked(s: State)
    requires forall id :: id in s.hist ==> id in s.db.rows && s.hist[id] == SeedHistory(s.db.rows[id])
    ensures Stacked(s)
  {
    forall id, k: nat {:trigger OnPrevious(s.hist[id], k)} | id in s.hist ensures OnPrevious(s.hist[id], k) {
      SeedHistoryStacked(s.hist[id], s.db.rows[id], k);
    }
  }

  lemma SeedHistoryStacked(h: seq<Entry>, row: Row, k: nat)
    requires h == SeedHistory(row)
    ensures OnPrevious(h, k)
  {
  }

  lemma SeededCodes(items: seq<Row>, now: int)
    requires Seedable(items)
    ensures CodesUnique(SeededDb(items, |items|, now))
  {
    var db := SeededDb(items, |items|, now);
    SeededRows(items, |items|, now);
    forall i, j ensures Distinct(db, i, j) {
      if i in db.rows && j in db.rows && i != j {
        assert StoredAt(db, items, i, now) && StoredAt(db, items, j, now);
        assert items[i - 1].code != items[j - 1].code;
      }
    }
  }

  // ---- what the guarantees say of seeded tables ----

  lemma SeededIsBrief(items: seq<Row>, now: int, id: nat, k: nat)
    requires Seedable(items)
    requires var s := SeededState(items, now); id in s.hist && k < |s.hist[id]|
    ensures var s := SeededState(items, now);
            && k < |RevisionsOf(s.db, id)| && RevisionsOf(s.db, id)[k].snapshot.Brief? && s.hist[id][k].task.None?
  {
    var s := SeededState(items, now);
    SeededRows(items, |items|, now);
    assert StoredAt(s.db, items, id, now);
  }

  /** In every run from seeded tables a revision holds the whole decision if and only if a request of
      the run has written it. */
  lemma FullIffRequested(items: seq<Row>, now: int, steps: seq<Step>, id: nat, k: nat)
    requires Seedable(items) && ValidItems(items)
    requires id in Run(DECISION, SeededState(items, now), steps).db.rows
    requires k < |RevisionsOf(Run(DECISION, SeededState(items, now), steps).db, id)|
    ensures var s := Run(DECISION, SeededState(items, now), steps);
            && id in s.hist && k < |s.hist[id]|
            && (RevisionsOf(s.db, id)[k].snapshot.Full? <==> Authored(s, s.hist[id][k]))
  {
    var start := SeededState(items, now);
    var s := Run(DECISION, start, steps);
    SeededAtRest(items, now);
    RunKeeps(DECISION, start, steps);
    assert Reachable(DECISION, s);
    RevisionChain(DECISION, s, id);
    if id in start.hist && k < |start.hist[id]| {
      SeededIsBrief(items, now, id, k);
      assert GrowsAt(start, s, id);
    } else {
      SnapshotsOfRequests(DECISION, start, steps, id, k);
    }
  }

  /** Whole calls on seeded tables, no entry lost: for each decision, seeded or created later, the
      revisions that it was seeded with and then its audit trail are its revision statuses, with
      "deleted" at the end if it is gone; and only drafts are deleted. */
  lemma TrailsFromSeeds(items: seq<Row>, now: int, calls: seq<Call>, id: nat)
    requires Seedable(items) && ValidItems(items) && forall c :: c in calls ==> c.up.audit
    ensures var start := SeededDb(items, |items|, now);
            var end := HandleAll(DECISION, World(start, []), calls);
            && Line(end.db, id) == StatusesOf(RevisionsOf(start, id)) + Trail(end.audits, id)
            && (id in end.db.rows && end.db.rows[id].deleted ==> end.db.rows[id].status == "draft")
  {
    var s := SeededState(items, now);
    SeededAtRest(items, now);
    InvIsSound(s, id);
    SeededLive(items, now, id);
    TrailsContinue(s.db, calls, id);
  }

  lemma SeededLive(items: seq<Row>, now: int, id: nat)
    requires Seedable(items)
    ensures var db := SeededDb(items, |items|, now); id in db.rows ==> !db.rows[id].deleted
  {
    var db := SeededDb(items, |items|, now);
    SeededRows(items, |items|, now);
    if id in db.rows { assert StoredAt(db, items, id, now) && SeedableItem(items[id - 1]); }
  }

  /** The seeds of the other three aggregates, one row each: any distinct valid rows at version 1. */
  ghost predicate FreshRows(p: Policy, db: Db) {
    && !p.reviewed && db.revisions == map[] && CodesUnique(db)
    && forall id :: id in db.rows ==> FreshRow(p, id, db.rows[id])
  }

  ghost predicate FreshRow(p: Policy, id: nat, row: Row) {
    row.id == id && row.version == 1 && !row.deleted && p.valid(row.code, row.fields)
  }

  function FreshHistory(row: Row): seq<Entry> {
    [Entry(row, Created, Caller("", "", ""), row, None)]
  }

  /** Their base case: whatever their statuses are, such tables are at rest. */
  lemma FreshRowsAtRest(p: Policy, db: Db)
    requires FreshRows(p, db)
    ensures Rest(p, State(db, [], [], map[], map id | id in db.rows :: FreshHistory(db.rows[id]), []))
  {
    var hist := map id | id in db.rows :: FreshHistory(db.rows[id]);
    forall id | id in db.rows ensures RecordOk(p, db, hist, id) {
      assert FreshRow(p, id, db.rows[id]);
      assert EntryOk(p, id, hist[id], 0);
    }
  }
}
