/** Lists, pages and status counts, compared with the rows that they summarise. */
module Queries {
  import opened Basics
  import opened Text
  import opened Records
  import opened Tables
  import opened Tallies

  // ---- paging ----

  /** Go's `int`. */
  const INT_LIMIT := 0x8000_0000_0000_0000

  function WrapInt(x: int): int {
    (x + INT_LIMIT) % (2 * INT_LIMIT) - INT_LIMIT
  }

  function NormalizePage(page: int, pageSize: int): (int, int) {
    (if page < 1 then 1 else page,
     if pageSize < 1 then 20 else if pageSize > 100 then 100 else pageSize)
  }

  /** Pages count from 1 and hold 1 to 100 rows, 20 if none are asked for; a page in range is kept. */
  lemma NormalPage(page: int, pageSize: int)
    ensures var (p, n) := NormalizePage(page, pageSize);
            && p >= 1 && 1 <= n <= 100
            && (page >= 1 ==> p == page) && (page < 1 ==> p == 1)
            && (1 <= pageSize <= 100 ==> n == pageSize) && (pageSize < 1 ==> n == 20) && (pageSize > 100 ==> n == 100)
  {
  }

  /** Wrapping keeps the 64 low bits. */
  lemma WrapIntKeepsBits(x: int)
    ensures -INT_LIMIT <= WrapInt(x) < INT_LIMIT && (x - WrapInt(x)) % (2 * INT_LIMIT) == 0
  {
    var y := x + INT_LIMIT;
    assert x - WrapInt(x) == y - y % (2 * INT_LIMIT);
  }

  /** The handler's own defaults; an oversized page becomes 20 here and would become 100 there. */
  function BindPage(page: int, pageSize: int): (int, int) {
    (if page < 1 then 1 else page, if pageSize < 1 || pageSize > 100 then 20 else pageSize)
  }

  /** So the repository uses exactly the page that the handler echoes. */
  lemma BoundPagesAreNormal(page: int, pageSize: int)
    ensures var (p, n) := BindPage(page, pageSize);
            NormalizePage(p, n) == (p, n) && p >= 1 && 1 <= n <= 100
    ensures NormalizePage(page, pageSize) == BindPage(page, pageSize) <==> pageSize <= 100
  {
  }

  /** An offset that is not positive is not sent to the database. */
  function SentOffset(offset: int): nat { if offset < 0 then 0 else offset }

  /** LIMIT and OFFSET. */
  function Slice<T>(list: seq<T>, offset: int, limit: nat): seq<T> {
    var from := Min(SentOffset(offset), |list|);
    list[from..Min(from + limit, |list|)]
  }

  /** Page `page` of `list`, with no bound on the numbers. */
  function TruePage<T>(list: seq<T>, page: nat, size: nat): seq<T>
    requires page >= 1
  {
    list[Min((page - 1) * size, |list|)..Min((page - 1) * size + size, |list|)]
  }

  lemma SliceIffOffsetFits<T>(list: seq<T>, offset: nat, size: nat)
    requires size >= 1 && |list| < INT_LIMIT
    ensures Slice(list, WrapInt(offset), size) == list[Min(offset, |list|)..Min(offset + size, |list|)] <==>
            offset < INT_LIMIT || SentOffset(WrapInt(offset)) >= |list|
  {
    if offset < INT_LIMIT {
      assert WrapInt(offset) == offset;
    } else {
      assert |Slice(list, WrapInt(offset), size)| == 0 <==> SentOffset(WrapInt(offset)) >= |list|;
    }
  }

  /** What a page request shows of a listing: OFFSET is computed in an int. */
  function Shown<T>(list: seq<T>, page: int, size: nat): seq<T> {
    Slice(list, WrapInt((page - 1) * size), size)
  }

  /** The page that the repository serves is the right one if and only if the product
      (page - 1) * size fits in an int, or wraps to an offset that is past the end anyway. */
  lemma {:induction false} PageServedIffOffsetFits<T>(list: seq<T>, page: nat, size: nat)
    requires page >= 1 && size >= 1 && |list| < INT_LIMIT
    ensures Shown(list, page, size) == TruePage(list, page, size) <==>
            (page - 1) * size < INT_LIMIT || SentOffset(WrapInt((page - 1) * size)) >= |list|
  {
    MulGrows(0, page - 1, size);
    SliceIffOffsetFits(list, (page - 1) * size, size);
  }

  /** An unservable page: far beyond the end, it shows the first rows again. */
  lemma HugePageShowsFirstRows<T>(list: seq<T>)
    requires 0 < |list| < INT_LIMIT
    ensures var page := 0x4000_0000_0000_0001;
            TruePage(list, page, 2) == [] && Shown(list, page, 2) == TruePage(list, 1, 2) != []
  {
  }

  function Pages<T>(list: seq<T>, size: nat, count: nat): seq<T> {
    if count == 0 then [] else Pages(list, size, count - 1) + TruePage(list, count, size)
  }

  lemma {:induction false} PagesArePrefix<T>(list: seq<T>, size: nat, count: nat)
    ensures Pages(list, size, count) == list[..Min(count * size, |list|)]
  {
    if count > 0 {
      PagesArePrefix(list, size, count - 1);
      assert count * size == (count - 1) * size + size;
    }
  }

  function PageCount(total: nat, size: nat): nat
    requires size >= 1
  {
    (total + size - 1) / size
  }

  /** PageCount is the ceiling: the pages cover the rows, and the last page is not empty. */
  lemma PageCountIsCeiling(total: nat, size: nat)
    requires size >= 1
    ensures PageCount(total, size) * size >= total
    ensures total > 0 ==> (PageCount(total, size) - 1) * size < total
  {
    DivMod(total + size - 1, size);
    var n := PageCount(total, size);
    assert (n - 1) * size == n * size - size;
  }

  lemma DivMod(a: nat, size: nat)
    requires size >= 1
    ensures a == (a / size) * size + a % size && 0 <= a % size < size
  {
  }

  /** Enough pages hold everything, and nothing comes after them. */
  lemma {:induction false} PagesCover<T>(list: seq<T>, size: nat, count: nat, later: nat)
    requires count * size >= |list|
    ensures Pages(list, size, count) == list
    ensures later > count ==> TruePage(list, later, size) == []
  {
    PagesArePrefix(list, size, count);
    if later > count {
      MulGrows(count, later - 1, size);
      PagePastEnd(list, (later - 1) * size, size);
    }
  }

  lemma PagePastEnd<T>(list: seq<T>, offset: nat, size: nat)
    requires offset >= |list|
    ensures list[Min(offset, |list|)..Min(offset + size, |list|)] == []
  {
  }

  /** Pages 1, 2, ..., ceil(total/size) joined are the whole list, each row once and in order; every
      later page is empty. */
  lemma {:induction false} PagesPartition<T>(list: seq<T>, size: nat, later: nat)
    requires size >= 1
    ensures Pages(list, size, PageCount(|list|, size)) == list
    ensures later > PageCount(|list|, size) ==> TruePage(list, later, size) == []
  {
    PageCountIsCeiling(|list|, size);
    PagesCover(list, size, PageCount(|list|, size), later);
  }

  lemma MulGrows(a: nat, b: nat, size: nat)
    requires a <= b
    ensures a * size <= b * size
  {
    assert b * size == a * size + (b - a) * size;
  }

  // ---- the order of a list ----

  /** updated_at DESC, id DESC. */
  predicate Before(a: Row, b: Row) {
    a.updatedAt > b.updatedAt || (a.updatedAt == b.updatedAt && a.id > b.id)
  }

  predicate Sorted(list: seq<Row>) {
    forall i, j :: 0 <= i < j < |list| ==> Before(list[i], list[j])
  }

  predicate Listed(rows: map<nat, Row>, keep: Row -> bool, row: Row) {
    row.id in rows && rows[row.id] == row && !row.deleted && keep(row)
  }

  /** The live rows that pass the filter, each once, newest first. */
  ghost predicate IsListing(rows: map<nat, Row>, keep: Row -> bool, list: seq<Row>) {
    Sorted(list) && forall row :: row in list <==> Listed(rows, keep, row)
  }

  lemma {:induction false} SortedUnique(a: seq<Row>, b: seq<Row>)
    requires Sorted(a) && Sorted(b) && forall row :: row in a <==> row in b
    ensures a == b
  {
    if a != [] || b != [] {
      var row := if a != [] then a[0] else b[0];
      assert row in a && row in b;
      assert a[0] in b && b != [] && b[0] in a;
      forall row ensures row in a[1..] <==> row in b[1..] {
        assert row in a <==> row == a[0] || row in a[1..];
        assert row in b <==> row == b[0] || row in b[1..];
      }
      SortedUnique(a[1..], b[1..]);
    }
  }

  /** There is one listing, so what a query returns is determined. */
  lemma ListingUnique(rows: map<nat, Row>, keep: Row -> bool, a: seq<Row>, b: seq<Row>)
    requires IsListing(rows, keep, a) && IsListing(rows, keep, b)
    ensures a == b
  {
    SortedUnique(a, b);
  }

  function Place(list: seq<Row>, row: Row): seq<Row> {
    if list == [] || Before(row, list[0]) then [row] + list else [list[0]] + Place(list[1..], row)
  }

  lemma {:induction false} PlaceKeepsOrder(list: seq<Row>, row: Row)
    requires Sorted(list) && forall r :: r in list ==> r.id != row.id
    ensures Sorted(Place(list, row))
    ensures forall r :: r in Place(list, row) <==> r == row || r in list
  {
    if list != [] && !Before(row, list[0]) {
      var rest := Place(list[1..], row);
      assert forall r :: r in list[1..] ==> r in list;
      PlaceKeepsOrder(list[1..], row);
      assert list == [list[0]] + list[1..];
      forall i | 0 <= i < |rest| ensures Before(list[0], rest[i]) {
        assert rest[i] in rest;
        if rest[i] in list[1..] {
          var j :| 0 <= j < |list[1..]| && list[1..][j] == rest[i];
          assert list[1..][j] == list[j + 1];
        } else {
          assert list[0] in list;
        }
      }
    }
  }

  datatype Page = Page(items: seq<Row>, total: nat, page: int, pageSize: int)

  /** A list request. `like` stands for the SQL pattern match on code and name. */
  datatype Query = Query(page: int, pageSize: int, search: string, status: string)

  function Keep(q: Query, like: (string, Row) -> bool): Row -> bool {
    (row: Row) =>
      && (Trim(q.search) == "" || like(Trim(q.search), row))
      && (Trim(q.status) == "" || row.status == Trim(q.status))
  }

  /** SELECT ... ORDER BY over the live rows that pass the filter. */
  method Select(rows: map<nat, Row>, keep: Row -> bool) returns (list: seq<Row>)
    requires Keyed(rows)
    ensures IsListing(rows, keep, list)
    ensures forall row :: row in list <==> row.id in rows && rows[row.id] == row && !row.deleted && keep(row)
    ensures forall i, j :: 0 <= i < j < |list| ==>
              || list[i].updatedAt > list[j].updatedAt
              || (list[i].updatedAt == list[j].updatedAt && list[i].id > list[j].id)
  {
    list := [];
    var ids := rows.Keys;
    while ids != {}
      invariant ids <= rows.Keys && Sorted(list)
      invariant forall row :: row in list <==> Listed(rows, keep, row) && row.id !in ids
      decreases |ids|
    {
      var id :| id in ids;
      ids := ids - {id};
      var row := rows[id];
      if !row.deleted && keep(row) {
        PlaceKeepsOrder(list, row);
        list := Place(list, row);
      }
    }
  }

  /** The filters, each on its own: without them every row is kept, a status keeps the rows that have
      it, and a search keeps the rows that match it. */
  lemma KeepFilters(q: Query, like: (string, Row) -> bool, row: Row)
    ensures Blank(q.search) && Blank(q.status) ==> Keep(q, like)(row)
    ensures Blank(q.search) && !Blank(q.status) ==> (Keep(q, like)(row) <==> row.status == Trim(q.status))
    ensures !Blank(q.search) && Blank(q.status) ==> (Keep(q, like)(row) <==> like(Trim(q.search), row))
    ensures !Blank(q.search) && !Blank(q.status) ==>
              (Keep(q, like)(row) <==> row.status == Trim(q.status) && like(Trim(q.search), row))
  {
    TrimBlank(q.search);
    TrimBlank(q.status);
  }

  /** `items` is what the repository shows of page `page`, which is that page when its offset fits. */
  predicate Serves(items: seq<Row>, all: seq<Row>, page: int, size: int)
    requires page >= 1 && size >= 1
  {
    && items == Shown(all, page, size)
    && (|all| < INT_LIMIT && (page - 1) * size < INT_LIMIT ==> items == TruePage(all, page, size))
  }

  lemma ShownServes(all: seq<Row>, page: int, size: int)
    requires page >= 1 && size >= 1
    ensures Serves(Shown(all, page, size), all, page, size)
  {
    if |all| < INT_LIMIT {
      PageServedIffOffsetFits(all, page, size);
    }
  }

  /** The total and one page, as the repository answers: the first statement counts `rows`, the
      second, before which others may write, reads `later`. */
  method List(rows: map<nat, Row>, later: map<nat, Row>, q: Query, like: (string, Row) -> bool) returns (answer: Page)
    requires Keyed(rows) && Keyed(later)
    ensures (answer.page, answer.pageSize) == NormalizePage(q.page, q.pageSize)
    ensures exists all :: IsListing(rows, Keep(q, like), all) && answer.total == |all|
    ensures exists all ::
              IsListing(later, Keep(q, like), all) && Serves(answer.items, all, answer.page, answer.pageSize)
  {
    var (page, pageSize) := NormalizePage(q.page, q.pageSize);
    var counted := Select(rows, Keep(q, like));
    var matching := Select(later, Keep(q, like));
    answer := Page(Shown(matching, page, pageSize), |counted|, page, pageSize);
    ShownServes(matching, page, pageSize);
  }

  // ---- status counts ----

  function StatusesIn(list: seq<Row>): seq<string> {
    seq(|list|, i requires 0 <= i < |list| => list[i].status)
  }

  const EVERY: Row -> bool := (row: Row) => true

  method CountByStatus(rows: map<nat, Row>) returns (counts: map<string, nat>)
    requires Keyed(rows)
    ensures exists all :: IsListing(rows, EVERY, all) && counts == Tally(StatusesIn(all))
  {
    var list := Select(rows, EVERY);
    counts := map[];
    for i := 0 to |list|
      invariant counts == Tally(StatusesIn(list[..i]))
    {
      assert StatusesIn(list[..i + 1])[..i] == StatusesIn(list[..i]);
      counts := Bump(counts, list[i].status);
    }
    assert list[..|list|] == list;
  }

  function WithStatus(list: seq<Row>, status: string): seq<Row> {
    if list == [] then []
    else WithStatus(list[..|list| - 1], status) + if list[|list| - 1].status == status then [list[|list| - 1]] else []
  }

  lemma {:induction false} WithStatusMembers(list: seq<Row>, status: string)
    ensures forall row :: row in WithStatus(list, status) <==> row in list && row.status == status
    ensures |WithStatus(list, status)| == multiset(StatusesIn(list))[status]
  {
    if list != [] {
      var front, last := list[..|list| - 1], list[|list| - 1];
      WithStatusMembers(front, status);
      assert list == front + [last] && StatusesIn(list) == StatusesIn(front) + [last.status];
    }
  }

  lemma {:induction false} WithStatusSorted(list: seq<Row>, status: string)
    requires Sorted(list)
    ensures Sorted(WithStatus(list, status))
  {
    if list != [] {
      var front, last := list[..|list| - 1], list[|list| - 1];
      WithStatusSorted(front, status);
      WithStatusMembers(front, status);
      var kept := WithStatus(front, status);
      forall i | 0 <= i < |kept| ensures Before(kept[i], last) {
        assert kept[i] in kept;
        var j :| 0 <= j < |front| && front[j] == kept[i];
        assert list[j] == front[j];
      }
    }
  }

  /** The status counts add up to the unfiltered total, agree with the total filtered by each status,
      and leave out statuses that no live row has. */
  lemma CountsAgreeWithLists(rows: map<nat, Row>, all: seq<Row>, status: string, some: seq<Row>)
    requires IsListing(rows, EVERY, all) && IsListing(rows, (row: Row) => row.status == status, some)
    ensures var counts := Tally(StatusesIn(all));
            && Total(counts) == |all|
            && (status in counts <==> some != [])
            && (status in counts ==> counts[status] == |some|)
  {
    TallyTotal(StatusesIn(all));
    TallyCounts(StatusesIn(all), status);
    WithStatusSorted(all, status);
    WithStatusMembers(all, status);
    ListingUnique(rows, (row: Row) => row.status == status, some, WithStatus(all, status));
  }
}
