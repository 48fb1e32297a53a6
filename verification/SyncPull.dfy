/**
 Pulling changes: two collections page independently by keyset while rows change underneath, and one
 continuation token carries a position for each.
 */
module SyncPull {
  import opened Outcomes
  import opened Sums
  import opened Querysets

  const PULL_PAGE_SIZE := 500

  datatype Row = Row(updatedAt: int, id: int, body: int)

  /** Where a collection resumes. `Exhausted` is the token's null; `FromStart` is no token at all. */
  datatype Resume = FromStart | After(at: int, id: int) | Exhausted

  predicate Past(position: Resume, r: Row) {
    match position
    case FromStart => true
    case After(at, id) => r.updatedAt > at || (r.updatedAt == at && r.id > id)
    case Exhausted => false
  }

  predicate Since(since: Option<int>, r: Row) { since.Some? ==> r.updatedAt >= since.value }

  function PastFilter(position: Resume): Row -> bool { (r: Row) => Past(position, r) }

  function Wanted(since: Option<int>, position: Resume): Row -> bool {
    (r: Row) => Since(since, r) && Past(position, r)
  }

  /** `order_by("updated_at", "id")` */
  function ByStamp(): (Row, Row) -> bool {
    (a: Row, b: Row) => a.updatedAt < b.updatedAt || (a.updatedAt == b.updatedAt && a.id <= b.id)
  }

  /** Every row a position has still to deliver, in delivery order. */
  function Due(table: seq<Row>, since: Option<int>, position: Resume): seq<Row> {
    OrderBy(ByStamp(), Filter(Wanted(since, position), table))
  }

  /** One page: at most 500 rows, and where the next one resumes. */
  function Collect(table: seq<Row>, since: Option<int>, position: Resume): (seq<Row>, Resume) {
    if position.Exhausted? then ([], Exhausted)
    else
      var due := Due(table, since, position);
      var rows := due[..Min(|due|, PULL_PAGE_SIZE + 1)];
      if |rows| <= PULL_PAGE_SIZE then (rows, Exhausted)
      else
        var page := rows[..PULL_PAGE_SIZE];
        (page, After(page[PULL_PAGE_SIZE - 1].updatedAt, page[PULL_PAGE_SIZE - 1].id))
  }

  /** Primary keys are distinct. */
  predicate Keyed(s: seq<Row>) { forall i, j :: 0 <= i < j < |s| ==> s[i].id != s[j].id }

  // ------------------------------------------------------------------ sorting and selecting keyed rows

  lemma {:induction false} FilterKeyed(p: Row -> bool, s: seq<Row>)
    requires Keyed(s)
    ensures Keyed(Filter(p, s))
  {
    if |s| != 0 {
      FilterKeyed(p, s[..|s| - 1]);
      FilterMembers(p, s[..|s| - 1]);
      forall r | r in Filter(p, s[..|s| - 1]) ensures r.id != s[|s| - 1].id {
        assert r in s[..|s| - 1];
      }
    }
  }

  lemma {:induction false} InsertKeyed(x: Row, s: seq<Row>)
    requires Keyed(s) && forall r :: r in s ==> r.id != x.id
    ensures Keyed(Insert(ByStamp(), x, s))
  {
    if |s| != 0 && !ByStamp()(x, s[0]) {
      var rest := Insert(ByStamp(), x, s[1..]);
      InsertKeyed(x, s[1..]);
      InsertPermutes(ByStamp(), x, s[1..]);
      forall j | 0 <= j < |rest| ensures rest[j].id != s[0].id {
        assert rest[j] in multiset(rest);
        assert rest[j] == x || rest[j] in s[1..];
      }
    }
  }

  lemma {:induction false} OrderByKeyed(s: seq<Row>)
    requires Keyed(s)
    ensures Keyed(OrderBy(ByStamp(), s))
  {
    if |s| != 0 {
      OrderByKeyed(s[1..]);
      OrderByMembers(ByStamp(), s[1..]);
      forall r | r in OrderBy(ByStamp(), s[1..]) ensures r.id != s[0].id {
        assert r in s[1..];
      }
      InsertKeyed(s[0], OrderBy(ByStamp(), s[1..]));
    }
  }

  /** What is due is exactly the matching rows, strictly ascending in (updated_at, id). */
  lemma DueIsSorted(table: seq<Row>, since: Option<int>, position: Resume)
    requires Keyed(table)
    ensures Ascending(ByStamp(), Due(table, since, position)) && Keyed(Due(table, since, position))
    ensures forall r :: r in Due(table, since, position) <==> r in table && Since(since, r) && Past(position, r)
  {
    var rows := Filter(Wanted(since, position), table);
    FilterKeyed(Wanted(since, position), table);
    FilterMembers(Wanted(since, position), table);
    OrderByKeyed(rows);
    OrderByAscending(ByStamp(), rows);
    OrderByMembers(ByStamp(), rows);
  }

  lemma {:induction false} FilterAll<T>(p: T -> bool, s: seq<T>)
    requires forall i :: 0 <= i < |s| ==> p(s[i])
    ensures Filter(p, s) == s
  {
    if |s| != 0 { FilterAll(p, s[..|s| - 1]); }
  }

  lemma {:induction false} FilterNone<T>(p: T -> bool, s: seq<T>)
    requires forall i :: 0 <= i < |s| ==> !p(s[i])
    ensures Filter(p, s) == []
  {
    if |s| != 0 { FilterNone(p, s[..|s| - 1]); }
  }

  /** In an ordered table a row is past the n-th exactly when it comes after it. */
  lemma PastMeansAfter(s: seq<Row>, n: nat, i: nat)
    requires Ascending(ByStamp(), s) && Keyed(s) && 0 < n <= |s| && i < |s|
    ensures Past(After(s[n - 1].updatedAt, s[n - 1].id), s[i]) <==> i >= n
  {
    if i < n - 1 {
      assert ByStamp()(s[i], s[n - 1]);
    } else if i >= n {
      assert ByStamp()(s[n - 1], s[i]) && s[n - 1].id != s[i].id;
    }
  }

  lemma PastTheNth(s: seq<Row>, n: nat)
    requires Ascending(ByStamp(), s) && Keyed(s) && 0 < n <= |s|
    ensures Filter(PastFilter(After(s[n - 1].updatedAt, s[n - 1].id)), s) == s[n..]
  {
    var p := PastFilter(After(s[n - 1].updatedAt, s[n - 1].id));
    assert s == s[..n] + s[n..];
    FilterConcat(p, s[..n], s[n..]);
    forall i | 0 <= i < |s| ensures p(s[i]) <==> i >= n { PastMeansAfter(s, n, i); }
    FilterNone(p, s[..n]);
    FilterAll(p, s[n..]);
  }

  /** Moving the position to the n-th due row leaves exactly the rows after it due. */
  lemma DueAfterTheNth(table: seq<Row>, since: Option<int>, position: Resume, next: Resume, n: nat)
    requires Keyed(table) && 0 < n <= |Due(table, since, position)|
    requires var last := Due(table, since, position)[n - 1]; next == After(last.updatedAt, last.id)
    ensures Due(table, since, next) == Due(table, since, position)[n..]
  {
    var due := Due(table, since, position);
    DueIsSorted(table, since, position);
    assert due[n - 1] in due;
    PastTheNth(due, n);
    FilterTwice(Wanted(since, position), PastFilter(next), Wanted(since, next), table);
    FilterOrderBy(PastFilter(next), ByStamp(), ByStamp(), Filter(Wanted(since, position), table));
  }

  lemma NothingDueAfterTheEnd(table: seq<Row>, since: Option<int>)
    ensures Due(table, since, Exhausted) == []
  {
    FilterNone(Wanted(since, Exhausted), table);
  }

  /** A page and what its next position still owes are together exactly what was owed. */
  lemma CollectSplitsDue(table: seq<Row>, since: Option<int>, position: Resume)
    requires Keyed(table)
    ensures var (page, next) := Collect(table, since, position);
            && Due(table, since, position) == page + Due(table, since, next)
            && (!next.Exhausted? ==> |page| == 500)
            && (next.Exhausted? ==> Due(table, since, next) == [])
  {
    var (page, next) := Collect(table, since, position);
    NothingDueAfterTheEnd(table, since);
    if position.Exhausted? {
    } else if next.Exhausted? {
      assert page == Due(table, since, position);
    } else {
      DueAfterTheNth(table, since, position, next, PULL_PAGE_SIZE);
    }
  }

  // ------------------------------------------------------------------ the whole pull, over unchanged tables

  datatype Page = Page(customers: seq<Row>, deliveries: seq<Row>)

  /** Follow `next_page_token` until a page carries none. */
  function Follow(customers: seq<Row>, deliveries: seq<Row>, since: Option<int>, c: Resume, d: Resume): (pages: seq<Page>)
    requires Keyed(customers) && Keyed(deliveries)
    ensures |pages| > 0
    decreases |Due(customers, since, c)| + |Due(deliveries, since, d)|
  {
    var (cs, c') := Collect(customers, since, c);
    var (ds, d') := Collect(deliveries, since, d);
    CollectSplitsDue(customers, since, c);
    CollectSplitsDue(deliveries, since, d);
    if c'.Exhausted? && d'.Exhausted? then [Page(cs, ds)]
    else [Page(cs, ds)] + Follow(customers, deliveries, since, c', d')
  }

  function AllCustomers(pages: seq<Page>): seq<Row> {
    if |pages| == 0 then [] else pages[0].customers + AllCustomers(pages[1..])
  }

  function AllDeliveries(pages: seq<Page>): seq<Row> {
    if |pages| == 0 then [] else pages[0].deliveries + AllDeliveries(pages[1..])
  }

  /**
   Keyset completeness: following the token to its end terminates, and the pages put together are
   exactly the matching rows of each collection in order, each row once.
   */
  lemma {:induction false} PagesAreTheTable(customers: seq<Row>, deliveries: seq<Row>, since: Option<int>, c: Resume, d: Resume)
    requires Keyed(customers) && Keyed(deliveries)
    ensures AllCustomers(Follow(customers, deliveries, since, c, d)) == Due(customers, since, c)
    ensures AllDeliveries(Follow(customers, deliveries, since, c, d)) == Due(deliveries, since, d)
    decreases |Due(customers, since, c)| + |Due(deliveries, since, d)|
  {
    var pages := Follow(customers, deliveries, since, c, d);
    var (cs, c') := Collect(customers, since, c);
    var (ds, d') := Collect(deliveries, since, d);
    CollectSplitsDue(customers, since, c);
    CollectSplitsDue(deliveries, since, d);
    if c'.Exhausted? && d'.Exhausted? {
      assert pages[1..] == [];
    } else {
      assert pages[1..] == Follow(customers, deliveries, since, c', d');
      PagesAreTheTable(customers, deliveries, since, c', d');
    }
  }

  /** `delivered` is the rows of `table` stamped at or after `since`, each as often as it is there, oldest stamp first and then by key. */
  ghost predicate DeliversTheRest(delivered: seq<Row>, table: seq<Row>, since: Option<int>) {
    && (forall r: Row :: multiset(delivered)[r] == if since.None? || r.updatedAt >= since.value then multiset(table)[r] else 0)
    && forall i, j :: 0 <= i < j < |delivered| ==>
         delivered[i].updatedAt < delivered[j].updatedAt || (delivered[i].updatedAt == delivered[j].updatedAt && delivered[i].id < delivered[j].id)
  }

  lemma DueIsTheRest(table: seq<Row>, since: Option<int>)
    requires Keyed(table)
    ensures DeliversTheRest(Due(table, since, FromStart), table, since)
  {
    var due, wanted := Due(table, since, FromStart), Wanted(since, FromStart);
    DueIsSorted(table, since, FromStart);
    OrderByPermutes(ByStamp(), Filter(wanted, table));
    forall r: Row ensures multiset(due)[r] == if since.None? || r.updatedAt >= since.value then multiset(table)[r] else 0 {
      FilterMultiplicity(wanted, table, r);
    }
    forall i, j | 0 <= i < j < |due|
      ensures due[i].updatedAt < due[j].updatedAt || (due[i].updatedAt == due[j].updatedAt && due[i].id < due[j].id)
    {
      assert ByStamp()(due[i], due[j]) && due[i].id != due[j].id;
    }
  }

  /** A pull from the start, over tables that hold still, delivers every row of both collections stamped at or after `since`, once, in order. */
  lemma PullDeliversTheRest(customers: seq<Row>, deliveries: seq<Row>, since: Option<int>)
    requires Keyed(customers) && Keyed(deliveries)
    ensures
      var pages := Follow(customers, deliveries, since, FromStart, FromStart);
      DeliversTheRest(AllCustomers(pages), customers, since) && DeliversTheRest(AllDeliveries(pages), deliveries, since)
  {
    PagesAreTheTable(customers, deliveries, since, FromStart, FromStart);
    DueIsTheRest(customers, since);
    DueIsTheRest(deliveries, since);
  }

  // ------------------------------------------------------------------ one collection, while rows change

  /** One collection's side of a pull: `tables[i]` is the table as page i found it. */
  ghost predicate Pulled(tables: seq<seq<Row>>, since: Option<int>, positions: seq<Resume>, pages: seq<seq<Row>>) {
    && |pages| == |tables| && |positions| == |tables| + 1
    && (forall i :: 0 <= i < |tables| ==> Keyed(tables[i]))
    && (forall i :: 0 <= i < |tables| ==> Collect(tables[i], since, positions[i]) == (pages[i], positions[i + 1]))
  }

  /** How many times a row was delivered. */
  function Deliveries(pages: seq<seq<Row>>, r: Row): nat {
    if |pages| == 0 then 0 else Deliveries(pages[..|pages| - 1], r) + multiset(pages[|pages| - 1])[r]
  }

  lemma KeyedOccursOnce(s: seq<Row>, r: Row)
    requires Keyed(s)
    ensures multiset(s)[r] == if r in s then 1 else 0
  {
    if r in s {
      var i :| 0 <= i < |s| && s[i] == r;
      assert s == s[..i] + [r] + s[i + 1..];
      assert r !in s[..i] && r !in s[i + 1..];
      assert multiset(s) == multiset(s[..i]) + multiset{r} + multiset(s[i + 1..]);
    } else {
      assert r !in multiset(s);
    }
  }

  /** What one page does for a row that was in the table when the page was read. */
  lemma PageDeliversOnce(table: seq<Row>, since: Option<int>, position: Resume, r: Row)
    requires Keyed(table) && r in table
    ensures var (page, next) := Collect(table, since, position);
            && multiset(page)[r] == (if Since(since, r) && Past(position, r) && !Past(next, r) then 1 else 0)
            && (Past(next, r) ==> Past(position, r))
  {
    var (page, next) := Collect(table, since, position);
    var due := Due(table, since, position);
    DueIsSorted(table, since, position);
    CollectSplitsDue(table, since, position);
    DueIsSorted(table, since, next);
    assert page == due[..|page|];
    KeyedOccursOnce(page, r);
    KeyedOccursOnce(due, r);
    assert multiset(due) == multiset(page) + multiset(Due(table, since, next));
    assert r in due <==> r in page || r in Due(table, since, next);
    if Past(next, r) && !position.Exhausted? && !next.Exhausted? {
      assert page[PULL_PAGE_SIZE - 1] in due;
    }
    if r in page { assert r in multiset(page) && multiset(due)[r] == 1; }
    if r in Due(table, since, next) { KeyedOccursOnce(Due(table, since, next), r); }
  }

  /**
   While other rows are inserted, restamped or removed between pages, a row nobody touches is
   delivered exactly once by a finished pull if it matches, and never otherwise.
   */
  lemma {:induction false} UntouchedRowsArriveOnce(tables: seq<seq<Row>>, since: Option<int>, positions: seq<Resume>, pages: seq<seq<Row>>, r: Row)
    requires Pulled(tables, since, positions, pages)
    requires forall i :: 0 <= i < |tables| ==> r in tables[i]
    ensures Deliveries(pages, r) ==
              if Since(since, r) && Past(positions[0], r) && !Past(positions[|tables|], r) then 1 else 0
    ensures Past(positions[|tables|], r) ==> Past(positions[0], r)
  {
    if |tables| != 0 {
      var n := |tables| - 1;
      assert positions[..n + 1][0] == positions[0] && positions[..n + 1][n] == positions[n];
      UntouchedRowsArriveOnce(tables[..n], since, positions[..n + 1], pages[..n], r);
      assert Collect(tables[n], since, positions[n]) == (pages[n], positions[n + 1]);
      PageDeliversOnce(tables[n], since, positions[n], r);
    }
  }

  /** A finished pull: from the start to where the collection is exhausted. */
  ghost predicate Finished(tables: seq<seq<Row>>, since: Option<int>, positions: seq<Resume>, pages: seq<seq<Row>>) {
    Pulled(tables, since, positions, pages) && positions[0] == FromStart && positions[|tables|] == Exhausted
  }

  lemma {:induction false} AbsentRowsAreNotDelivered(tables: seq<seq<Row>>, since: Option<int>, positions: seq<Resume>, pages: seq<seq<Row>>, r: Row)
    requires Pulled(tables, since, positions, pages)
    requires forall i :: 0 <= i < |tables| ==> r !in tables[i]
    ensures Deliveries(pages, r) == 0
  {
    if |tables| != 0 {
      var n := |tables| - 1;
      AbsentRowsAreNotDelivered(tables[..n], since, positions[..n + 1], pages[..n], r);
      DueIsSorted(tables[n], since, positions[n]);
      assert Collect(tables[n], since, positions[n]) == (pages[n], positions[n + 1]);
      CollectSplitsDue(tables[n], since, positions[n]);
      assert r !in pages[n];
    }
  }

  lemma {:induction false} DeliveriesSplit(pages: seq<seq<Row>>, r: Row, k: nat)
    requires k <= |pages|
    ensures Deliveries(pages, r) == Deliveries(pages[..k], r) + Deliveries(pages[k..], r)
  {
    if k == |pages| {
      assert pages[..k] == pages;
    } else {
      var n := |pages| - 1;
      DeliveriesSplit(pages[..n], r, k);
      assert pages[..n][..k] == pages[..k] && pages[..n][k..] == pages[k..][..n - k];
    }
  }

  /** `r` is committed between page k - 1 and page k, and stays. */
  ghost predicate AppearsAt(tables: seq<seq<Row>>, r: Row, k: nat) {
    k <= |tables| && (forall i :: 0 <= i < k ==> r !in tables[i]) && (forall i :: k <= i < |tables| ==> r in tables[i])
  }

  /**
   A row version that becomes visible before page k, whether inserted or restamped, arrives in a finished
   pull exactly once if it matches and is still ahead of where page k starts, and otherwise not at all.
   */
  lemma ArrivesExactlyWhen(tables: seq<seq<Row>>, since: Option<int>, positions: seq<Resume>, pages: seq<seq<Row>>, r: Row, k: nat)
    requires Finished(tables, since, positions, pages) && AppearsAt(tables, r, k)
    ensures Deliveries(pages, r) == if Since(since, r) && Past(positions[k], r) then 1 else 0
  {
    DeliveriesSplit(pages, r, k);
    AbsentRowsAreNotDelivered(tables[..k], since, positions[..k + 1], pages[..k], r);
    UntouchedRowsArriveOnce(tables[k..], since, positions[k..], pages[k..], r);
  }

  /**
   Two finished pulls in a row, the second since the first page's `server_time`. A row version visible from
   page k of the first pull and page k' of the second (a page number past the last: not in that pull at all)
   reaches the device exactly when it matched and was ahead of the first pull's cursor when it appeared, or
   was stamped no earlier than the server time and was ahead of the second's.
   */
  lemma ReachedExactlyWhen(
      tables: seq<seq<Row>>, since: Option<int>, positions: seq<Resume>, pages: seq<seq<Row>>, k: nat,
      serverTime: int,
      tables': seq<seq<Row>>, positions': seq<Resume>, pages': seq<seq<Row>>, k': nat,
      r: Row)
    requires Finished(tables, since, positions, pages) && AppearsAt(tables, r, k)
    requires Finished(tables', Some(serverTime), positions', pages') && AppearsAt(tables', r, k')
    ensures Deliveries(pages, r) + Deliveries(pages', r) > 0
            <==> (Since(since, r) && Past(positions[k], r)) || (r.updatedAt >= serverTime && Past(positions'[k'], r))
    ensures Deliveries(pages, r) <= 1 && Deliveries(pages', r) <= 1
  {
    ArrivesExactlyWhen(tables, since, positions, pages, r, k);
    ArrivesExactlyWhen(tables', Some(serverTime), positions', pages', r, k');
  }

  /**
   So a row that is there by the time the second pull starts reaches the device whenever it was stamped at or
   after the server time: every row touched after the first page was read is one of these. What is lost is
   stamped before the server time and appears behind the cursor; `k == |tables|` is appearing after the end.
   */
  lemma LostExactlyWhen(
      tables: seq<seq<Row>>, since: Option<int>, positions: seq<Resume>, pages: seq<seq<Row>>, k: nat,
      serverTime: int,
      tables': seq<seq<Row>>, positions': seq<Resume>, pages': seq<seq<Row>>,
      r: Row)
    requires Finished(tables, since, positions, pages) && AppearsAt(tables, r, k)
    requires Finished(tables', Some(serverTime), positions', pages') && AppearsAt(tables', r, 0)
    ensures Deliveries(pages, r) == 0 && Deliveries(pages', r) == 0
            <==> r.updatedAt < serverTime && (!Since(since, r) || !Past(positions[k], r))
  {
    ReachedExactlyWhen(tables, since, positions, pages, k, serverTime, tables', positions', pages', 0, r);
  }

  // ------------------------------------------------------------------ a lost row

  lemma {:induction false} AscendingIsOrdered(s: seq<Row>)
    requires Ascending(ByStamp(), s)
    ensures OrderBy(ByStamp(), s) == s
  {
    if |s| != 0 {
      AscendingIsOrdered(s[1..]);
      assert |s| > 1 ==> ByStamp()(s[0], s[1]);
    }
  }

  /** One row more than a page: ids 1 to 501, stamped 11 to 511. */
  const Backlog := seq(PULL_PAGE_SIZE + 1, i => Row(i + 11, i + 1, 0))

  lemma FirstPageOfBacklog()
    ensures Keyed(Backlog) && Collect(Backlog, None, FromStart) == (Backlog[..PULL_PAGE_SIZE], After(PULL_PAGE_SIZE + 10, PULL_PAGE_SIZE))
  {
    FilterAll(Wanted(None, FromStart), Backlog);
    AscendingIsOrdered(Backlog);
    var due := Due(Backlog, None, FromStart);
    assert due == Backlog && due[..PULL_PAGE_SIZE + 1] == due && due[PULL_PAGE_SIZE - 1] == Row(PULL_PAGE_SIZE + 10, PULL_PAGE_SIZE, 0);
  }

  /** A page's worth or less is due: the page ends the pull. */
  lemma ShortPageEnds(table: seq<Row>, since: Option<int>, position: Resume)
    requires |Filter(Wanted(since, position), table)| <= PULL_PAGE_SIZE
    ensures Collect(table, since, position).1 == Exhausted
  {
    var rows := Filter(Wanted(since, position), table);
    OrderByPermutes(ByStamp(), rows);
    assert |multiset(rows)| == |multiset(Due(table, since, position))|;
  }

  /** What both later requests still owe, with one row more than the backlog, stamped 400. */
  lemma OwedAfterBacklog(lost: Row)
    requires lost.updatedAt == 400
    ensures |Filter(Wanted(None, After(PULL_PAGE_SIZE + 10, PULL_PAGE_SIZE)), Backlog + [lost])| == 1
    ensures Filter(Wanted(Some(1000), FromStart), Backlog + [lost]) == []
  {
    var cursor := After(PULL_PAGE_SIZE + 10, PULL_PAGE_SIZE);
    FirstPageOfBacklog();
    PastTheNth(Backlog, PULL_PAGE_SIZE);
    FilterAgree(PastFilter(cursor), Wanted(None, cursor), Backlog);
    FilterSnoc(Wanted(None, cursor), Backlog, lost);
    FilterNone(Wanted(Some(1000), FromStart), Backlog + [lost]);
  }

  lemma KeyedSnoc(s: seq<Row>, r: Row)
    requires Keyed(s + [r])
    ensures Keyed(s) && r !in s
  {
    var all := s + [r];
    forall i, j | 0 <= i < j < |s| ensures s[i].id != s[j].id { assert s[i] == all[i] && s[j] == all[j]; }
    forall i | 0 <= i < |s| ensures s[i] != r { assert s[i] == all[i] && all[|s|] == r; }
  }

  /** `lost` commits behind the cursor between the first page of a two-page pull and its second. */
  lemma LostBetweenPages(first: seq<Row>, lost: Row, cursor: Resume, serverTime: int)
    requires Keyed(first + [lost]) && Collect(first, None, FromStart).1 == cursor && Collect(first + [lost], None, cursor).1 == Exhausted
    requires Collect(first + [lost], Some(serverTime), FromStart).1 == Exhausted
    requires lost.updatedAt < serverTime && !Past(cursor, lost)
    ensures
      exists positions, pages, positions', pages' ::
        && Finished([first, first + [lost]], None, positions, pages)
        && Finished([first + [lost]], Some(serverTime), positions', pages')
        && Deliveries(pages, lost) == 0 && Deliveries(pages', lost) == 0
  {
    var later := first + [lost];
    var tables, positions, positions' := [first, later], [FromStart, cursor, Exhausted], [FromStart, Exhausted];
    var pages := [Collect(first, None, FromStart).0, Collect(later, None, cursor).0];
    var pages' := [Collect(later, Some(serverTime), FromStart).0];
    KeyedSnoc(first, lost);
    assert AppearsAt(tables, lost, 1) && AppearsAt([later], lost, 0);
    assert Finished(tables, None, positions, pages) && Finished([later], Some(serverTime), positions', pages');
    LostExactlyWhen(tables, None, positions, pages, 1, serverTime, [later], positions', pages', lost);
  }

  /**
   A bootstrap of 501 rows reads its first page at server time 1000. A row stamped 400 commits before the
   second page is read: the cursor is already past it, and the next pull starts at 1000. Neither delivers it.
   */
  lemma ARowCommittedBehindTheCursorIsLost()
    ensures
      var lost := Row(400, PULL_PAGE_SIZE + 2, 0);
      exists positions, pages, positions', pages' ::
        && Finished([Backlog, Backlog + [lost]], None, positions, pages)
        && Finished([Backlog + [lost]], Some(1000), positions', pages')
        && Deliveries(pages, lost) == 0 && Deliveries(pages', lost) == 0
  {
    var lost, cursor := Row(400, PULL_PAGE_SIZE + 2, 0), After(PULL_PAGE_SIZE + 10, PULL_PAGE_SIZE);
    FirstPageOfBacklog();
    OwedAfterBacklog(lost);
    ShortPageEnds(Backlog + [lost], None, cursor);
    ShortPageEnds(Backlog + [lost], Some(1000), FromStart);
    LostBetweenPages(Backlog, lost, cursor, 1000);
  }

  // ------------------------------------------------------------------ the token

  /** A token as it arrives, already base64- and JSON-decoded as far as it will go. */
  datatype RawStamp = Aware(at: int) | Naive | Unparsable | NotText

  datatype RawId = IntegerId(n: int) | BooleanId(b: bool) | OtherId

  datatype RawPosition = Null | Pair(stamp: RawStamp, id: RawId) | OtherShape

  datatype RawToken = NoToken | Undecodable | WrongKeys | Token(c: RawPosition, d: RawPosition)

  function DecodePosition(value: RawPosition): Outcome<Resume> {
    match value
    case Null => Done(Exhausted)
    case OtherShape => Refused(VALIDATION_FAILED)
    case Pair(stamp, id) =>
      if !id.IntegerId? || id.n < 1 then Refused(VALIDATION_FAILED)
      else if !stamp.Aware? then Refused(VALIDATION_FAILED)
      else Done(After(stamp.at, id.n))
  }

  function DecodeToken(token: RawToken): Outcome<(Resume, Resume)> {
    match token
    case NoToken => Done((FromStart, FromStart))
    case Undecodable => Refused(VALIDATION_FAILED)
    case WrongKeys => Refused(VALIDATION_FAILED)
    case Token(c, d) =>
      var first, second := DecodePosition(c), DecodePosition(d);
      if first.Refused? || second.Refused? then Refused(VALIDATION_FAILED) else Done((first.value, second.value))
  }

  function EncodePosition(p: Resume): RawPosition {
    match p
    case After(at, id) => Pair(Aware(at), IntegerId(id))
    case _ => Null
  }

  /** The token of a page, present exactly while either collection is still behind. */
  function EncodeToken(c: Resume, d: Resume): RawToken {
    if c.Exhausted? && d.Exhausted? then NoToken else Token(EncodePosition(c), EncodePosition(d))
  }

  /** The positions a page ends at survive the token, so `Follow` is what a client that echoes tokens sees. */
  lemma TokenCarriesPositions(customers: seq<Row>, deliveries: seq<Row>, since: Option<int>, c: Resume, d: Resume)
    requires Keyed(customers) && Keyed(deliveries)
    requires (forall r :: r in customers ==> r.id >= 1) && (forall r :: r in deliveries ==> r.id >= 1)
    ensures
      var c', d' := Collect(customers, since, c).1, Collect(deliveries, since, d).1;
      EncodeToken(c', d') != NoToken ==> DecodeToken(EncodeToken(c', d')) == Done((c', d'))
  {
    PositionsAreRows(customers, since, c);
    PositionsAreRows(deliveries, since, d);
  }

  lemma PositionsAreRows(table: seq<Row>, since: Option<int>, position: Resume)
    requires Keyed(table) && forall r :: r in table ==> r.id >= 1
    ensures var next := Collect(table, since, position).1; next.Exhausted? || (next.After? && next.id >= 1)
  {
    if !Collect(table, since, position).1.Exhausted? {
      DueIsSorted(table, since, position);
      assert Due(table, since, position)[PULL_PAGE_SIZE - 1] in table;
    }
  }

  /** A malformed token is refused: nothing but the absence of a token restarts a collection. */
  lemma OnlyAbsenceRestarts(token: RawToken)
    ensures DecodeToken(token).Done? && (DecodeToken(token).value.0.FromStart? || DecodeToken(token).value.1.FromStart?)
            <==> token == NoToken
  {
  }
}
