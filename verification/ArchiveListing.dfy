// The operator's archive listing: filters, the keyset cursor, and following it to the end.

module ArchiveListing {
  import opened Common
  import opened Ranking

  datatype Record = Record(
    id: nat,
    archivedAt: nat,
    device: string,
    station: string,
    workOrder: string,
    productSn: string,
    fileType: string,
    result: string)

  datatype Cursor = Cursor(archivedAt: nat, id: nat)

  datatype Query = Query(
    device: string,
    station: string,
    workOrder: string,
    productSn: string,
    fileType: string,
    result: string,
    from: Option<nat>,
    to: Option<nat>)

  datatype Page = Page(items: seq<Record>, hasMore: bool)

  /** archive_id is the primary key. */
  ghost predicate UniqueIds(table: set<Record>) {
    forall r <- table, s <- table :: r.id == s.id ==> r == s
  }

  predicate Matches(r: Record, q: Query) {
    && (q.device == "" || r.device == q.device)
    && (q.station == "" || r.station == q.station)
    && (q.workOrder == "" || r.workOrder == q.workOrder)
    && (q.productSn == "" || r.productSn == q.productSn)
    && (q.fileType == "" || r.fileType == q.fileType)
    && (q.result == "" || r.result == q.result)
    && (q.from.Some? ==> r.archivedAt >= q.from.value)
    && (q.to.Some? ==> r.archivedAt <= q.to.value)
  }

  /** archived_at < t OR (archived_at = t AND archive_id < i) */
  predicate Beyond(r: Record, c: Option<Cursor>) {
    c.Some? ==> r.archivedAt < c.value.archivedAt || (r.archivedAt == c.value.archivedAt && r.id < c.value.id)
  }

  /** ORDER BY archived_at DESC, archive_id DESC */
  predicate Before(a: Record, b: Record) {
    a.archivedAt > b.archivedAt || (a.archivedAt == b.archivedAt && a.id > b.id)
  }

  lemma OrdersTable(rows: set<Record>)
    requires UniqueIds(rows)
    ensures Orders(rows, Before)
  {
  }

  ghost function Selected(table: set<Record>, q: Query, c: Option<Cursor>): set<Record> {
    set r | r in table && Matches(r, q) && Beyond(r, c)
  }

  /** All selected rows in order: what the SELECT would return without a LIMIT. */
  ghost function Ordered(table: set<Record>, q: Query, c: Option<Cursor>): (s: seq<Record>)
    requires UniqueIds(table)
    ensures Lists(s, Selected(table, q, c), Before) && |s| == |Selected(table, q, c)|
  {
    OrdersTable(Selected(table, q, c));
    Listing(Selected(table, q, c), Before)
  }

  // ---------------------------------------------------------------- one page

  /** The fetch loop of the list callback: rows of a SELECT ... LIMIT pageSize + 1 are collected, and
      one row too many means there is a next page. */
  method CutPage(fetched: seq<Record>, pageSize: nat) returns (page: Page)
    requires |fetched| <= pageSize + 1
    ensures page.hasMore == (|fetched| > pageSize)
    ensures page.items == if page.hasMore then fetched[..pageSize] else fetched
  {
    var items: seq<Record> := [];
    var i := 0;
    while i < |fetched|
      invariant i <= |fetched| && items == fetched[..i]
    {
      items := items + [fetched[i]];
      i := i + 1;
    }
    assert items == fetched;
    var hasMore := |items| > pageSize;
    if hasMore {
      items := items[..pageSize];
    }
    page := Page(items, hasMore);
  }

  ghost function PageAfter(table: set<Record>, q: Query, c: Option<Cursor>, pageSize: nat): Page
    requires UniqueIds(table)
  {
    var all := Ordered(table, q, c);
    if |all| > pageSize then Page(all[..pageSize], true) else Page(all, false)
  }

  /** CutPage on what the database returns is the page. */
  method ListPage(ghost table: set<Record>, fetched: seq<Record>, q: Query, c: Option<Cursor>, pageSize: nat)
    returns (page: Page)
    requires UniqueIds(table)
    requires var all := Ordered(table, q, c); fetched == all[..Min(|all|, pageSize + 1)]
    ensures page == PageAfter(table, q, c, pageSize)
  {
    page := CutPage(fetched, pageSize);
  }

  function CursorOf(r: Record): Cursor {
    Cursor(r.archivedAt, r.id)
  }

  // ---------------------------------------------------------------- following the cursor

  /** Everything beyond the last row of a page. */
  lemma NextPage(table: set<Record>, q: Query, c: Option<Cursor>, n: nat)
    requires UniqueIds(table) && 0 < n < |Ordered(table, q, c)|
    ensures var last := Ordered(table, q, c)[n - 1];
            && Ordered(table, q, c)[n..] == Ordered(table, q, Some(CursorOf(last)))
            && |Selected(table, q, Some(CursorOf(last)))| < |Selected(table, q, c)|
  {
    var rows := Selected(table, q, c);
    OrdersTable(rows);
    var last := Ordered(table, q, c)[n - 1];
    assert last in rows;
    RestIsListing(rows, Selected(table, q, Some(CursorOf(last))), Before, n);
  }

  /** The rows a client sees that follows next_cursor from `c` until there is none. */
  ghost function Followed(table: set<Record>, q: Query, c: Option<Cursor>, pageSize: nat): seq<Record>
    requires UniqueIds(table) && pageSize > 0
    decreases |Selected(table, q, c)|
  {
    var page := PageAfter(table, q, c, pageSize);
    if page.hasMore then
      NextPage(table, q, c, pageSize);
      page.items + Followed(table, q, Some(CursorOf(page.items[|page.items| - 1])), pageSize)
    else page.items
  }

  lemma {:induction false} FollowedIsOrdered(table: set<Record>, q: Query, c: Option<Cursor>, pageSize: nat)
    requires UniqueIds(table) && pageSize > 0
    ensures Followed(table, q, c, pageSize) == Ordered(table, q, c)
    decreases |Selected(table, q, c)|
  {
    var all := Ordered(table, q, c);
    if |all| > pageSize {
      NextPage(table, q, c, pageSize);
      FollowedIsOrdered(table, q, Some(CursorOf(all[pageSize - 1])), pageSize);
      assert all == all[..pageSize] + all[pageSize..];
    }
  }

  /** Following the cursor from the first page shows every matching record exactly once, newest first,
      for every page size, and ends. */
  lemma FollowingListsEverythingOnce(table: set<Record>, q: Query, pageSize: nat)
    requires UniqueIds(table) && pageSize > 0
    ensures var seen := Followed(table, q, None, pageSize);
            && (forall r :: r in seen <==>
                  && r in table
                  && (q.device == "" || r.device == q.device) && (q.station == "" || r.station == q.station)
                  && (q.workOrder == "" || r.workOrder == q.workOrder)
                  && (q.productSn == "" || r.productSn == q.productSn)
                  && (q.fileType == "" || r.fileType == q.fileType) && (q.result == "" || r.result == q.result)
                  && (q.from.Some? ==> q.from.value <= r.archivedAt)
                  && (q.to.Some? ==> r.archivedAt <= q.to.value))
            && (forall i, j :: 0 <= i < j < |seen| ==>
                  || seen[i].archivedAt > seen[j].archivedAt
                  || (seen[i].archivedAt == seen[j].archivedAt && seen[i].id > seen[j].id))
            && |seen| == |set r | r in table && Matches(r, q)|
  {
    FollowedIsOrdered(table, q, None, pageSize);
    assert Selected(table, q, None) == set r | r in table && Matches(r, q);
  }
}
