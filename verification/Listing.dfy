/** Keyset listing of public events, newest first (List in
    internal/publicevent/publicevent.repository.go). */
module Listing {
  import opened Wrappers
  import opened Keys

  type EventId = int

  const DEFAULT_LIMIT := 50
  const MAX_LIMIT := 100

  /** The columns a listing filters and sorts on. An empty number stands for NULL. */
  datatype Event = Event(source: string, eventType: string, occurredOn: int, organisationNumber: string)

  type Table = map<EventId, Event>

  /** Empty strings and missing dates mean no constraint; dates are inclusive. */
  datatype Filter = Filter(source: string, eventType: string, from: Option<int>, to: Option<int>,
                           organisationNumber: string)
  {
    predicate Matches(e: Event) {
      && (source == "" || e.source == source)
      && (eventType == "" || e.eventType == eventType)
      && (from.Some? ==> e.occurredOn >= from.value)
      && (to.Some? ==> e.occurredOn <= to.value)
      && (organisationNumber == "" || e.organisationNumber == organisationNumber)
    }
  }

  /** Newest first: descending date, then descending id, as an ascending key. */
  function ListingKey(occurredOn: int, id: EventId): Key {
    Key(-occurredOn, -id)
  }

  function KeyOf(t: Table, id: EventId): Key
    requires id in t
  {
    ListingKey(t[id].occurredOn, id)
  }

  lemma ListingOrder(on1: int, id1: EventId, on2: int, id2: EventId)
    ensures Less(ListingKey(on1, id1), ListingKey(on2, id2)) <==> on1 > on2 || (on1 == on2 && id1 > id2)
  {
  }

  /** The matching rows past the cursor, where the cursor is the last row returned. */
  function Remaining(t: Table, f: Filter, cursor: Option<Key>): set<Key> {
    set id | id in t && f.Matches(t[id]) && (cursor.Some? ==> Less(cursor.value, KeyOf(t, id))) :: KeyOf(t, id)
  }

  function Clamped(limit: int): (n: nat)
    ensures 1 <= n <= MAX_LIMIT
  {
    if limit < 1 then DEFAULT_LIMIT else if limit > MAX_LIMIT then MAX_LIMIT else limit
  }

  datatype Page = Page(items: seq<Key>, next: Option<Key>)

  /** The first page of n rows, with a cursor if there are more. */
  function FirstPage(rows: seq<Key>, n: nat): Page
    requires n >= 1
  {
    if |rows| > n then Page(rows[..n], Some(rows[n - 1])) else Page(rows, None)
  }

  function PageAt(t: Table, f: Filter, limit: int, cursor: Option<Key>): Page {
    FirstPage(Sorted(Remaining(t, f, cursor)), Clamped(limit))
  }

  /** The query: one row more than the page, to know whether another page follows. */
  function Fetched(t: Table, f: Filter, n: nat, cursor: Option<Key>): seq<Key> {
    var rows := Sorted(Remaining(t, f, cursor));
    if |rows| > n + 1 then rows[..n + 1] else rows
  }

  method List(t: Table, f: Filter, limit: int, cursor: Option<Key>) returns (page: Page)
    ensures page == PageAt(t, f, limit, cursor)
    ensures var size := if limit < 1 then 50 else if limit > 100 then 100 else limit;
            |page.items| == if |Remaining(t, f, cursor)| < size then |Remaining(t, f, cursor)| else size
  {
    var n := limit;
    if n < 1 {
      n := DEFAULT_LIMIT;
    }
    if n > MAX_LIMIT {
      n := MAX_LIMIT;
    }
    page := PageOf(Fetched(t, f, n, cursor), n);
    FetchedSuffices(Sorted(Remaining(t, f, cursor)), n);
  }

  method PageOf(rows: seq<Key>, n: nat) returns (page: Page)
    requires n >= 1
    ensures page == FirstPage(rows, n)
  {
    var items := [];
    for i := 0 to |rows|
      invariant items == rows[..i]
    {
      items := items + [rows[i]];
    }
    if |items| > n {
      return Page(items[..n], Some(items[n - 1]));
    }
    return Page(items, None);
  }

  lemma FetchedSuffices(rows: seq<Key>, n: nat)
    requires n >= 1
    ensures |rows| > n + 1 ==> rows[..n + 1][..n] == rows[..n] && rows[..n + 1][n - 1] == rows[n - 1]
  {
  }

  // ----- a fixed table -----

  function Concat(pages: seq<Page>): seq<Key> {
    if pages == [] then [] else Concat(pages[..|pages| - 1]) + pages[|pages| - 1].items
  }

  lemma RemainingAfter(t: Table, f: Filter, cursor: Option<Key>, n: nat)
    requires 1 <= n < |Remaining(t, f, cursor)|
    ensures var rows := Sorted(Remaining(t, f, cursor));
            && Sorted(Remaining(t, f, Some(rows[n - 1]))) == rows[n..]
            && |Remaining(t, f, Some(rows[n - 1]))| == |Remaining(t, f, cursor)| - n
  {
    var all := Remaining(t, f, cursor);
    var rows := Sorted(all);
    var rest := Remaining(t, f, Some(rows[n - 1]));
    SortedIsAscending(all);
    assert rows[n - 1] in all;
    forall k ensures k in rest <==> k in all && Less(rows[n - 1], k) {
    }
    TailOfAscending(rows, n);
    AscendingIsSorted(rows[n..], rest);
  }

  lemma TailOfAscending(rows: seq<Key>, n: nat)
    requires Ascending(rows) && 1 <= n <= |rows|
    ensures Ascending(rows[n..])
    ensures forall k :: k in rows[n..] <==> k in rows && Less(rows[n - 1], k)
  {
    forall k | k in rows && Less(rows[n - 1], k) ensures k in rows[n..] {
      var i :| 0 <= i < |rows| && rows[i] == k;
      assert rows[n..][i - n] == k;
    }
  }

  /** The pages a client sees following cursors on a table nobody writes to. */
  function AllPages(t: Table, f: Filter, limit: int, cursor: Option<Key>): seq<Page>
    decreases |Remaining(t, f, cursor)|
  {
    var page := PageAt(t, f, limit, cursor);
    if page.next.None? then [page] else
      RemainingAfter(t, f, cursor, Clamped(limit));
      [page] + AllPages(t, f, limit, page.next)
  }

  lemma ConcatLast(pages: seq<Page>, page: Page)
    ensures Concat(pages + [page]) == Concat(pages) + page.items
  {
    assert (pages + [page])[..|pages|] == pages;
  }

  lemma {:induction false} ConcatCons(page: Page, pages: seq<Page>)
    ensures Concat([page] + pages) == page.items + Concat(pages)
    decreases |pages|
  {
    if pages == [] {
      ConcatLast([], page);
      assert [page] + pages == [] + [page];
    } else {
      var front, last := pages[..|pages| - 1], pages[|pages| - 1];
      ConcatCons(page, front);
      ConcatLast([page] + front, last);
      assert [page] + pages == [page] + front + [last];
    }
  }

  /** p is the least number of pages of n rows for the count, and at least one. */
  predicate LeastPages(p: int, count: int, n: int) {
    (p - 1) * n < (if count == 0 then 1 else count) <= p * n
  }

  lemma OnePageMore(p: int, count: int, n: int)
    requires LeastPages(p, count, n) && count > 0
    ensures LeastPages(p + 1, count + n, n)
  {
    assert (p + 1) * n == p * n + n && p * n == (p - 1) * n + n;
  }

  /** A page is the whole rest, or the first n rows of it with the cursor between. */
  lemma PageSplits(t: Table, f: Filter, limit: int, cursor: Option<Key>)
    ensures var page := PageAt(t, f, limit, cursor);
            var count, n := |Remaining(t, f, cursor)|, Clamped(limit);
            && (page.next.None? ==> count <= n && page.items == Sorted(Remaining(t, f, cursor)))
            && (page.next.Some? ==>
                  && |Remaining(t, f, page.next)| == count - n > 0
                  && page.items + Sorted(Remaining(t, f, page.next)) == Sorted(Remaining(t, f, cursor)))
  {
    FirstPageSplits(Sorted(Remaining(t, f, cursor)), Clamped(limit));
    if |Remaining(t, f, cursor)| > Clamped(limit) {
      RemainingAfter(t, f, cursor, Clamped(limit));
    }
  }

  lemma FirstPageSplits(rows: seq<Key>, n: nat)
    requires n >= 1
    ensures var page := FirstPage(rows, n);
            && (page.next.None? ==> |rows| <= n && page.items == rows)
            && (page.next.Some? ==> |rows| > n && page.next.value == rows[n - 1] && page.items + rows[n..] == rows)
  {
  }

  /** Following cursors on a fixed table returns exactly the matching rows, newest
      first, each once. */
  lemma {:induction false} FixedTableRows(t: Table, f: Filter, limit: int, cursor: Option<Key>)
    ensures Concat(AllPages(t, f, limit, cursor)) == Sorted(Remaining(t, f, cursor))
    decreases |Remaining(t, f, cursor)|
  {
    var page := PageAt(t, f, limit, cursor);
    PageSplits(t, f, limit, cursor);
    if page.next.None? {
      assert Concat([page]) == Concat([]) + page.items;
    } else {
      FixedTableRows(t, f, limit, page.next);
      ConcatCons(page, AllPages(t, f, limit, page.next));
    }
  }

  /** Exactly the rows that no constraint of the filter excludes: an empty one excludes
      nothing, and both dates are inclusive. */
  lemma {:induction false} ListedIff(t: Table, f: Filter, limit: int, id: EventId)
    requires id in t
    ensures KeyOf(t, id) in Concat(AllPages(t, f, limit, None)) <==>
            && (t[id].source == f.source || f.source == "") && (t[id].eventType == f.eventType || f.eventType == "")
            && (t[id].organisationNumber == f.organisationNumber || f.organisationNumber == "")
            && !(f.from.Some? && t[id].occurredOn < f.from.value) && !(f.to.Some? && t[id].occurredOn > f.to.value)
  {
    FixedTableRows(t, f, limit, None);
    SortedIsAscending(Remaining(t, f, None));
    MatchesIff(t, f, id);
  }

  lemma MatchesIff(t: Table, f: Filter, id: EventId)
    requires id in t
    ensures KeyOf(t, id) in Remaining(t, f, None) <==> f.Matches(t[id])
  {
  }

  /** Newest first: by descending date, and rows of one date by descending id. */
  lemma NewestFirst(t: Table, f: Filter, limit: int, i: nat, j: nat, a: EventId, b: EventId)
    requires i < j < |Concat(AllPages(t, f, limit, None))| && a in t && b in t
    requires Concat(AllPages(t, f, limit, None))[i] == KeyOf(t, a)
    requires Concat(AllPages(t, f, limit, None))[j] == KeyOf(t, b)
    ensures t[a].occurredOn > t[b].occurredOn || (t[a].occurredOn == t[b].occurredOn && a > b)
  {
    FixedTableRows(t, f, limit, None);
    SortedIsAscending(Remaining(t, f, None));
    ListingOrder(t[a].occurredOn, a, t[b].occurredOn, b);
  }

  /** It takes the least number of pages that can hold them, and at least one. */
  lemma {:induction false} FixedTablePages(t: Table, f: Filter, limit: int, cursor: Option<Key>)
    ensures LeastPages(|AllPages(t, f, limit, cursor)|, |Remaining(t, f, cursor)|, Clamped(limit))
    decreases |Remaining(t, f, cursor)|
  {
    var page := PageAt(t, f, limit, cursor);
    PageSplits(t, f, limit, cursor);
    if page.next.Some? {
      FixedTablePages(t, f, limit, page.next);
      OnePageMore(|AllPages(t, f, limit, page.next)|, |Remaining(t, f, page.next)|, Clamped(limit));
    }
  }

  // ----- writes between pages -----

  function CursorFor(pages: seq<Page>, i: nat): Option<Key>
    requires i <= |pages|
  {
    if i == 0 then None else pages[i - 1].next
  }

  /** Pages read one after another, each against the table as it is then, until one
      has no next cursor. */
  predicate PagedThrough(tables: seq<Table>, f: Filter, limit: int, pages: seq<Page>) {
    && |pages| == |tables| > 0
    && pages[|pages| - 1].next.None?
    && (forall i :: 0 <= i < |pages| ==> pages[i] == PageAt(tables[i], f, limit, CursorFor(pages, i)))
    && (forall i :: 0 <= i < |pages| - 1 ==> pages[i].next.Some?)
  }

  /** How far `n` pages got: the cursor, or everything once paging has ended. */
  predicate Passed(pages: seq<Page>, n: nat, k: Key)
    requires n <= |pages|
  {
    n > 0 && (pages[n - 1].next.Some? ==> !Less(pages[n - 1].next.value, k))
  }

  lemma {:induction false} SteadyRowSoFar(tables: seq<Table>, f: Filter, limit: int, pages: seq<Page>, id: EventId,
                                          k: Key, n: nat)
    requires PagedThrough(tables, f, limit, pages) && n <= |pages|
    requires forall t: Table :: t in tables ==> id in t && f.Matches(t[id]) && KeyOf(t, id) == k
    ensures multiset(Concat(pages[..n]))[k] == if Passed(pages, n, k) then 1 else 0
    decreases n
  {
    if n > 0 {
      SteadyRowSoFar(tables, f, limit, pages, id, k, n - 1);
      ConcatSnoc(pages, n - 1, k);
      SteadyRowOnNthPage(tables, f, limit, pages, id, k, n - 1);
    }
  }

  /** The n-th page holds a steady row if it was not passed before and is now. */
  lemma SteadyRowOnNthPage(tables: seq<Table>, f: Filter, limit: int, pages: seq<Page>, id: EventId, k: Key, n: nat)
    requires PagedThrough(tables, f, limit, pages) && n < |pages|
    requires forall t: Table :: t in tables ==> id in t && f.Matches(t[id]) && KeyOf(t, id) == k
    ensures Passed(pages, n, k) ==> Passed(pages, n + 1, k)
    ensures multiset(pages[n].items)[k] == if !Passed(pages, n, k) && Passed(pages, n + 1, k) then 1 else 0
  {
    var t := tables[n];
    assert t in tables;
    SteadyRowOnPage(t, f, limit, CursorFor(pages, n), id, k);
  }

  lemma ConcatSnoc(pages: seq<Page>, n: nat, k: Key)
    requires n < |pages|
    ensures multiset(Concat(pages[..n + 1]))[k] == multiset(Concat(pages[..n]))[k] + multiset(pages[n].items)[k]
  {
    assert pages[..n + 1][..n] == pages[..n];
  }

  /** One page holds a steady row exactly when the row lies past the cursor and not
      past the next one. */
  lemma SteadyRowOnPage(t: Table, f: Filter, limit: int, cursor: Option<Key>, id: EventId, k: Key)
    requires id in t && f.Matches(t[id]) && KeyOf(t, id) == k
    ensures var page := PageAt(t, f, limit, cursor);
            && (page.next.Some? && cursor.Some? ==> Less(cursor.value, page.next.value))
            && multiset(page.items)[k] ==
                 if (cursor.Some? ==> Less(cursor.value, k)) && (page.next.Some? ==> !Less(page.next.value, k))
                 then 1 else 0
  {
    var all := Remaining(t, f, cursor);
    var rows := Sorted(all);
    var page := PageAt(t, f, limit, cursor);
    SortedIsAscending(all);
    AscendingOnce(page.items, k);
    if page.next.Some? {
      assert page.next.value in rows && page.next.value in all;
    }
    if k in page.items {
      assert k in rows && k in all;
    } else if cursor.Some? ==> Less(cursor.value, k) {
      assert k in all && k in rows;
    }
  }

  lemma {:induction false} AscendingOnce(r: seq<Key>, k: Key)
    requires Ascending(r)
    ensures multiset(r)[k] == if k in r then 1 else 0
    decreases |r|
  {
    if r != [] {
      var n := |r| - 1;
      AscendingOnce(r[..n], k);
      assert r == r[..n] + [r[n]];
    }
  }

  /** Whatever is written between pages, a row that stays in the table, keeps
      matching and keeps its date is returned exactly once. */
  lemma SteadyRowListedOnce(tables: seq<Table>, f: Filter, limit: int, pages: seq<Page>, id: EventId, on: int)
    requires PagedThrough(tables, f, limit, pages)
    requires forall t: Table :: t in tables ==> id in t && f.Matches(t[id]) && t[id].occurredOn == on
    ensures multiset(Concat(pages))[ListingKey(on, id)] == 1
  {
    SteadyRowSoFar(tables, f, limit, pages, id, ListingKey(on, id), |pages|);
    assert pages[..|pages|] == pages;
  }
}
