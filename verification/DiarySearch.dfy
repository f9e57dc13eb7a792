/** Reading the paged web diary: what the two page loops of
    internal/source/arbetsmiljoverket/ingest.go see of a listing. */
module DiarySearch {
  import opened Wrappers
  import opened Arbetsmiljoverket

  datatype Query = Query(from: int, to: int, subjectArea: string, documentType: string, text: string)

  /** One result page: parsed rows, the number of rows that could not be parsed, and
      the result count the source reports, 0 when it is missing. */
  datatype SearchPage = SearchPage(documents: seq<Document>, rowErrors: nat, total: nat)

  /** The source: the page of a query, from page 1; none if it cannot be fetched. */
  type Search = (Query, nat) -> Option<SearchPage>

  // ----- the case loop: complete or nothing -----

  /** The documents of pages 1 to k, all fetched and fully parsed. */
  function Documents(search: Search, q: Query, k: nat): Option<seq<Document>> {
    if k == 0 then Some([]) else
      var front, page := Documents(search, q, k - 1), search(q, k);
      if front.None? || page.None? || page.value.rowErrors > 0 then None
      else Some(front.value + page.value.documents)
  }

  /** Page k shows that nothing follows it. */
  predicate EndsAt(search: Search, q: Query, k: nat) {
    && Documents(search, q, k).Some? && search(q, k).Some?
    && var page := search(q, k).value;
       page.documents == [] || (page.total > 0 && |Documents(search, q, k).value| >= page.total)
  }

  /** The complete listing, read from page k on; none if a page is missing or not
      fully parsed, or if more than `limit` pages would be needed. */
  function Chronology(search: Search, q: Query, k: nat, limit: nat): Option<seq<Document>>
    decreases limit + 1 - k
  {
    if k > limit || Documents(search, q, k).None? then None
    else if EndsAt(search, q, k) then Documents(search, q, k)
    else Chronology(search, q, k + 1, limit)
  }

  // ----- the window loop: whatever can be read -----

  /** What was read until the listing ended, the page limit was reached, or a page
      could not be fetched. */
  datatype Harvest = Harvest(documents: seq<Document>, rowErrors: nat, pages: nat, fetched: bool)

  function Window(search: Search, q: Query, k: nat, limit: nat, seen: nat): Harvest
    decreases limit + 1 - k
  {
    if k > limit then Harvest([], 0, 0, true)
    else if search(q, k).None? then Harvest([], 0, 0, false)
    else
      var page := search(q, k).value;
      var seen' := seen + |page.documents| + page.rowErrors;
      if page.documents == [] && page.rowErrors == 0 then Harvest([], 0, 1, true)
      else if page.total > 0 && seen' >= page.total then Harvest(page.documents, page.rowErrors, 1, true)
      else
        var rest := Window(search, q, k + 1, limit, seen');
        Harvest(page.documents + rest.documents, page.rowErrors + rest.rowErrors, rest.pages + 1, rest.fetched)
  }

  // ----- a listing served in pages -----

  datatype Row = Parsed(d: Document) | Broken

  function ParsedRows(rows: seq<Row>): seq<Document> {
    if rows == [] then [] else
      var front, row := ParsedRows(rows[..|rows| - 1]), rows[|rows| - 1];
      if row.Parsed? then front + [row.d] else front
  }

  function BrokenRows(rows: seq<Row>): (n: nat) {
    if rows == [] then 0 else
      BrokenRows(rows[..|rows| - 1]) + if rows[|rows| - 1].Broken? then 1 else 0
  }

  lemma {:induction false} ParsedRowsExact(rows: seq<Row>, d: Document)
    ensures d in ParsedRows(rows) <==> Parsed(d) in rows
    decreases |rows|
  {
    if rows != [] {
      ParsedRowsExact(rows[..|rows| - 1], d);
      assert rows == rows[..|rows| - 1] + [rows[|rows| - 1]];
    }
  }

  lemma {:induction false} RowsAreParsedOrBroken(rows: seq<Row>)
    ensures |ParsedRows(rows)| + BrokenRows(rows) == |rows|
    decreases |rows|
  {
    if rows != [] {
      RowsAreParsedOrBroken(rows[..|rows| - 1]);
    }
  }

  lemma {:induction false} BrokenRowsExact(rows: seq<Row>)
    ensures BrokenRows(rows) == 0 <==> Broken !in rows
    decreases |rows|
  {
    if rows != [] {
      BrokenRowsExact(rows[..|rows| - 1]);
      assert rows == rows[..|rows| - 1] + [rows[|rows| - 1]];
    }
  }

  lemma {:induction false} RowsConcat(a: seq<Row>, b: seq<Row>)
    ensures ParsedRows(a + b) == ParsedRows(a) + ParsedRows(b)
    ensures BrokenRows(a + b) == BrokenRows(a) + BrokenRows(b)
    decreases |b|
  {
    if b == [] {
      assert a + b == a;
    } else {
      RowsConcat(a, b[..|b| - 1]);
      assert (a + b)[..|a + b| - 1] == a + b[..|b| - 1];
    }
  }

  /** How many of n rows the first k pages hold. */
  function UpTo(n: nat, k: nat): (r: nat)
    ensures r <= n
  {
    if 10 * k > n then n else 10 * k
  }

  /** The source serves these rows for q, ten to a page, with the given total. */
  ghost predicate Lists(search: Search, q: Query, rows: seq<Row>, total: nat) {
    && (total == 0 || total == |rows|)
    && forall k: nat :: k >= 1 ==> Serves(search(q, k), rows, total, k)
  }

  predicate Serves(page: Option<SearchPage>, rows: seq<Row>, total: nat, k: nat)
    requires k >= 1
  {
    var part := rows[UpTo(|rows|, k - 1)..UpTo(|rows|, k)];
    page == Some(SearchPage(ParsedRows(part), BrokenRows(part), total))
  }

  lemma UpToStep(rows: seq<Row>, k: nat)
    requires k >= 1
    ensures rows[..UpTo(|rows|, k)] == rows[..UpTo(|rows|, k - 1)] + rows[UpTo(|rows|, k - 1)..UpTo(|rows|, k)]
  {
  }

  /** What page k adds to the rows seen before it. */
  lemma PageOfListing(search: Search, q: Query, rows: seq<Row>, total: nat, k: nat)
    requires Lists(search, q, rows, total) && k >= 1
    ensures search(q, k).Some?
    ensures var page := search(q, k).value;
            && page == SearchPage(ParsedRows(rows[UpTo(|rows|, k - 1)..UpTo(|rows|, k)]),
                                  BrokenRows(rows[UpTo(|rows|, k - 1)..UpTo(|rows|, k)]), total)
            && UpTo(|rows|, k - 1) + |page.documents| + page.rowErrors == UpTo(|rows|, k)
  {
    assert Serves(search(q, k), rows, total, k);
    RowsAreParsedOrBroken(rows[UpTo(|rows|, k - 1)..UpTo(|rows|, k)]);
  }

  /** Every row could be parsed. */
  predicate AllParsed(rows: seq<Row>) {
    BrokenRows(rows) == 0
  }

  /** The rows of the first k pages. */
  function FirstPages(rows: seq<Row>, k: nat): seq<Row> {
    rows[..UpTo(|rows|, k)]
  }

  lemma {:induction false} DocumentsOfListing(search: Search, q: Query, rows: seq<Row>, total: nat, k: nat)
    requires Lists(search, q, rows, total)
    ensures var read := FirstPages(rows, k);
            Documents(search, q, k) == if AllParsed(read) then Some(ParsedRows(read)) else None
    decreases k
  {
    if k == 0 {
      assert FirstPages(rows, k) == [];
    } else {
      DocumentsOfListing(search, q, rows, total, k - 1);
      PageOfListing(search, q, rows, total, k);
      NextPage(rows, k);
    }
  }

  lemma NextPage(rows: seq<Row>, k: nat)
    requires k >= 1
    ensures var before, part, read :=
              FirstPages(rows, k - 1), rows[UpTo(|rows|, k - 1)..UpTo(|rows|, k)], FirstPages(rows, k);
            && ParsedRows(read) == ParsedRows(before) + ParsedRows(part)
            && BrokenRows(read) == BrokenRows(before) + BrokenRows(part)
            && |ParsedRows(read)| + BrokenRows(read) == UpTo(|rows|, k)
  {
    var before, part := FirstPages(rows, k - 1), rows[UpTo(|rows|, k - 1)..UpTo(|rows|, k)];
    UpToStep(rows, k);
    RowsConcat(before, part);
    RowsAreParsedOrBroken(FirstPages(rows, k));
  }

  /** Have the first k pages shown that nothing follows them? */
  predicate ShownComplete(n: nat, total: nat, k: nat) {
    if total > 0 then n <= 10 * k else k >= 1 && n <= 10 * (k - 1)
  }

  lemma EndOfListing(search: Search, q: Query, rows: seq<Row>, total: nat, k: nat)
    requires Lists(search, q, rows, total) && k >= 1 && AllParsed(FirstPages(rows, k))
    ensures EndsAt(search, q, k) <==> ShownComplete(|rows|, total, k)
  {
    DocumentsOfListing(search, q, rows, total, k);
    PageOfListing(search, q, rows, total, k);
    NextPage(rows, k);
  }

  lemma BrokenStays(rows: seq<Row>, k: nat)
    ensures BrokenRows(FirstPages(rows, k)) <= BrokenRows(rows)
    ensures UpTo(|rows|, k) == |rows| ==> FirstPages(rows, k) == rows
  {
    var rest := rows[UpTo(|rows|, k)..];
    assert FirstPages(rows, k) + rest == rows;
    RowsConcat(FirstPages(rows, k), rest);
  }

  lemma {:induction false} ChronologyFrom(search: Search, q: Query, rows: seq<Row>, total: nat, k: nat, limit: nat)
    requires Lists(search, q, rows, total) && 1 <= k <= limit + 1
    requires !ShownComplete(|rows|, total, k - 1)
    ensures Chronology(search, q, k, limit)
            == if AllParsed(rows) && ShownComplete(|rows|, total, limit) then Some(ParsedRows(rows)) else None
    decreases limit + 1 - k
  {
    if k <= limit {
      DocumentsOfListing(search, q, rows, total, k);
      BrokenStays(rows, k);
      if AllParsed(FirstPages(rows, k)) {
        EndOfListing(search, q, rows, total, k);
        if !ShownComplete(|rows|, total, k) {
          ChronologyFrom(search, q, rows, total, k + 1, limit);
        }
      }
    }
  }

  /** The case loop succeeds exactly when every row parses and `limit` pages show that
      the listing is complete, and then it has seen every document. Without a reported
      total that takes one more page, the empty one. */
  lemma ChronologyIsComplete(search: Search, q: Query, rows: seq<Row>, total: nat, limit: nat)
    requires Lists(search, q, rows, total)
    ensures Chronology(search, q, 1, limit)
            == if AllParsed(rows) && ShownComplete(|rows|, total, limit) then Some(ParsedRows(rows)) else None
  {
    ChronologyFrom(search, q, rows, total, 1, limit);
  }

  /** A reading that got exactly these rows. */
  predicate Got(r: Harvest, rows: seq<Row>) {
    r.fetched && r.documents == ParsedRows(rows) && r.rowErrors == BrokenRows(rows)
  }

  /** A page in the middle: something on it and more to come. */
  lemma WindowStep(search: Search, q: Query, k: nat, limit: nat, seen: nat, part: seq<Row>, rest: seq<Row>, total: nat)
    requires k <= limit && search(q, k) == Some(SearchPage(ParsedRows(part), BrokenRows(part), total))
    requires part != [] && (total == 0 || seen + |part| < total)
    requires Got(Window(search, q, k + 1, limit, seen + |part|), rest)
    ensures Got(Window(search, q, k, limit, seen), part + rest)
  {
    RowsAreParsedOrBroken(part);
    RowsConcat(part, rest);
  }

  lemma WindowEnd(search: Search, q: Query, k: nat, limit: nat, seen: nat, part: seq<Row>, total: nat)
    requires k <= limit && search(q, k) == Some(SearchPage(ParsedRows(part), BrokenRows(part), total))
    requires part == [] || (total > 0 && seen + |part| >= total)
    ensures Got(Window(search, q, k, limit, seen), part)
  {
    RowsAreParsedOrBroken(part);
  }

  lemma {:induction false} WindowFrom(search: Search, q: Query, rows: seq<Row>, total: nat, k: nat, limit: nat)
    requires Lists(search, q, rows, total) && 1 <= k <= limit + 1
    requires 10 * (k - 1) < |rows| || k == 1 || total == 0
    ensures Got(Window(search, q, k, limit, UpTo(|rows|, k - 1)), rows[UpTo(|rows|, k - 1)..UpTo(|rows|, limit)])
    decreases limit + 1 - k
  {
    if k <= limit {
      var seen, next, last := UpTo(|rows|, k - 1), UpTo(|rows|, k), UpTo(|rows|, limit);
      var part := rows[seen..next];
      assert Serves(search(q, k), rows, total, k);
      if part == [] || (total > 0 && next >= total) {
        WindowEnd(search, q, k, limit, seen, part, total);
        assert last == next;
      } else {
        WindowFrom(search, q, rows, total, k + 1, limit);
        WindowStep(search, q, k, limit, seen, part, rows[next..last], total);
        SlicesMeet(rows, seen, next, last);
      }
    }
  }

  lemma SlicesMeet(rows: seq<Row>, i: nat, j: nat, l: nat)
    requires i <= j <= l <= |rows|
    ensures rows[i..j] + rows[j..l] == rows[i..l]
  {
  }

  /** The window loop reads every row of a listing that fits in `limit` pages; of a
      longer one it reads the first pages and stops without an error. */
  lemma WindowReadsTheListing(search: Search, q: Query, rows: seq<Row>, total: nat, limit: nat)
    requires Lists(search, q, rows, total)
    ensures Got(Window(search, q, 1, limit, 0), rows[..UpTo(|rows|, limit)])
    ensures rows[..UpTo(|rows|, limit)] == rows <==> |rows| <= 10 * limit
  {
    WindowFrom(search, q, rows, total, 1, limit);
    assert rows[0..UpTo(|rows|, limit)] == rows[..UpTo(|rows|, limit)];
    if |rows| > 10 * limit {
      assert |rows[..UpTo(|rows|, limit)]| < |rows|;
    }
  }

  /** The pages it takes to see the end of a listing: those with rows and, without a
      reported total, an empty one. */
  function PagesToEnd(n: nat, total: nat): nat {
    (n + 9) / 10 + if total > 0 then 0 else 1
  }

  lemma {:induction false} WindowPagesFrom(search: Search, q: Query, rows: seq<Row>, total: nat, k: nat, limit: nat)
    requires Lists(search, q, rows, total) && 1 <= k <= limit + 1 && k <= PagesToEnd(|rows|, total)
    ensures Window(search, q, k, limit, UpTo(|rows|, k - 1)).pages ==
            (if limit < PagesToEnd(|rows|, total) then limit else PagesToEnd(|rows|, total)) - (k - 1)
    decreases limit + 1 - k
  {
    if k <= limit {
      var seen, next := UpTo(|rows|, k - 1), UpTo(|rows|, k);
      assert Serves(search(q, k), rows, total, k);
      RowsAreParsedOrBroken(rows[seen..next]);
      if !(seen == next || (total > 0 && next >= total)) {
        WindowPagesFrom(search, q, rows, total, k + 1, limit);
      }
    }
  }

  /** The window loop reads exactly those pages, or as many as it may. */
  lemma WindowPages(search: Search, q: Query, rows: seq<Row>, total: nat, limit: nat)
    requires Lists(search, q, rows, total)
    ensures Window(search, q, 1, limit, 0).pages ==
            if limit < PagesToEnd(|rows|, total) then limit else PagesToEnd(|rows|, total)
  {
    WindowPagesFrom(search, q, rows, total, 1, limit);
  }
}
