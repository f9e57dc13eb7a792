/** The one-event-per-case rule and its independence of the order of runs
    (earliestInCase and RunFeed in internal/source/arbetsmiljoverket/ingest.go). */
module OneEventPerCase {
  import opened Wrappers
  import opened PublicEvent
  import opened Arbetsmiljoverket
  import opened DiarySearch
  import opened EventStore

  const MAX_CASE_PAGES := 10
  const DEFAULT_MAX_PAGES := 1000
  const SOURCE_EPOCH := 20150101

  predicate InRange(w: DateRange, d: Document) {
    w.from <= d.documentDate <= w.to
  }

  function WindowQuery(feed: Feed, w: DateRange): Query {
    Query(w.from, w.to, feed.subjectArea, feed.documentType, "")
  }

  function CaseQuery(feed: Feed, d: Document): Query {
    Query(SOURCE_EPOCH, d.documentDate, feed.subjectArea, feed.documentType, d.caseNumber)
  }

  /** The text filter is a substring match: only the case's own rows count. */
  predicate SameCase(feed: Feed, other: Document, d: Document) {
    other.caseNumber == d.caseNumber && other.documentType == feed.documentTypeName
  }

  /** The first of the earliest among d and its case's rows. */
  function EarliestOf(feed: Feed, d: Document, docs: seq<Document>): Document {
    if docs == [] then d else
      var front, other := EarliestOf(feed, d, docs[..|docs| - 1]), docs[|docs| - 1];
      if SameCase(feed, other, d) && DocumentBefore(other, front) then other else front
  }

  /** The earliest document of d's case, or none if that cannot be established. */
  function EarliestInCase(search: Search, feed: Feed, d: Document): Option<Document> {
    var docs := Chronology(search, CaseQuery(feed, d), 1, MAX_CASE_PAGES);
    if docs.None? then None else Some(EarliestOf(feed, d, docs.value))
  }

  /** The result is of the earliest date among d and the rows of its case and, on that
      date, of the lowest running number; it is d unless a row comes before d. */
  lemma {:induction false} EarliestIsMinimal(feed: Feed, d: Document, docs: seq<Document>)
    ensures var e := EarliestOf(feed, d, docs);
            && NoneBefore(e, d)
            && (e == d || (e in docs && e.caseNumber == d.caseNumber && e.documentType == feed.documentTypeName
                           && !NoneBefore(d, e)))
            && forall o :: o in docs && o.caseNumber == d.caseNumber && o.documentType == feed.documentTypeName ==>
                 NoneBefore(e, o)
    decreases |docs|
  {
    if docs != [] {
      EarliestIsMinimal(feed, d, docs[..|docs| - 1]);
      assert docs == docs[..|docs| - 1] + [docs[|docs| - 1]];
    }
  }

  /** e is of an earlier date than o, or of the same date and no higher running number. */
  predicate NoneBefore(e: Document, o: Document) {
    e.documentDate < o.documentDate
    || (e.documentDate == o.documentDate && DocumentSuffix(e.documentNumber) <= DocumentSuffix(o.documentNumber))
  }

  /** Is d persisted? None if its case's chronology cannot be established. */
  function Emits(search: Search, feed: Feed, d: Document): Option<bool> {
    if d.documentType != feed.documentTypeName || !feed.accept(d) then Some(false)
    else if !feed.onePerCase then Some(true)
    else
      var e := EarliestInCase(search, feed, d);
      if e.None? then None else Some(e.value.documentNumber == d.documentNumber)
  }

  /** What becomes of a row. */
  datatype Verdict = OtherType | NotAccepted | LaterInCase | Unestablished | Accepted

  function VerdictOn(search: Search, feed: Feed, d: Document): Verdict {
    if d.documentType != feed.documentTypeName then OtherType
    else if !feed.accept(d) then NotAccepted
    else match Emits(search, feed, d)
      case None => Unestablished
      case Some(b) => if b then Accepted else LaterInCase
  }

  /** How often each verdict was given. */
  datatype Tally = Tally(otherTypes: nat, notAccepted: nat, laterInCase: nat, unestablished: nat, accepted: nat)

  function Counted(t: Tally, v: Verdict): Tally {
    match v
    case OtherType => t.(otherTypes := t.otherTypes + 1)
    case NotAccepted => t.(notAccepted := t.notAccepted + 1)
    case LaterInCase => t.(laterInCase := t.laterInCase + 1)
    case Unestablished => t.(unestablished := t.unestablished + 1)
    case Accepted => t.(accepted := t.accepted + 1)
  }

  /** The documents a run persists, what became of the rows it looked at, and whether
      it was aborted by a chronology. */
  datatype Selection = Selection(chosen: seq<Document>, judged: Tally, aborted: bool)

  const NOTHING := Selection([], Tally(0, 0, 0, 0, 0), false)

  function Judged(before: Selection, d: Document, v: Verdict): Selection {
    Selection(if v == Accepted then before.chosen + [d] else before.chosen, Counted(before.judged, v),
              v == Unestablished)
  }

  /** What is selected of documents with these verdicts. */
  function SelectBy(docs: seq<Document>, vs: seq<Verdict>): Selection
    requires |docs| == |vs|
  {
    if docs == [] then NOTHING else
      var n := |docs| - 1;
      var front := SelectBy(docs[..n], vs[..n]);
      if front.aborted then front else Judged(front, docs[n], vs[n])
  }

  function JudgedBy(judge: Document -> Verdict, docs: seq<Document>): (r: seq<Verdict>)
    ensures |r| == |docs|
  {
    if docs == [] then [] else JudgedBy(judge, docs[..|docs| - 1]) + [judge(docs[|docs| - 1])]
  }

  lemma {:induction false} JudgedByAt(judge: Document -> Verdict, docs: seq<Document>, i: nat)
    requires i < |docs|
    ensures JudgedBy(judge, docs)[i] == judge(docs[i])
    decreases |docs|
  {
    if i < |docs| - 1 {
      JudgedByAt(judge, docs[..|docs| - 1], i);
    }
  }

  lemma {:induction false} JudgedByConcat(judge: Document -> Verdict, docs: seq<Document>, more: seq<Document>)
    ensures JudgedBy(judge, docs + more) == JudgedBy(judge, docs) + JudgedBy(judge, more)
    decreases |more|
  {
    if more == [] {
      assert docs + more == docs;
    } else {
      JudgedByConcat(judge, docs, more[..|more| - 1]);
      assert (docs + more)[..|docs + more| - 1] == docs + more[..|more| - 1];
    }
  }

  function JudgeOf(search: Search, feed: Feed): Document -> Verdict {
    d => VerdictOn(search, feed, d)
  }

  function Verdicts(search: Search, feed: Feed, docs: seq<Document>): (r: seq<Verdict>)
    ensures |r| == |docs|
  {
    JudgedBy(JudgeOf(search, feed), docs)
  }

  lemma VerdictsAt(search: Search, feed: Feed, docs: seq<Document>, i: nat)
    requires i < |docs|
    ensures Verdicts(search, feed, docs)[i] == VerdictOn(search, feed, docs[i])
  {
    JudgedByAt(JudgeOf(search, feed), docs, i);
  }

  function Select(search: Search, feed: Feed, docs: seq<Document>): Selection {
    SelectBy(docs, Verdicts(search, feed, docs))
  }

  // ----- what a feed makes of a document -----

  function KeyOf(d: Document): EventKey {
    DiaryDocument(d.documentNumber)
  }

  /** The event of each document, if the repository accepts it. */
  type Mapping = Document -> Option<NewEvent>

  function DiaryEvent(feed: Feed, d: Document): Option<NewEvent> {
    var e := ToEvent(d, feed.eventType);
    if d.documentNumber == "" || !Acceptable(e) then None else Some(e)
  }

  function EventsFor(feed: Feed): Mapping {
    d => DiaryEvent(feed, d)
  }

  /** The mapping is the feed's. */
  ghost predicate Fits(feed: Feed, m: Mapping) {
    forall d {:trigger DiaryEvent(feed, d)} :: m(d) == DiaryEvent(feed, d)
  }

  lemma EventsFit(feed: Feed)
    ensures Fits(feed, EventsFor(feed))
  {
  }

  function EntryOf(m: Mapping, d: Document): Entry {
    var e := m(d);
    Entry(DiaryRow(d), if e.None? then None else Some([Derivation(KeyOf(d), e.value)]))
  }

  /** For a feed whose event type goes with its document type, that is what the row
      itself says. */
  lemma KnownFeedDerives(feed: Feed, d: Document)
    requires feed.Known() && d.documentType == feed.documentTypeName
    ensures EntryOf(EventsFor(feed), d).derivations == Derived(DiaryRow(d))
  {
    assert EventsFor(feed)(d) == DiaryEvent(feed, d);
  }

  /** Documents persisted one after another, with consecutive ids and times. */
  function Stored(m: Mapping, db: Db, docs: seq<Document>, id: ObsId, now: int): Db {
    if docs == [] then db else
      var n := |docs| - 1;
      Entered(Stored(m, db, docs[..n], id, now), EntryOf(m, docs[n]), id + n, now + n, false)
  }

  /** Persisting some documents and then others is persisting them all. */
  lemma {:induction false} StoredConcat(m: Mapping, db: Db, a: seq<Document>, b: seq<Document>, id: ObsId, now: int)
    ensures Stored(m, Stored(m, db, a, id, now), b, id + |a|, now + |a|) == Stored(m, db, a + b, id, now)
    decreases |b|
  {
    if b == [] {
      assert a + b == a;
    } else {
      StoredConcat(m, db, a, b[..|b| - 1], id, now);
      assert (a + b)[..|a + b| - 1] == a + b[..|b| - 1];
    }
  }

  // ----- a fixed source with complete listings -----

  /** The listing of a query: documents of the diary in the date range, among them all
      of the case asked for (all of them, when no case is asked for). */
  ghost predicate Covers(rows: seq<Row>, q: Query, diary: set<Document>) {
    && (forall d :: Parsed(d) in rows ==> d in diary && q.from <= d.documentDate <= q.to)
    && (forall d :: d in diary && q.from <= d.documentDate <= q.to && (q.text == "" || d.caseNumber == q.text) ==>
          Parsed(d) in rows)
  }

  ghost predicate Listing(search: Search, q: Query, diary: set<Document>, rows: seq<Row>, total: nat) {
    Lists(search, q, rows, total) && (AllParsed(rows) ==> Covers(rows, q, diary))
  }

  /** What the feed's queries return. A listing with unparsable rows may hide documents. */
  ghost predicate FixedSource(search: Search, feed: Feed, diary: set<Document>) {
    && (forall d :: d in diary ==> d.documentDate >= 20150101 && d.caseNumber != "")
    && (forall d, o :: d in diary && o in diary && d.documentNumber == o.documentNumber ==> d == o)
    && (forall q: Query :: q.subjectArea == feed.subjectArea && q.documentType == feed.documentType ==>
          exists rows, total :: Listing(search, q, diary, rows, total))
  }

  /** The rows of a diary that match a query, in diary order. */
  function Matching(docs: seq<Document>, q: Query): seq<Row> {
    if docs == [] then [] else
      var front, d := Matching(docs[..|docs| - 1], q), docs[|docs| - 1];
      if q.from <= d.documentDate <= q.to && (q.text == "" || d.caseNumber == q.text) then front + [Parsed(d)]
      else front
  }

  /** The source that serves such a diary in pages, with totals. */
  function SourceOf(docs: seq<Document>): Search {
    (q: Query, k: nat) =>
      if k == 0 then None else
        var rows := Matching(docs, q);
        var part := rows[UpTo(|rows|, k - 1)..UpTo(|rows|, k)];
        Some(SearchPage(ParsedRows(part), BrokenRows(part), |rows|))
  }

  lemma {:induction false} MatchingExact(docs: seq<Document>, q: Query, d: Document)
    ensures Parsed(d) in Matching(docs, q)
            <==> d in docs && q.from <= d.documentDate <= q.to && (q.text == "" || d.caseNumber == q.text)
    decreases |docs|
  {
    if docs != [] {
      MatchingExact(docs[..|docs| - 1], q, d);
      assert docs == docs[..|docs| - 1] + [docs[|docs| - 1]];
    }
  }

  /** There are such sources: one for every diary with distinct document numbers. */
  lemma SourceOfIsFixed(feed: Feed, docs: seq<Document>, diary: set<Document>)
    requires forall d :: d in diary <==> d in docs
    requires forall d :: d in diary ==> d.documentDate >= SOURCE_EPOCH && d.caseNumber != ""
    requires forall d, o :: d in diary && o in diary && d.documentNumber == o.documentNumber ==> d == o
    ensures FixedSource(SourceOf(docs), feed, diary)
  {
    forall q: Query | q.subjectArea == feed.subjectArea && q.documentType == feed.documentType
      ensures exists rows, total :: Listing(SourceOf(docs), q, diary, rows, total)
    {
      SourceLists(docs, diary, q);
    }
  }

  lemma SourceLists(docs: seq<Document>, diary: set<Document>, q: Query)
    requires forall d :: d in diary <==> d in docs
    ensures Listing(SourceOf(docs), q, diary, Matching(docs, q), |Matching(docs, q)|)
  {
    var rows := Matching(docs, q);
    assert forall k: nat :: k >= 1 ==> Serves(SourceOf(docs)(q, k), rows, |rows|, k);
    forall d
      ensures Parsed(d) in rows
              <==> d in diary && q.from <= d.documentDate <= q.to && (q.text == "" || d.caseNumber == q.text)
    {
      MatchingExact(docs, q, d);
    }
  }

  /** Accepted, and of all documents of the feed's type in the whole case of the earliest
      date and, on that date, of the lowest running number. */
  ghost predicate Wanted(feed: Feed, diary: set<Document>, d: Document) {
    && d in diary && d.documentType == feed.documentTypeName && feed.accept(d)
    && (feed.onePerCase ==>
          forall o :: o in diary && o.caseNumber == d.caseNumber && o.documentType == feed.documentTypeName ==>
            d.documentDate < o.documentDate
            || (d.documentDate == o.documentDate
                && DocumentSuffix(d.documentNumber) <= DocumentSuffix(o.documentNumber)))
  }

  /** Against a fixed source a document is persisted exactly if it is the earliest of
      its type in its whole case, whatever window it was found in. */
  lemma EmitsTheEarliest(search: Search, feed: Feed, diary: set<Document>, d: Document)
    requires FixedSource(search, feed, diary) && d in diary
    requires Emits(search, feed, d).Some?
    ensures Emits(search, feed, d).value <==> Wanted(feed, diary, d)
  {
    if d.documentType == feed.documentTypeName && feed.accept(d) && feed.onePerCase {
      var q := CaseQuery(feed, d);
      var rows, total :| Listing(search, q, diary, rows, total);
      ChronologyIsComplete(search, q, rows, total, MAX_CASE_PAGES);
      var docs := ParsedRows(rows);
      forall o ensures o in docs ==> o in diary
               ensures o in diary && o.caseNumber == d.caseNumber && o.documentDate <= d.documentDate ==> o in docs {
        ParsedRowsExact(rows, o);
      }
      EarliestIsWanted(feed, diary, d, docs);
    }
  }

  lemma {:induction false} EarliestIsWanted(feed: Feed, diary: set<Document>, d: Document, docs: seq<Document>)
    requires d in diary && d.documentType == feed.documentTypeName && feed.accept(d) && feed.onePerCase
    requires forall o :: o in docs ==> o in diary
    requires forall o :: o in diary && o.caseNumber == d.caseNumber && o.documentDate <= d.documentDate ==> o in docs
    requires forall o :: o in diary && o.documentNumber == d.documentNumber ==> o == d
    ensures EarliestOf(feed, d, docs).documentNumber == d.documentNumber <==> Wanted(feed, diary, d)
  {
    EarliestIsMinimal(feed, d, docs);
    var e := EarliestOf(feed, d, docs);
    if e == d {
      forall o | o in diary && o.caseNumber == d.caseNumber && o.documentType == feed.documentTypeName
        ensures NoneBefore(d, o)
      {
        assert o.documentDate <= d.documentDate ==> o in docs;
      }
    } else {
      assert e in diary && !NoneBefore(d, e);
    }
  }

  /** The chronology of a document is established exactly if every row of its case's
      search parses and ten pages suffice to show that the search is complete. */
  lemma FailsClosed(search: Search, feed: Feed, d: Document, rows: seq<Row>, total: nat)
    requires Lists(search, CaseQuery(feed, d), rows, total)
    requires d.documentType == feed.documentTypeName && feed.accept(d) && feed.onePerCase
    ensures Emits(search, feed, d).None? <==> Broken in rows || |rows| > (if total > 0 then 100 else 90)
  {
    BrokenRowsExact(rows);
    ChronologyIsComplete(search, CaseQuery(feed, d), rows, total, MAX_CASE_PAGES);
  }

  predicate Tie(a: Document, b: Document) {
    a.documentDate == b.documentDate && DocumentSuffix(a.documentNumber) == DocumentSuffix(b.documentNumber)
  }

  /** Next to one wanted document of a case, another accepted one is wanted exactly if
      the two tie: distinct dates or running numbers leave one event per case. */
  lemma OnePerCase(feed: Feed, diary: set<Document>, a: Document, b: Document)
    requires Wanted(feed, diary, a) && feed.onePerCase && a.caseNumber == b.caseNumber
    requires b in diary && b.documentType == feed.documentTypeName && feed.accept(b)
    ensures Wanted(feed, diary, b) <==> Tie(a, b)
  {
    assert SameCase(feed, a, b) && SameCase(feed, b, a);
    assert !DocumentBefore(b, a);
    if Tie(a, b) {
      forall o | o in diary && SameCase(feed, o, b) ensures !DocumentBefore(o, b) {
        assert SameCase(feed, o, a);
      }
    }
  }

  // ----- what runs leave in the tables -----

  /** Some row with this verdict is this document. */
  predicate JudgedAs(docs: seq<Document>, vs: seq<Verdict>, d: Document, v: Verdict)
    requires |docs| == |vs|
  {
    exists i :: 0 <= i < |docs| && docs[i] == d && vs[i] == v
  }

  lemma JudgedAsSnoc(docs: seq<Document>, vs: seq<Verdict>, d: Document, v: Verdict)
    requires |docs| == |vs| > 0
    ensures var n := |docs| - 1;
            JudgedAs(docs, vs, d, v) <==> JudgedAs(docs[..n], vs[..n], d, v) || (docs[n] == d && vs[n] == v)
  {
    var n := |docs| - 1;
    if JudgedAs(docs[..n], vs[..n], d, v) {
      var i :| 0 <= i < n && docs[..n][i] == d && vs[..n][i] == v;
      assert docs[i] == d && vs[i] == v;
    }
    if JudgedAs(docs, vs, d, v) && !(docs[n] == d && vs[n] == v) {
      var i :| 0 <= i < |docs| && docs[i] == d && vs[i] == v;
      assert docs[..n][i] == d && vs[..n][i] == v;
    }
  }

  lemma {:induction false} SelectByExact(docs: seq<Document>, vs: seq<Verdict>, d: Document)
    requires |docs| == |vs| && !SelectBy(docs, vs).aborted
    ensures d in SelectBy(docs, vs).chosen <==> JudgedAs(docs, vs, d, Accepted)
    ensures !JudgedAs(docs, vs, d, Unestablished)
    decreases |docs|
  {
    if docs != [] {
      var n := |docs| - 1;
      SelectByExact(docs[..n], vs[..n], d);
      JudgedAsSnoc(docs, vs, d, Accepted);
      JudgedAsSnoc(docs, vs, d, Unestablished);
    }
  }

  /** A run that is not aborted looks at every row and persists the accepted ones. */
  lemma SelectExact(search: Search, feed: Feed, docs: seq<Document>, d: Document)
    requires !Select(search, feed, docs).aborted
    ensures d in docs ==> VerdictOn(search, feed, d) != Unestablished
    ensures d in Select(search, feed, docs).chosen <==> d in docs && VerdictOn(search, feed, d) == Accepted
  {
    var vs, v := Verdicts(search, feed, docs), VerdictOn(search, feed, d);
    SelectByExact(docs, vs, d);
    if d in docs {
      var i :| 0 <= i < |docs| && docs[i] == d;
      VerdictsAt(search, feed, docs, i);
      assert JudgedAs(docs, vs, d, v);
    }
    if JudgedAs(docs, vs, d, Accepted) {
      var i :| 0 <= i < |docs| && docs[i] == d && vs[i] == Accepted;
      VerdictsAt(search, feed, docs, i);
    }
  }

  function Times(vs: seq<Verdict>, v: Verdict): nat {
    if vs == [] then 0 else Times(vs[..|vs| - 1], v) + if vs[|vs| - 1] == v then 1 else 0
  }

  /** A run that is not aborted counts the verdict on every row. */
  lemma {:induction false} SelectCounts(docs: seq<Document>, vs: seq<Verdict>)
    requires |docs| == |vs| && !SelectBy(docs, vs).aborted
    ensures var judged := SelectBy(docs, vs).judged;
            && judged.otherTypes == Times(vs, OtherType) && judged.notAccepted == Times(vs, NotAccepted)
            && judged.laterInCase == Times(vs, LaterInCase) && judged.accepted == Times(vs, Accepted)
            && judged.unestablished == 0
            && |docs| == judged.otherTypes + judged.notAccepted + judged.laterInCase + judged.accepted
    decreases |docs|
  {
    if docs != [] {
      var n := |docs| - 1;
      SelectCounts(docs[..n], vs[..n]);
    }
  }

  lemma StoredSnoc(m: Mapping, db: Db, docs: seq<Document>, d: Document, id: ObsId, now: int)
    ensures Stored(m, db, docs + [d], id, now) == Entered(Stored(m, db, docs, id, now), EntryOf(m, d), id + |docs|,
                                                          now + |docs|, false)
  {
    assert (docs + [d])[..|docs|] == docs;
  }

  lemma PersistedAs(db: Db, p: Payload, x: Derivation, id: ObsId, now: int)
    ensures var obs := Recorded(db.observations, p, id, now);
            Entered(db, Entry(p, Some([x])), id, now, false) == Db(obs, Upserted(db.events, x, obs[p].id, now))
  {
    UpsertedSnoc(db.events, [], x, Recorded(db.observations, p, id, now)[p].id, now);
    assert [] + [x] == [x];
  }

  type Table = map<EventKey, EventRow>

  /** What persisting a row may change. */
  datatype Change = Change(key: EventKey, event: Option<NewEvent>)

  function ChangeOf(m: Mapping, d: Document): Change {
    Change(KeyOf(d), m(d))
  }

  /** One key has the event of the change, or the one it had; nothing else changes. */
  predicate Changed(before: Table, after: Table, c: Change) {
    if c.event.None? then after == before
    else
      && after.Keys == before.Keys + {c.key}
      && (forall x :: x in before && x != c.key ==> after[x] == before[x])
      && (after[c.key].event == c.event.value || (c.key in before && after[c.key].event == before[c.key].event))
  }

  lemma PersistedRow(m: Mapping, db: Db, d: Document, id: ObsId, now: int)
    ensures Changed(db.events, Entered(db, EntryOf(m, d), id, now, false).events, ChangeOf(m, d))
  {
    PersistedChange(db, DiaryRow(d), KeyOf(d), m(d), id, now);
  }

  lemma PersistedChange(db: Db, p: Payload, k: EventKey, e: Option<NewEvent>, id: ObsId, now: int)
    ensures var ds := if e.None? then None else Some([Derivation(k, e.value)]);
            Changed(db.events, Entered(db, Entry(p, ds), id, now, false).events, Change(k, e))
  {
    if e.Some? {
      PersistedAs(db, p, Derivation(k, e.value), id, now);
    }
  }

  predicate Evolves(tables: seq<Table>, cs: seq<Change>) {
    && |tables| == |cs| + 1 && tables[0] == map[]
    && forall i :: 0 <= i < |cs| ==> Changed(tables[i], tables[i + 1], cs[i])
  }

  lemma {:induction false} ChangedKeysArePresent(tables: seq<Table>, cs: seq<Change>, i: nat, n: nat)
    requires Evolves(tables, cs) && i < n <= |cs| && cs[i].event.Some?
    ensures cs[i].key in tables[n]
    decreases n
  {
    assert Changed(tables[n - 1], tables[n], cs[n - 1]);
    if i < n - 1 {
      ChangedKeysArePresent(tables, cs, i, n - 1);
    }
  }

  lemma {:induction false} OnlyChangedKeys(tables: seq<Table>, cs: seq<Change>, n: nat, k: EventKey)
    requires Evolves(tables, cs) && n <= |cs|
    ensures k in tables[n] ==> exists i :: 0 <= i < n && cs[i].event.Some? && cs[i].key == k
    decreases n
  {
    if n > 0 {
      assert Changed(tables[n - 1], tables[n], cs[n - 1]);
      OnlyChangedKeys(tables, cs, n - 1, k);
    }
  }

  /** If every change of a key is to the same event, that is the event of its row. */
  lemma {:induction false} AgreedEvent(tables: seq<Table>, cs: seq<Change>, n: nat, k: EventKey, e: NewEvent)
    requires Evolves(tables, cs) && n <= |cs|
    requires forall i :: 0 <= i < n && cs[i].key == k && cs[i].event.Some? ==> cs[i].event.value == e
    ensures k in tables[n] ==> tables[n][k].event == e
    decreases n
  {
    if n > 0 {
      assert Changed(tables[n - 1], tables[n], cs[n - 1]);
      AgreedEvent(tables, cs, n - 1, k, e);
    }
  }

  predicate HasEvent(table: Table, c: Change) {
    c.event.Some? ==> c.key in table && table[c.key].event == c.event.value
  }

  lemma OnlyChangeOfItsKey(tables: seq<Table>, cs: seq<Change>, c: Change)
    requires Evolves(tables, cs) && c in cs
    requires forall x :: x in cs && x.key == c.key ==> x == c
    ensures HasEvent(tables[|cs|], c)
  {
    if c.event.Some? {
      var i :| 0 <= i < |cs| && cs[i] == c;
      ChangedKeysArePresent(tables, cs, i, |cs|);
      AgreedEvent(tables, cs, |cs|, c.key, c.event.value);
    }
  }

  function Tables(m: Mapping, docs: seq<Document>, id: ObsId, now: int): (r: seq<Table>)
    ensures |r| == |docs| + 1
  {
    seq(|docs| + 1, i requires 0 <= i <= |docs| => Stored(m, EMPTY, docs[..i], id, now).events)
  }

  function Changes(m: Mapping, docs: seq<Document>): (r: seq<Change>)
    ensures |r| == |docs|
  {
    seq(|docs|, i requires 0 <= i < |docs| => ChangeOf(m, docs[i]))
  }

  lemma StoredNext(m: Mapping, docs: seq<Document>, id: ObsId, now: int, i: nat)
    requires i < |docs|
    ensures Changed(Stored(m, EMPTY, docs[..i], id, now).events, Stored(m, EMPTY, docs[..i + 1], id, now).events,
                    ChangeOf(m, docs[i]))
  {
    assert docs[..i + 1][..i] == docs[..i];
    PersistedRow(m, Stored(m, EMPTY, docs[..i], id, now), docs[i], id + i, now + i);
  }

  lemma StoredEvolves(m: Mapping, docs: seq<Document>, id: ObsId, now: int)
    ensures Evolves(Tables(m, docs, id, now), Changes(m, docs))
    ensures Tables(m, docs, id, now)[|docs|] == Stored(m, EMPTY, docs, id, now).events
  {
    assert docs[..|docs|] == docs;
    forall i | 0 <= i < |docs|
      ensures Changed(Tables(m, docs, id, now)[i], Tables(m, docs, id, now)[i + 1], Changes(m, docs)[i])
    {
      StoredNext(m, docs, id, now, i);
    }
  }

  // ----- any windows, in any order -----

  function Selected(search: Search, feed: Feed, w: DateRange, limit: nat): Selection {
    Select(search, feed, Window(search, WindowQuery(feed, w), 1, limit, 0).documents)
  }

  /** The run read its whole window, every row of it, and every chronology it needed. */
  ghost predicate CompleteRun(search: Search, feed: Feed, diary: set<Document>, w: DateRange, limit: nat) {
    && !Selected(search, feed, w, limit).aborted
    && exists rows, total :: WholeListing(search, feed, diary, w, limit, rows, total)
  }

  ghost predicate WholeListing(search: Search, feed: Feed, diary: set<Document>, w: DateRange, limit: nat,
                               rows: seq<Row>, total: nat) {
    Listing(search, WindowQuery(feed, w), diary, rows, total) && AllParsed(rows) && |rows| <= 10 * limit
  }

  lemma CompleteRunChooses(search: Search, feed: Feed, diary: set<Document>, w: DateRange, limit: nat, d: Document)
    requires FixedSource(search, feed, diary) && CompleteRun(search, feed, diary, w, limit)
    ensures d in Selected(search, feed, w, limit).chosen <==> InRange(w, d) && Wanted(feed, diary, d)
  {
    var q := WindowQuery(feed, w);
    var rows, total :| WholeListing(search, feed, diary, w, limit, rows, total);
    WindowReadsTheListing(search, q, rows, total, limit);
    ParsedRowsExact(rows, d);
    SelectExact(search, feed, ParsedRows(rows), d);
    if d in ParsedRows(rows) {
      EmitsTheEarliest(search, feed, diary, d);
    }
  }

  /** What a sequence of runs persists, in order. */
  function ChosenBy(search: Search, feed: Feed, ws: seq<DateRange>, limit: nat): seq<Document> {
    if ws == [] then [] else
      ChosenBy(search, feed, ws[..|ws| - 1], limit) + Selected(search, feed, ws[|ws| - 1], limit).chosen
  }

  ghost predicate AllComplete(search: Search, feed: Feed, diary: set<Document>, ws: seq<DateRange>, limit: nat) {
    FixedSource(search, feed, diary) && forall i :: 0 <= i < |ws| ==> CompleteRun(search, feed, diary, ws[i], limit)
  }

  predicate InSome(ws: seq<DateRange>, d: Document) {
    exists i :: 0 <= i < |ws| && InRange(ws[i], d)
  }

  lemma {:induction false} RunsChoose(search: Search, feed: Feed, diary: set<Document>, ws: seq<DateRange>, limit: nat,
                                      d: Document)
    requires AllComplete(search, feed, diary, ws, limit)
    ensures d in ChosenBy(search, feed, ws, limit) <==> InSome(ws, d) && Wanted(feed, diary, d)
    decreases |ws|
  {
    if ws != [] {
      var n := |ws| - 1;
      RunsChoose(search, feed, diary, ws[..n], limit, d);
      CompleteRunChooses(search, feed, diary, ws[n], limit, d);
      InConcat(ChosenBy(search, feed, ws[..n], limit), Selected(search, feed, ws[n], limit).chosen, d);
      InSomeSnoc(ws, d);
    }
  }

  lemma InConcat(a: seq<Document>, b: seq<Document>, d: Document)
    ensures d in a + b <==> d in a || d in b
  {
  }

  lemma InSomeSnoc(ws: seq<DateRange>, d: Document)
    requires ws != []
    ensures InSome(ws, d) <==> InSome(ws[..|ws| - 1], d) || InRange(ws[|ws| - 1], d)
  {
    if InSome(ws, d) && !InRange(ws[|ws| - 1], d) {
      var i :| 0 <= i < |ws| && InRange(ws[i], d);
      assert InRange(ws[..|ws| - 1][i], d);
    }
  }

  /** The event table after a sequence of runs. */
  function EventsOf(search: Search, feed: Feed, ws: seq<DateRange>, limit: nat, id: ObsId, now: int): Table {
    Stored(EventsFor(feed), EMPTY, ChosenBy(search, feed, ws, limit), id, now).events
  }

  /** A document that complete runs have to make an event of. */
  ghost predicate Due(feed: Feed, diary: set<Document>, ws: seq<DateRange>, d: Document) {
    match EventsFor(feed)(d)
    case Some(_) => InSome(ws, d) && Wanted(feed, diary, d)
    case None => false
  }

  /** Complete runs over any windows, overlapping or not, in any order, leave exactly
      the events of the accepted documents that are first in their whole case. */
  lemma RunsEmitTheEarliest(search: Search, feed: Feed, diary: set<Document>, ws: seq<DateRange>, limit: nat,
                            id: ObsId, now: int)
    requires AllComplete(search, feed, diary, ws, limit)
    ensures var events := EventsOf(search, feed, ws, limit, id, now);
            && (forall k :: k in events ==> exists d :: Due(feed, diary, ws, d) && k == KeyOf(d))
            && (forall d :: Due(feed, diary, ws, d) ==>
                  KeyOf(d) in events && events[KeyOf(d)].event == EventsFor(feed)(d).value)
  {
    var docs := ChosenBy(search, feed, ws, limit);
    var events := EventsOf(search, feed, ws, limit, id, now);
    var tables, cs := Tables(EventsFor(feed), docs, id, now), Changes(EventsFor(feed), docs);
    StoredEvolves(EventsFor(feed), docs, id, now);
    forall k | k in events ensures exists d :: Due(feed, diary, ws, d) && k == KeyOf(d) {
      OnlyChangedKeys(tables, cs, |docs|, k);
      var i :| 0 <= i < |docs| && cs[i].event.Some? && cs[i].key == k;
      RunsChoose(search, feed, diary, ws, limit, docs[i]);
      assert Due(feed, diary, ws, docs[i]);
    }
    forall d | Due(feed, diary, ws, d)
      ensures KeyOf(d) in events && events[KeyOf(d)].event == EventsFor(feed)(d).value
    {
      DueHasEvent(search, feed, diary, ws, limit, id, now, d);
      assert ChangeOf(EventsFor(feed), d).event.Some?;
    }
  }

  lemma DueHasEvent(search: Search, feed: Feed, diary: set<Document>, ws: seq<DateRange>, limit: nat, id: ObsId,
                    now: int, d: Document)
    requires AllComplete(search, feed, diary, ws, limit) && Due(feed, diary, ws, d)
    ensures HasEvent(EventsOf(search, feed, ws, limit, id, now), ChangeOf(EventsFor(feed), d))
  {
    var docs := ChosenBy(search, feed, ws, limit);
    RunsChoose(search, feed, diary, ws, limit, d);
    forall x | x in docs && x.documentNumber == d.documentNumber ensures x == d {
      RunsChoose(search, feed, diary, ws, limit, x);
    }
    StoredEvolves(EventsFor(feed), docs, id, now);
    ChangesOf(EventsFor(feed), docs, d);
    OnlyChangeOfItsKey(Tables(EventsFor(feed), docs, id, now), Changes(EventsFor(feed), docs),
                       ChangeOf(EventsFor(feed), d));
  }

  lemma ChangesOf(m: Mapping, docs: seq<Document>, d: Document)
    requires d in docs && forall x :: x in docs && x.documentNumber == d.documentNumber ==> x == d
    ensures ChangeOf(m, d) in Changes(m, docs)
    ensures forall c :: c in Changes(m, docs) && c.key == ChangeOf(m, d).key ==> c == ChangeOf(m, d)
  {
    var i :| 0 <= i < |docs| && docs[i] == d;
    assert Changes(m, docs)[i] == ChangeOf(m, d);
  }

  predicate SameContent(a: Table, b: Table) {
    a.Keys == b.Keys && forall k :: k in a && k in b ==> a[k].event == b[k].event
  }

  /** So two sequences of runs over the same dates leave the same events, whatever the
      windows, their order and their overlaps. */
  lemma RunsAreConfluent(search: Search, feed: Feed, diary: set<Document>, ws: seq<DateRange>, vs: seq<DateRange>,
                         limit: nat, id: ObsId, now: int, id': ObsId, now': int)
    requires AllComplete(search, feed, diary, ws, limit) && AllComplete(search, feed, diary, vs, limit)
    requires forall d :: d in diary ==> (InSome(ws, d) <==> InSome(vs, d))
    ensures SameContent(EventsOf(search, feed, ws, limit, id, now), EventsOf(search, feed, vs, limit, id', now'))
  {
    RunsEmitTheEarliest(search, feed, diary, ws, limit, id, now);
    RunsEmitTheEarliest(search, feed, diary, vs, limit, id', now');
    SameTables(feed, diary, ws, vs, EventsOf(search, feed, ws, limit, id, now),
               EventsOf(search, feed, vs, limit, id', now'));
  }

  /** The table holds exactly the events due over these windows. */
  ghost predicate HoldsDue(feed: Feed, diary: set<Document>, ws: seq<DateRange>, events: Table) {
    && (forall k :: k in events ==> exists d :: Due(feed, diary, ws, d) && k == KeyOf(d))
    && (forall d :: Due(feed, diary, ws, d) ==>
          KeyOf(d) in events && events[KeyOf(d)].event == EventsFor(feed)(d).value)
  }

  lemma SameTables(feed: Feed, diary: set<Document>, ws: seq<DateRange>, vs: seq<DateRange>, a: Table, b: Table)
    requires HoldsDue(feed, diary, ws, a) && HoldsDue(feed, diary, vs, b)
    requires forall d :: d in diary ==> (InSome(ws, d) <==> InSome(vs, d))
    ensures SameContent(a, b)
  {
    forall k ensures k in a <==> k in b {
      SameKey(feed, diary, ws, vs, a, b, k);
      SameKey(feed, diary, vs, ws, b, a, k);
    }
    forall k | k in a && k in b ensures a[k].event == b[k].event {
      SameEvent(feed, diary, ws, vs, a, b, k);
    }
  }

  lemma SameDates(feed: Feed, diary: set<Document>, ws: seq<DateRange>, vs: seq<DateRange>, d: Document)
    requires forall x :: x in diary ==> (InSome(ws, x) <==> InSome(vs, x))
    ensures Due(feed, diary, ws, d) <==> Due(feed, diary, vs, d)
  {
  }

  lemma SameEvent(feed: Feed, diary: set<Document>, ws: seq<DateRange>, vs: seq<DateRange>, a: Table, b: Table,
                  k: EventKey)
    requires HoldsDue(feed, diary, ws, a) && HoldsDue(feed, diary, vs, b) && k in a && k in b
    requires forall d :: d in diary ==> (InSome(ws, d) <==> InSome(vs, d))
    ensures a[k].event == b[k].event
  {
    var d :| Due(feed, diary, ws, d) && k == KeyOf(d);
    SameDates(feed, diary, ws, vs, d);
  }

  lemma SameKey(feed: Feed, diary: set<Document>, ws: seq<DateRange>, vs: seq<DateRange>, a: Table, b: Table,
                k: EventKey)
    requires HoldsDue(feed, diary, ws, a) && HoldsDue(feed, diary, vs, b)
    requires forall x :: x in diary ==> (InSome(ws, x) <==> InSome(vs, x))
    ensures k in a ==> k in b
  {
    if k in a {
      var d :| Due(feed, diary, ws, d) && k == KeyOf(d);
      SameDates(feed, diary, ws, vs, d);
    }
  }
}
