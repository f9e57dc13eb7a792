/** What the statistics of the diary ingester count when documents are persisted
    (persist and RunFeed in internal/source/arbetsmiljoverket/ingest.go). */
module DiaryCounts {
  import opened Wrappers
  import opened PublicEvent
  import opened Arbetsmiljoverket
  import opened EventStore
  import opened EventRepository
  import Cases = OneEventPerCase

  /** A value dropped by the mapping, a new observed state, an upsert by its outcome. A
      counter is how often it was counted. */
  datatype Counter = Dropped(note: Note) | NewState | Stored(outcome: UpsertOutcome)

  type Counts = multiset<Counter>

  /** What the mapping of a document drops is counted before its transaction. */
  function NotesOf(d: Document): Counts {
    multiset(set n | n in Notes(d) :: Dropped(n))
  }

  /** Is the document recorded as a new state, if only until its transaction fails? */
  predicate Records(db: Db, d: Document) {
    d.documentNumber != "" && DiaryRow(d) !in db.observations
  }

  /** What persisting a document counts, whether or not it is undone in the end. */
  function DocumentCounts(m: Cases.Mapping, db: Db, d: Document, freshId: ObsId): Counts {
    NotesOf(d)
    + (if Records(db, d) then multiset{NewState} else multiset{})
    + (if m(d).None? then multiset{}
       else multiset{Stored(OutcomeOf(db.events, Cases.KeyOf(d), IdOf(db.observations, DiaryRow(d), freshId)))})
  }

  /** What persisting counts, in general. */
  type Counting = (Db, Document, ObsId) -> Counts

  function CountingFor(m: Cases.Mapping): Counting {
    (db: Db, d: Document, id: ObsId) => DocumentCounts(m, db, d, id)
  }

  /** What persisting documents one after another counts. */
  function CountsOf(count: Counting, m: Cases.Mapping, db: Db, docs: seq<Document>, id: ObsId, now: int): Counts {
    if docs == [] then multiset{} else
      var n := |docs| - 1;
      CountsOf(count, m, db, docs[..n], id, now) + count(Cases.Stored(m, db, docs[..n], id, now), docs[n], id + n)
  }

  lemma {:induction false} CountsSnoc(count: Counting, m: Cases.Mapping, db: Db, docs: seq<Document>, d: Document,
                                      id: ObsId, now: int)
    ensures CountsOf(count, m, db, docs + [d], id, now) ==
            CountsOf(count, m, db, docs, id, now) + count(Cases.Stored(m, db, docs, id, now), d, id + |docs|)
  {
    assert (docs + [d])[..|docs|] == docs;
  }

  /** How many of the documents cannot be persisted. */
  function Failures(m: Cases.Mapping, docs: seq<Document>): nat {
    if docs == [] then 0 else
      Failures(m, docs[..|docs| - 1]) + if m(docs[|docs| - 1]).None? then 1 else 0
  }

  lemma {:induction false} FailuresExact(m: Cases.Mapping, docs: seq<Document>)
    ensures Failures(m, docs) > 0 <==> exists d :: d in docs && m(d).None?
    decreases |docs|
  {
    if docs != [] {
      var front, last := docs[..|docs| - 1], docs[|docs| - 1];
      FailuresExact(m, front);
      assert docs == front + [last];
    }
  }

  lemma FailuresSnoc(m: Cases.Mapping, docs: seq<Document>, d: Document)
    ensures Failures(m, docs + [d]) == Failures(m, docs) + if m(d).None? then 1 else 0
  {
    assert (docs + [d])[..|docs|] == docs;
  }

  /** How many new states were recorded by a transaction that failed afterwards. */
  function RolledBack(m: Cases.Mapping, db: Db, docs: seq<Document>, id: ObsId, now: int): nat {
    if docs == [] then 0 else
      var n := |docs| - 1;
      RolledBack(m, db, docs[..n], id, now)
      + if m(docs[n]).None? && Records(Cases.Stored(m, db, docs[..n], id, now), docs[n]) then 1 else 0
  }

  /** The tables before and after, how many documents were persisted in between, and
      how many new states were rolled back. */
  datatype Growth = Growth(before: Db, after: Db, persisted: int, rolledBack: int)

  function GrowthOf(m: Cases.Mapping, db: Db, docs: seq<Document>, id: ObsId, now: int): Growth {
    Growth(db, Cases.Stored(m, db, docs, id, now), |docs| - Failures(m, docs), RolledBack(m, db, docs, id, now))
  }

  function DocumentGrowth(m: Cases.Mapping, db: Db, d: Document, id: ObsId, now: int): Growth {
    Growth(db, Entered(db, Cases.EntryOf(m, d), id, now, false), if m(d).None? then 0 else 1,
           if m(d).None? && Records(db, d) then 1 else 0)
  }

  function Together(g: Growth, h: Growth): Growth {
    Growth(g.before, h.after, g.persisted + h.persisted, g.rolledBack + h.rolledBack)
  }

  lemma GrowthStep(m: Cases.Mapping, db: Db, docs: seq<Document>, id: ObsId, now: int)
    requires docs != []
    ensures var n := |docs| - 1;
            var front := GrowthOf(m, db, docs[..n], id, now);
            GrowthOf(m, db, docs, id, now) ==
            Together(front, DocumentGrowth(m, front.after, docs[n], id + n, now + n))
  {
  }

  /** The counters of upserts and of new states, against the tables. */
  ghost predicate Shows(c: Counts, g: Growth) {
    match g
    case Growth(before, after, persisted, rolledBack) =>
      && |after.events| == |before.events| + c[Stored(Inserted)]
      && |after.observations| + rolledBack == |before.observations| + c[NewState]
      && persisted == c[Stored(Inserted)] + c[Stored(Updated)] + c[Stored(Unchanged)]
  }

  lemma ShowTogether(c: Counts, d: Counts, g: Growth, h: Growth)
    requires Shows(c, g) && Shows(d, h) && g.after == h.before
    ensures Shows(c + d, Together(g, h))
  {
  }

  /** Each single document shows. */
  ghost predicate AllShow(count: Counting, m: Cases.Mapping) {
    forall db, d, id, now :: Shows(count(db, d, id), DocumentGrowth(m, db, d, id, now))
  }

  lemma {:induction false} CountsAddUp(count: Counting, m: Cases.Mapping, db: Db, docs: seq<Document>, id: ObsId,
                                       now: int)
    requires AllShow(count, m)
    ensures Shows(CountsOf(count, m, db, docs, id, now), GrowthOf(m, db, docs, id, now))
    decreases |docs|
  {
    if docs != [] {
      var n := |docs| - 1;
      CountsAddUp(count, m, db, docs[..n], id, now);
      GrowthStep(m, db, docs, id, now);
      var g := GrowthOf(m, db, docs[..n], id, now);
      ShowTogether(CountsOf(count, m, db, docs[..n], id, now), count(g.after, docs[n], id + n),
                   g, DocumentGrowth(m, g.after, docs[n], id + n, now + n));
    }
  }

  predicate OnlyDropped(c: Counts) {
    c[NewState] == 0 && c[Stored(Inserted)] == 0 && c[Stored(Updated)] == 0 && c[Stored(Unchanged)] == 0
  }

  lemma NotesAreDropped(d: Document)
    ensures OnlyDropped(NotesOf(d))
  {
    var dropped := set n | n in Notes(d) :: Dropped(n);
    assert NewState !in dropped;
    assert Stored(Inserted) !in dropped && Stored(Updated) !in dropped && Stored(Unchanged) !in dropped;
  }

  lemma DocumentCounted(m: Cases.Mapping, db: Db, d: Document, id: ObsId)
    ensures var c := DocumentCounts(m, db, d, id);
            && c[NewState] == (if Records(db, d) then 1 else 0)
            && c[Stored(Inserted)] + c[Stored(Updated)] + c[Stored(Unchanged)] == (if m(d).None? then 0 else 1)
            && c[Stored(Inserted)] == (if m(d).None? || Cases.KeyOf(d) in db.events then 0 else 1)
  {
    NotesAreDropped(d);
  }

  lemma DocumentAddsUp(m: Cases.Mapping, db: Db, d: Document, id: ObsId, now: int)
    requires d.documentNumber == "" ==> m(d).None?
    ensures Shows(DocumentCounts(m, db, d, id), DocumentGrowth(m, db, d, id, now))
  {
    DocumentCounted(m, db, d, id);
    EntryGrows(m, db, d, id, now);
  }

  lemma EntryGrows(m: Cases.Mapping, db: Db, d: Document, id: ObsId, now: int)
    ensures var after := Entered(db, Cases.EntryOf(m, d), id, now, false);
            && |after.events| == |db.events| + (if m(d).None? || Cases.KeyOf(d) in db.events then 0 else 1)
            && |after.observations| ==
               |db.observations| + if m(d).None? || DiaryRow(d) in db.observations then 0 else 1
  {
    if m(d).Some? {
      var p, x := DiaryRow(d), Derivation(Cases.KeyOf(d), m(d).value);
      Cases.PersistedAs(db, p, x, id, now);
      SizeOfUpdate(db.events, x, IdOf(db.observations, p, id), now);
      SizeOfRecorded(db.observations, p, id, now);
    }
  }

  /** How many of the documents have this value dropped. */
  function Noted(docs: seq<Document>, n: Note): nat {
    if docs == [] then 0 else Noted(docs[..|docs| - 1], n) + if n in Notes(docs[|docs| - 1]) then 1 else 0
  }

  /** Each warning is counted once for each document that it is about, persisted or not. */
  lemma {:induction false} NotesCounted(m: Cases.Mapping, db: Db, docs: seq<Document>, id: ObsId, now: int, n: Note)
    ensures CountsOf(CountingFor(m), m, db, docs, id, now)[Dropped(n)] == Noted(docs, n)
    decreases |docs|
  {
    if docs != [] {
      var k := |docs| - 1;
      NotesCounted(m, db, docs[..k], id, now, n);
      DocumentNoted(m, Cases.Stored(m, db, docs[..k], id, now), docs[k], id + k, n);
    }
  }

  lemma DocumentNoted(m: Cases.Mapping, db: Db, d: Document, id: ObsId, n: Note)
    ensures DocumentCounts(m, db, d, id)[Dropped(n)] == if n in Notes(d) then 1 else 0
  {
    var dropped := set x | x in Notes(d) :: Dropped(x);
    assert Dropped(n) in dropped <==> n in Notes(d);
    assert NotesOf(d)[Dropped(n)] == if n in Notes(d) then 1 else 0;
  }

  // ----- when a counter is wrong -----

  /** Is the document recorded by a transaction that fails afterwards? */
  predicate Lost(m: Cases.Mapping, db: Db, d: Document) {
    m(d).None? && Records(db, d)
  }

  lemma {:induction false} FailingIsNotStored(m: Cases.Mapping, db: Db, docs: seq<Document>, d: Document, id: ObsId,
                                              now: int)
    requires m(d).None?
    ensures Records(Cases.Stored(m, db, docs, id, now), d) <==> Records(db, d)
    decreases |docs|
  {
    if docs != [] {
      FailingIsNotStored(m, db, docs[..|docs| - 1], d, id, now);
    }
  }

  lemma {:induction false} RolledBackIff(m: Cases.Mapping, db: Db, docs: seq<Document>, id: ObsId, now: int)
    ensures RolledBack(m, db, docs, id, now) == 0 <==> forall d :: d in docs ==> !Lost(m, db, d)
    decreases |docs|
  {
    if docs != [] {
      var front, last := docs[..|docs| - 1], docs[|docs| - 1];
      RolledBackIff(m, db, front, id, now);
      if m(last).None? {
        FailingIsNotStored(m, db, front, last, id, now);
      }
      forall d ensures d in docs <==> d in front || d == last {
        assert docs == front + [last];
      }
      assert RolledBack(m, db, docs, id, now) == RolledBack(m, db, front, id, now) + if Lost(m, db, last) then 1 else 0;
      assert last in docs;
    }
  }

  /** What is lost by a feed that is configured: a numbered document of the zero date
      that was not observed before. */
  lemma LostIff(feed: Feed, m: Cases.Mapping, db: Db, d: Document)
    requires Cases.Fits(feed, m) && feed.FullyConfigured()
    ensures Lost(m, db, d) <==> d.documentDate == ZERO_DATE && Records(db, d)
  {
    assert m(d) == Cases.DiaryEvent(feed, d);
  }

  /** For every feed, from any tables: every persisted document has one outcome, the
      events grow by those counted as inserted, and the observations by the new states
      counted exactly if no document is lost. */
  lemma FeedCountsAddUp(feed: Feed, m: Cases.Mapping, db: Db, docs: seq<Document>, id: ObsId, now: int)
    requires Cases.Fits(feed, m)
    ensures var c, after := CountsOf(CountingFor(m), m, db, docs, id, now), Cases.Stored(m, db, docs, id, now);
            && |after.events| == |db.events| + c[Stored(Inserted)]
            && |docs| == c[Stored(Inserted)] + c[Stored(Updated)] + c[Stored(Unchanged)] + Failures(m, docs)
            && (|after.observations| == |db.observations| + c[NewState]
                <==> forall d :: d in docs ==> !Lost(m, db, d))
  {
    forall db: Db, d, id, now ensures Shows(CountingFor(m)(db, d, id), DocumentGrowth(m, db, d, id, now)) {
      assert m(d) == Cases.DiaryEvent(feed, d);
      DocumentAddsUp(m, db, d, id, now);
    }
    CountsAddUp(CountingFor(m), m, db, docs, id, now);
    RolledBackIff(m, db, docs, id, now);
  }
}
