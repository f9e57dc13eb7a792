/** The diary ingester: one document per transaction, page by page
    (RunFeed, earliestInCase and persist in internal/source/arbetsmiljoverket/ingest.go). */
module DiaryIngest {
  import opened Wrappers
  import opened PublicEvent
  import opened Arbetsmiljoverket
  import opened DiarySearch
  import opened EventStore
  import opened EventRepository
  import opened DiaryCounts
  import Cases = OneEventPerCase

  /** Pages and rows that could not be parsed, and what became of the other rows. */
  datatype Stats = Stats(pages: nat, parseFailures: nat, rows: RowStats)

  /** How many rows there were of each kind, and what persisting the accepted ones
      counted. */
  datatype RowStats = RowStats(observed: nat, accepted: nat, skipped: nat, laterInCase: nat, otherTypes: nat,
                               persistFailures: nat, counts: Counts)

  datatype FeedError = NotConfigured | InvalidWindow | FetchFailed | ChronologyIncomplete | PersistFailures

  /** The documents a run has read so far, what was selected of them, and the tables
      now, `start` being the tables and counters when the run began. */
  datatype Progress = Progress(start: Start, read: seq<Document>, selection: Cases.Selection, db: Db)
  {
    function Id(): ObsId { start.id + |selection.chosen| }
    function Now(): int { start.now + |selection.chosen| }
  }

  datatype Start = Start(db: Db, id: ObsId, now: int)

  predicate Stores(m: Cases.Mapping, p: Progress) {
    p.db == Cases.Stored(m, p.start.db, p.selection.chosen, p.start.id, p.start.now)
  }

  predicate Sound(search: Search, feed: Feed, m: Cases.Mapping, p: Progress) {
    match p
    case Progress(_, read, selection, _) => selection == Cases.Select(search, feed, read) && Stores(m, p)
  }

  /** The counters say how often each verdict was given. */
  predicate CountsRows(s: RowStats, judged: Cases.Tally) {
    && s.otherTypes == judged.otherTypes && s.skipped == judged.notAccepted
    && s.laterInCase == judged.laterInCase && s.accepted == judged.accepted
    && s.observed == s.otherTypes + s.skipped + s.laterInCase + judged.unestablished + s.accepted
  }

  /** And what persisting the documents chosen so far counted. */
  predicate Tallied(m: Cases.Mapping, s: RowStats, p: Progress) {
    match p
    case Progress(start, _, selection, _) => TalliedBy(CountingFor(m), m, s, start, selection)
  }

  predicate TalliedBy(count: Counting, m: Cases.Mapping, s: RowStats, start: Start, selection: Cases.Selection) {
    match selection
    case Selection(chosen, judged, _) =>
      && CountsRows(s, judged) && s.persistFailures == Failures(m, chosen)
      && s.counts == CountsOf(count, m, start.db, chosen, start.id, start.now)
  }

  function Begin(start: Start): Progress {
    Progress(start, [], Cases.NOTHING, start.db)
  }

  lemma BeginIsSound(search: Search, feed: Feed, m: Cases.Mapping, start: Start)
    ensures Sound(search, feed, m, Begin(start))
  {
  }

  /** One more document, and the tables after it. */
  function Next(p: Progress, d: Document, v: Cases.Verdict, db: Db): Progress {
    Progress(p.start, p.read + [d], Cases.Judged(p.selection, d, v), db)
  }

  lemma NextIsSound(search: Search, feed: Feed, m: Cases.Mapping, p: Progress, d: Document, v: Cases.Verdict, db: Db)
    requires Sound(search, feed, m, p) && !p.selection.aborted && v == Cases.VerdictOn(search, feed, d)
    requires Advances(m, p, d, v, db)
    ensures Sound(search, feed, m, Next(p, d, v, db))
  {
    SelectNext(search, feed, p.read, d);
    StoreNext(m, p, d, v, db);
  }

  /** The tables after one more document. */
  predicate Advances(m: Cases.Mapping, p: Progress, d: Document, v: Cases.Verdict, db: Db) {
    db == if v == Cases.Accepted then Entered(p.db, Cases.EntryOf(m, d), p.Id(), p.Now(), false) else p.db
  }

  lemma StoreNext(m: Cases.Mapping, p: Progress, d: Document, v: Cases.Verdict, db: Db)
    requires Stores(m, p) && Advances(m, p, d, v, db)
    ensures Stores(m, Next(p, d, v, db))
  {
    if v == Cases.Accepted {
      Cases.StoredSnoc(m, p.start.db, p.selection.chosen, d, p.start.id, p.start.now);
    }
  }

  lemma SelectNext(search: Search, feed: Feed, docs: seq<Document>, d: Document)
    requires !Cases.Select(search, feed, docs).aborted
    ensures Cases.Select(search, feed, docs + [d]) ==
            Cases.Judged(Cases.Select(search, feed, docs), d, Cases.VerdictOn(search, feed, d))
  {
    assert (docs + [d])[..|docs|] == docs;
    var vs := Cases.Verdicts(search, feed, docs);
    assert (vs + [Cases.VerdictOn(search, feed, d)])[..|docs|] == vs;
  }

  /** Where the next document leaves the run. */
  lemma NextIsAt(p: Progress, d: Document, v: Cases.Verdict, db: Db)
    ensures var p', stored := Next(p, d, v, db), if v == Cases.Accepted then 1 else 0;
            && p'.start == p.start && p'.read == p.read + [d] && p'.db == db
            && p'.Id() == p.Id() + stored && p'.Now() == p.Now() + stored
            && p'.selection == Cases.Judged(p.selection, d, v)
            && (p'.selection.aborted <==> v == Cases.Unestablished)
  {
  }

  lemma NextIsTallied(count: Counting, m: Cases.Mapping, before: RowStats, after: RowStats, p: Progress, d: Document,
                      v: Cases.Verdict, ok: bool)
    requires TalliedBy(count, m, before, p.start, p.selection) && Stores(m, p)
    requires CountsRows(after, Cases.Counted(p.selection.judged, v)) && ok == (v == Cases.Accepted ==> m(d).Some?)
    requires after.persistFailures == before.persistFailures + if ok then 0 else 1
    requires after.counts == before.counts + if v == Cases.Accepted then count(p.db, d, p.Id()) else multiset{}
    ensures TalliedBy(count, m, after, p.start, Cases.Judged(p.selection, d, v))
  {
    FailuresSnoc(m, p.selection.chosen, d);
    CountsSnoc(count, m, p.start.db, p.selection.chosen, d, p.start.id, p.start.now);
  }

  /** Once a chronology failed, the documents after it do not matter. */
  lemma AbortStays(search: Search, feed: Feed, m: Cases.Mapping, p: Progress, more: seq<Document>)
    requires Sound(search, feed, m, p) && p.selection.aborted
    ensures Sound(search, feed, m, p.(read := p.read + more))
  {
    var vs, ws := Cases.Verdicts(search, feed, p.read), Cases.Verdicts(search, feed, more);
    Cases.JudgedByConcat(Cases.JudgeOf(search, feed), p.read, more);
    SelectAbortStays(p.read, vs, more, ws);
  }

  lemma {:induction false} SelectAbortStays(docs: seq<Document>, vs: seq<Cases.Verdict>, more: seq<Document>,
                                            ws: seq<Cases.Verdict>)
    requires |docs| == |vs| && |more| == |ws| && Cases.SelectBy(docs, vs).aborted
    ensures Cases.SelectBy(docs + more, vs + ws) == Cases.SelectBy(docs, vs)
    decreases |more|
  {
    if more == [] {
      assert docs + more == docs && vs + ws == vs;
    } else {
      var n := |more| - 1;
      SelectAbortStays(docs, vs, more[..n], ws[..n]);
      assert (docs + more)[..|docs| + n] == docs + more[..n];
      assert (vs + ws)[..|docs| + n] == vs + ws[..n];
    }
  }

  lemma EarliestSnoc(feed: Feed, d: Document, docs: seq<Document>, other: Document)
    ensures var front := Cases.EarliestOf(feed, d, docs);
            Cases.EarliestOf(feed, d, docs + [other]) ==
            if Cases.SameCase(feed, other, d) && DocumentBefore(other, front) then other else front
  {
    assert (docs + [other])[..|docs|] == docs;
  }

  lemma Assoc(a: seq<Document>, b: seq<Document>, c: seq<Document>)
    ensures a + b + c == a + (b + c)
  {
  }

  lemma PrefixStep(a: seq<Document>, b: seq<Document>, i: nat)
    requires i < |b|
    ensures a + b[..i] + [b[i]] == a + b[..i + 1]
    ensures a + b[..i + 1] + b[i + 1..] == a + b
  {
  }

  const DONE := Harvest([], 0, 0, true)

  /** Does the window loop end with this page? */
  predicate EndsWith(page: SearchPage, seen: nat) {
    || (page.documents == [] && page.rowErrors == 0)
    || (page.total > 0 && seen + |page.documents| + page.rowErrors >= page.total)
  }

  /** What the window loop reads after page k. */
  function AfterPage(search: Search, q: Query, k: nat, limit: nat, seen: nat): Harvest
    requires search(q, k).Some?
  {
    var page := search(q, k).value;
    if EndsWith(page, seen) then DONE
    else Window(search, q, k + 1, limit, seen + |page.documents| + page.rowErrors)
  }

  lemma WindowIsPageAndRest(search: Search, q: Query, k: nat, limit: nat, seen: nat)
    requires k <= limit && search(q, k).Some?
    ensures var page, rest := search(q, k).value, AfterPage(search, q, k, limit, seen);
            Window(search, q, k, limit, seen)
            == Harvest(page.documents + rest.documents, page.rowErrors + rest.rowErrors, rest.pages + 1, rest.fetched)
  {
    assert search(q, k).value.documents + [] == search(q, k).value.documents;
  }

  lemma MoreAfterPage(search: Search, q: Query, k: nat, limit: nat, seen: nat, seen': nat)
    requires search(q, k).Some? && !EndsWith(search(q, k).value, seen)
    requires seen' == seen + |search(q, k).value.documents| + search(q, k).value.rowErrors
    ensures AfterPage(search, q, k, limit, seen) == Window(search, q, k + 1, limit, seen')
  {
  }

  class Ingester {
    const repo: Repository
    const maxPages: int
    var clock: int
    var nextId: ObsId

    constructor (repo: Repository, maxPages: int, clock: int, nextId: ObsId)
      ensures this.repo == repo && this.maxPages == maxPages && this.clock == clock && this.nextId == nextId
    {
      this.repo, this.maxPages, this.clock, this.nextId := repo, maxPages, clock, nextId;
    }

    /** The earliest document of the case, established by a complete, fully parsed
        listing; none otherwise. */
    method EarliestInCase(search: Search, feed: Feed, d: Document) returns (r: Option<Document>)
      ensures r == Cases.EarliestInCase(search, feed, d)
      ensures r.Some? ==>
                && Cases.NoneBefore(r.value, d)
                && var q := Query(20150101, d.documentDate, feed.subjectArea, feed.documentType, d.caseNumber);
                   var listing := Chronology(search, q, 1, 10);
                   && listing.Some?
                   && forall o :: o in listing.value && o.caseNumber == d.caseNumber
                                  && o.documentType == feed.documentTypeName ==>
                        || r.value.documentDate < o.documentDate
                        || (r.value.documentDate == o.documentDate
                            && DocumentSuffix(r.value.documentNumber) <= DocumentSuffix(o.documentNumber))
    {
      var q := Cases.CaseQuery(feed, d);
      var earliest, seen, complete, page := d, 0, false, 1;
      ghost var docs := [];
      while page <= Cases.MAX_CASE_PAGES && !complete
        invariant 1 <= page <= Cases.MAX_CASE_PAGES + 1
        invariant earliest == Cases.EarliestOf(feed, d, docs) && seen == |docs|
        invariant complete ==> Chronology(search, q, 1, Cases.MAX_CASE_PAGES) == Some(docs)
        invariant !complete ==>
                    && Documents(search, q, page - 1) == Some(docs)
                    && Chronology(search, q, 1, Cases.MAX_CASE_PAGES) ==
                       Chronology(search, q, page, Cases.MAX_CASE_PAGES)
        decreases !complete, Cases.MAX_CASE_PAGES - page
      {
        var sp := search(q, page);
        if sp.None? || sp.value.rowErrors > 0 {
          return None;
        }
        earliest := EarliestOnPage(feed, d, sp.value.documents, earliest, docs);
        docs := docs + sp.value.documents;
        seen := seen + |sp.value.documents|;
        complete := sp.value.documents == [] || (sp.value.total > 0 && seen >= sp.value.total);
        page := page + 1;
      }
      Cases.EarliestIsMinimal(feed, d, docs);
      return if complete then Some(earliest) else None;
    }

    method EarliestOnPage(feed: Feed, d: Document, documents: seq<Document>, earliest: Document,
                          ghost docs: seq<Document>)
      returns (r: Document)
      requires earliest == Cases.EarliestOf(feed, d, docs)
      ensures r == Cases.EarliestOf(feed, d, docs + documents)
    {
      r := earliest;
      assert docs + documents[..0] == docs;
      for i := 0 to |documents|
        invariant r == Cases.EarliestOf(feed, d, docs + documents[..i])
      {
        var other := documents[i];
        EarliestSnoc(feed, d, docs + documents[..i], other);
        assert docs + documents[..i + 1] == docs + documents[..i] + [other];
        if Cases.SameCase(feed, other, d) && DocumentBefore(other, r) {
          r := other;
        }
      }
      assert documents[..|documents|] == documents;
    }

    /** The observation and the event of one document, in one transaction: both, or
        nothing. */
    method Persist(feed: Feed, d: Document, ghost m: Cases.Mapping) returns (ok: bool, counts: Counts)
      requires Cases.Fits(feed, m)
      modifies this, repo
      ensures clock == old(clock) + 1 && nextId == old(nextId) + 1
      ensures repo.Contents() ==
              Entered(old(repo.Contents()), Cases.EntryOf(m, d), old(nextId), old(clock), false)
      ensures ok == m(d).Some?
      ensures counts == DocumentCounts(m, old(repo.Contents()), d, old(nextId))
    {
      var e := ToEvent(d, feed.eventType);
      assert m(d) == Cases.DiaryEvent(feed, d);
      ok, counts := PersistEvent(d, e, NotesOf(d), m);
    }

    method PersistEvent(d: Document, e: NewEvent, notes: Counts, ghost m: Cases.Mapping)
      returns (ok: bool, counts: Counts)
      requires m(d) == (if d.documentNumber == "" || !Acceptable(e) then None else Some(e)) && notes == NotesOf(d)
      modifies this, repo
      ensures clock == old(clock) + 1 && nextId == old(nextId) + 1
      ensures repo.Contents() == Entered(old(repo.Contents()), Cases.EntryOf(m, d), old(nextId), old(clock), false)
      ensures ok == m(d).Some?
      ensures counts == DocumentCounts(m, old(repo.Contents()), d, old(nextId))
    {
      var now, id, before := clock, nextId, repo.Contents();
      clock, nextId, counts := clock + 1, nextId + 1, notes;
      var recorded := repo.RecordObservation(DiaryRow(d), id, now);
      if recorded.None? {
        return false, counts;
      }
      if recorded.value.1 {
        counts := counts + multiset{NewState};
      }
      var outcome := repo.UpsertEvent(Cases.KeyOf(d), e, recorded.value.0, now);
      if outcome.None? {
        repo.Rollback(before);
        return false, counts;
      }
      Cases.PersistedAs(before, DiaryRow(d), Derivation(Cases.KeyOf(d), e), id, now);
      return true, counts + multiset{Stored(outcome.value)};
    }

    /** The run has got this far. */
    ghost predicate At(p: Progress)
      reads this, repo
    {
      repo.Contents() == p.db && nextId == p.Id() && clock == p.Now()
    }

    /** Is the row to be persisted? Every row is counted by what becomes of it. */
    method Judge(search: Search, feed: Feed, d: Document, rows: RowStats, ghost judged: Cases.Tally)
      returns (v: Cases.Verdict, r: RowStats)
      requires CountsRows(rows, judged)
      ensures v == Cases.VerdictOn(search, feed, d) && CountsRows(r, Cases.Counted(judged, v))
      ensures v == Cases.OtherType <==> d.documentType != feed.documentTypeName
      ensures v == Cases.NotAccepted <==> d.documentType == feed.documentTypeName && !feed.accept(d)
      ensures v in {Cases.LaterInCase, Cases.Unestablished} ==> feed.onePerCase
      ensures v != Cases.OtherType && v != Cases.NotAccepted && feed.onePerCase ==>
                var earliest := Cases.EarliestInCase(search, feed, d);
                && (v == Cases.Unestablished <==> earliest.None?)
                && (v == Cases.Accepted <==> earliest.Some? && earliest.value.documentNumber == d.documentNumber)
      ensures r.persistFailures == rows.persistFailures && r.counts == rows.counts
    {
      r := rows.(observed := rows.observed + 1);
      if d.documentType != feed.documentTypeName {
        return Cases.OtherType, r.(otherTypes := r.otherTypes + 1);
      }
      if !feed.accept(d) {
        return Cases.NotAccepted, r.(skipped := r.skipped + 1);
      }
      if feed.onePerCase {
        var earliest := EarliestInCase(search, feed, d);
        if earliest.None? {
          return Cases.Unestablished, r;
        }
        if earliest.value.documentNumber != d.documentNumber {
          return Cases.LaterInCase, r.(laterInCase := r.laterInCase + 1);
        }
      }
      return Cases.Accepted, r.(accepted := r.accepted + 1);
    }

    /** One row of the window. */
    method Handle(search: Search, feed: Feed, d: Document, rows: RowStats, ghost m: Cases.Mapping, ghost p: Progress)
      returns (aborted: bool, r: RowStats, ghost p': Progress)
      requires Cases.Fits(feed, m) && Sound(search, feed, m, p) && !p.selection.aborted && At(p)
      requires Tallied(m, rows, p)
      modifies this, repo
      ensures Sound(search, feed, m, p') && At(p') && p'.start == p.start && Tallied(m, r, p')
      ensures p'.read == p.read + [d] && aborted == p'.selection.aborted
    {
      var v;
      v, r := Judge(search, feed, d, rows, p.selection.judged);
      var ok := true;
      if v == Cases.Accepted {
        var counts;
        ok, counts := Persist(feed, d, m);
        r := r.(persistFailures := if ok then r.persistFailures else r.persistFailures + 1,
                counts := r.counts + counts);
      }
      aborted := v == Cases.Unestablished;
      p' := Next(p, d, v, repo.Contents());
      NextIsAt(p, d, v, repo.Contents());
      NextIsSound(search, feed, m, p, d, v, repo.Contents());
      NextIsTallied(CountingFor(m), m, rows, r, p, d, v, ok);
    }

    /** The rows of one page, up to the first whose chronology fails. */
    method HandlePage(search: Search, feed: Feed, documents: seq<Document>, rows: RowStats, ghost m: Cases.Mapping,
                      ghost p: Progress)
      returns (aborted: bool, r: RowStats, ghost p': Progress)
      requires Cases.Fits(feed, m) && Sound(search, feed, m, p) && !p.selection.aborted && At(p)
      requires Tallied(m, rows, p)
      modifies this, repo
      ensures Sound(search, feed, m, p') && At(p') && p'.start == p.start && Tallied(m, r, p')
      ensures p'.read == p.read + documents && aborted == p'.selection.aborted
    {
      r, p' := rows, p;
      for i := 0 to |documents|
        invariant Sound(search, feed, m, p') && At(p') && p'.start == p.start && Tallied(m, r, p')
        invariant p'.read == p.read + documents[..i] && !p'.selection.aborted
      {
        aborted, r, p' := Handle(search, feed, documents[i], r, m, p');
        PrefixStep(p.read, documents, i);
        if aborted {
          AbortStays(search, feed, m, p', documents[i + 1..]);
          p' := p'.(read := p'.read + documents[i + 1..]);
          return;
        }
      }
      aborted := false;
    }

    function Limit(): nat {
      if maxPages < 1 then Cases.DEFAULT_MAX_PAGES else maxPages
    }

    method NoStats(ghost m: Cases.Mapping, ghost p: Progress) returns (stats: Stats)
      requires p.selection == Cases.NOTHING
      ensures stats.pages == 0 && stats.parseFailures == 0 && Tallied(m, stats.rows, p)
    {
      stats := Stats(0, 0, RowStats(0, 0, 0, 0, 0, 0, multiset{}));
    }

    /** One run of a feed. It persists, in listing order, every document the rule
        selects, up to the first one whose chronology cannot be established. */
    method RunFeed(search: Search, feed: Feed, w: DateRange, ghost m: Cases.Mapping)
      returns (error: Option<FeedError>, stats: Stats, ghost p: Progress)
      requires Cases.Fits(feed, m)
      modifies this, repo
      ensures At(p) && p.start == Start(old(repo.Contents()), old(nextId), old(clock))
      ensures Ran(search, feed, m, if maxPages < 1 then 1000 else maxPages, w, p, error, stats)
    {
      p := Begin(Start(repo.Contents(), nextId, clock));
      stats := NoStats(m, p);
      BeginIsSound(search, feed, m, p.start);
      if !feed.FullyConfigured() {
        return Some(NotConfigured), stats, p;
      }
      if w.from == ZERO_DATE || w.to == ZERO_DATE || w.to < w.from {
        return Some(InvalidWindow), stats, p;
      }
      var fetched, aborted;
      fetched, aborted, stats, p := ReadWindow(search, feed, Cases.WindowQuery(feed, w), m, p);
      error := if aborted then Some(ChronologyIncomplete) else if !fetched then Some(FetchFailed)
               else if stats.rows.persistFailures > 0 then Some(PersistFailures) else None;
      FailuresExact(m, p.selection.chosen);
      if !aborted {
        Cases.SelectCounts(p.read, Cases.Verdicts(search, feed, p.read));
      }
    }

    /** One run of the default feed. */
    method Run(search: Search, w: DateRange) returns (error: Option<FeedError>, stats: Stats, ghost p: Progress)
      modifies this, repo
      ensures At(p) && p.start == Start(old(repo.Contents()), old(nextId), old(clock))
      ensures Ran(search, INSPECTION_NOTICES, Cases.EventsFor(INSPECTION_NOTICES),
                  if maxPages < 1 then 1000 else maxPages, w, p, error, stats)
    {
      Cases.EventsFit(INSPECTION_NOTICES);
      error, stats, p := RunFeed(search, INSPECTION_NOTICES, w, Cases.EventsFor(INSPECTION_NOTICES));
    }

    /** The pages of the window, from the first one on. */
    method ReadWindow(search: Search, feed: Feed, q: Query, ghost m: Cases.Mapping, ghost p: Progress)
      returns (fetched: bool, aborted: bool, stats: Stats, ghost p': Progress)
      requires Cases.Fits(feed, m) && Sound(search, feed, m, p) && At(p) && p.read == [] && p.selection == Cases.NOTHING
      modifies this, repo
      ensures Sound(search, feed, m, p') && At(p') && p'.start == p.start && aborted == p'.selection.aborted
      ensures Tallied(m, stats.rows, p')
      ensures var harvest := Window(search, q, 1, Limit(), 0);
              && p'.read == harvest.documents
              && (!aborted ==>
                    && fetched == harvest.fetched
                    && stats.parseFailures == harvest.rowErrors && stats.pages == harvest.pages)
    {
      var outcome;
      ghost var rest;
      outcome, stats, p', rest := ReadPages(search, feed, q, m, p, Window(search, q, 1, Limit(), 0));
      fetched, aborted := outcome != Unfetched, outcome == Aborted;
      if aborted {
        AbortStays(search, feed, m, p', rest.documents);
        p' := p'.(read := p'.read + rest.documents);
      }
    }

    /** The loop over the pages; `rest` is what it leaves unread. */
    method ReadPages(search: Search, feed: Feed, q: Query, ghost m: Cases.Mapping, ghost p: Progress,
                     ghost whole: Harvest)
      returns (outcome: PageOutcome, stats: Stats, ghost p': Progress, ghost rest: Harvest)
      requires Cases.Fits(feed, m) && Sound(search, feed, m, p) && At(p) && p.read == [] && p.selection == Cases.NOTHING
      requires whole == Window(search, q, 1, Limit(), 0)
      modifies this, repo
      ensures Sound(search, feed, m, p') && At(p') && p'.start == p.start && p'.selection.aborted == outcome.Aborted?
      ensures Tallied(m, stats.rows, p') && AddsUp(outcome, p'.read, stats, rest, whole)
      ensures match outcome
              case Unfetched => Ends(rest, false)
              case Aborted => true
              case _ => rest == DONE
    {
      stats := NoStats(m, p);
      p', rest, outcome := p, whole, More;
      var seen: nat, page: nat := 0, 1;
      assert [] + whole.documents == whole.documents;
      while page <= Limit() && outcome == More
        invariant 1 <= page <= Limit() + 1
        invariant Sound(search, feed, m, p') && At(p') && p'.start == p.start
        invariant p'.selection.aborted == outcome.Aborted?
        invariant Tallied(m, stats.rows, p')
        invariant IsLeft(search, q, page, Limit(), outcome, seen, rest)
        invariant AddsUp(outcome, p'.read, stats, rest, whole)
      {
        outcome, seen, stats, p', rest := ReadPage(search, feed, q, page, seen, stats, m, p', rest, whole);
        page := page + 1;
      }
    }

    /** One page; `rest'` is what is left to be read after it. */
    method ReadPage(search: Search, feed: Feed, q: Query, page: nat, seen: nat, stats: Stats, ghost m: Cases.Mapping,
                    ghost p: Progress, ghost rest: Harvest, ghost whole: Harvest)
      returns (outcome: PageOutcome, seen': nat, r: Stats, ghost p': Progress, ghost rest': Harvest)
      requires Cases.Fits(feed, m) && Sound(search, feed, m, p) && At(p) && !p.selection.aborted
      requires Tallied(m, stats.rows, p)
      requires page <= Limit() && IsLeft(search, q, page, Limit(), More, seen, rest)
      requires AddsUp(More, p.read, stats, rest, whole)
      modifies this, repo
      ensures Sound(search, feed, m, p') && At(p') && p'.start == p.start && p'.selection.aborted == outcome.Aborted?
      ensures Tallied(m, r.rows, p')
      ensures IsLeft(search, q, page + 1, Limit(), outcome, seen', rest')
      ensures AddsUp(outcome, p'.read, r, rest', whole)
    {
      var sp := search(q, page);
      seen', r, p', rest' := seen, stats, p, rest;
      if sp.None? {
        return Unfetched, seen', r, p', rest';
      }
      WindowIsPageAndRest(search, q, page, Limit(), seen);
      rest' := AfterPage(search, q, page, Limit(), seen);
      r := Stats(stats.pages + 1, stats.parseFailures + sp.value.rowErrors, stats.rows);
      if sp.value.documents == [] && sp.value.rowErrors == 0 {
        return Last, seen', r, p', rest';
      }
      var aborted, rows;
      aborted, rows, p' := HandlePage(search, feed, sp.value.documents, stats.rows, m, p);
      r := Stats(r.pages, r.parseFailures, rows);
      Assoc(p.read, sp.value.documents, rest'.documents);
      seen' := seen + |sp.value.documents| + sp.value.rowErrors;
      if aborted {
        return Aborted, seen', r, p', rest';
      }
      if sp.value.total > 0 && seen' >= sp.value.total {
        return Last, seen', r, p', rest';
      }
      MoreAfterPage(search, q, page, Limit(), seen, seen');
      return More, seen', r, p', rest';
    }
  }

  /** What is left to be read from a page on, by how the pages before it ended. */
  predicate IsLeft(search: Search, q: Query, page: nat, limit: nat, outcome: PageOutcome, seen: nat, rest: Harvest) {
    match outcome
    case More => rest == Window(search, q, page, limit, seen)
    case Last => rest == DONE
    case Unfetched => Ends(rest, false)
    case Aborted => true
  }

  predicate Ends(rest: Harvest, fetched: bool) {
    rest.documents == [] && rest.rowErrors == 0 && rest.pages == 0 && rest.fetched == fetched
  }

  /** What was read and what is left add up to the whole window. */
  predicate AddsUp(outcome: PageOutcome, read: seq<Document>, stats: Stats, rest: Harvest, whole: Harvest) {
    match rest
    case Harvest(documents, rowErrors, pages, fetched) =>
      && read + documents == whole.documents
      && (outcome != Aborted ==>
            && whole.fetched == fetched
            && stats.parseFailures + rowErrors == whole.rowErrors && stats.pages + pages == whole.pages)
  }

  datatype PageOutcome = Unfetched | Last | More | Aborted

  /** What a run over a window does: which documents it reads and selects, what it
      stores and counts, and how it ends. */
  ghost predicate Ran(search: Search, feed: Feed, m: Cases.Mapping, limit: nat, w: DateRange, p: Progress,
                      error: Option<FeedError>, stats: Stats) {
    match p
    case Progress(_, read, selection, _) =>
      var harvest := Window(search, Cases.WindowQuery(feed, w), 1, limit, 0);
      && read == (if feed.FullyConfigured() && w.Valid() then harvest.documents else [])
      && Sound(search, feed, m, p) && Tallied(m, stats.rows, p)
      && error == Ending(feed, m, w, harvest.fetched, selection)
      && (error in {None, Some(FetchFailed), Some(PersistFailures)} ==>
            && stats.rows.observed == |read|
            && stats.parseFailures == harvest.rowErrors && stats.pages == harvest.pages)
  }

  /** How a run ends: a chronology that fails comes first, then a page that cannot be
      fetched, then documents that cannot be persisted. */
  ghost function Ending(feed: Feed, m: Cases.Mapping, w: DateRange, fetched: bool,
                        selection: Cases.Selection): Option<FeedError> {
    if !feed.FullyConfigured() then Some(NotConfigured)
    else if !w.Valid() then Some(InvalidWindow)
    else if selection.aborted then Some(ChronologyIncomplete)
    else if !fetched then Some(FetchFailed)
    else if exists d :: d in selection.chosen && m(d).None? then Some(PersistFailures)
    else None
  }
}
