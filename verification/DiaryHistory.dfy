/** What runs of the diary ingester leave in the tables, one run after another. */
module DiaryHistory {
  import opened Wrappers
  import opened Arbetsmiljoverket
  import opened DiaryCounts
  import opened DiaryIngest
  import opened DiarySearch
  import opened EventRepository
  import opened EventStore
  import opened PublicEvent
  import Agreement = EventAgreement
  import Cases = OneEventPerCase

  // ----- runs one after another -----

  /** Where a run leaves the tables and the counters. */
  function EndOf(p: Progress): Start {
    Start(p.db, p.Id(), p.Now())
  }

  /** What RunFeed promises of a run over this window. */
  predicate RanOver(search: Search, feed: Feed, m: Cases.Mapping, limit: nat, w: DateRange, p: Progress) {
    Sound(search, feed, m, p) && p.read == Window(search, Cases.WindowQuery(feed, w), 1, limit, 0).documents
  }

  function EndsAt(ps: seq<Progress>, start: Start): Start {
    if ps == [] then start else EndOf(ps[|ps| - 1])
  }

  /** Runs over the windows, each from where the one before it ended. */
  predicate Chain(search: Search, feed: Feed, m: Cases.Mapping, limit: nat, ws: seq<DateRange>, ps: seq<Progress>,
                  start: Start) {
    && |ps| == |ws|
    && (ps == [] ||
        var n := |ps| - 1;
        && Chain(search, feed, m, limit, ws[..n], ps[..n], start)
        && RanOver(search, feed, m, limit, ws[n], ps[n])
        && ps[n].start == EndsAt(ps[..n], start))
  }

  /** What RunFeed and Run promise is that their next run is the next link. */
  lemma {:induction false} RunIsALink(search: Search, feed: Feed, m: Cases.Mapping, limit: nat, ws: seq<DateRange>,
                                      ps: seq<Progress>, start: Start, w: DateRange, p: Progress,
                                      error: Option<FeedError>, stats: Stats)
    requires Chain(search, feed, m, limit, ws, ps, start) && p.start == EndsAt(ps, start)
    requires Ran(search, feed, m, limit, w, p, error, stats) && feed.FullyConfigured() && w.Valid()
    ensures Chain(search, feed, m, limit, ws + [w], ps + [p], start)
  {
    assert (ws + [w])[..|ws|] == ws && (ps + [p])[..|ps|] == ps;
  }

  /** The documents were persisted between two points, in order, with consecutive ids
      and times. */
  predicate Leaves(m: Cases.Mapping, start: Start, docs: seq<Document>, end: Start) {
    && end.db == Cases.Stored(m, start.db, docs, start.id, start.now)
    && end.id == start.id + |docs| && end.now == start.now + |docs|
  }

  lemma LeavesConcat(m: Cases.Mapping, start: Start, a: seq<Document>, middle: Start, b: seq<Document>, end: Start)
    requires Leaves(m, start, a, middle) && Leaves(m, middle, b, end)
    ensures Leaves(m, start, a + b, end)
  {
    Cases.StoredConcat(m, start.db, a, b, start.id, start.now);
  }

  lemma RunLeaves(search: Search, feed: Feed, m: Cases.Mapping, limit: nat, w: DateRange, p: Progress)
    requires RanOver(search, feed, m, limit, w, p)
    ensures Leaves(m, p.start, Cases.Selected(search, feed, w, limit).chosen, EndOf(p))
  {
  }

  /** What some runs leave in the tables: the documents each of them selects, one run
      after another. */
  lemma {:induction false} RunsLeave(search: Search, feed: Feed, m: Cases.Mapping, limit: nat, ws: seq<DateRange>,
                                     ps: seq<Progress>, start: Start)
    requires Chain(search, feed, m, limit, ws, ps, start)
    ensures Leaves(m, start, Cases.ChosenBy(search, feed, ws, limit), EndsAt(ps, start))
    decreases |ws|
  {
    if ws != [] {
      var n := |ws| - 1;
      RunsLeave(search, feed, m, limit, ws[..n], ps[..n], start);
      RunLeaves(search, feed, m, limit, ws[n], ps[n]);
      LeavesConcat(m, start, Cases.ChosenBy(search, feed, ws[..n], limit), ps[n].start,
                   Cases.Selected(search, feed, ws[n], limit).chosen, EndOf(ps[n]));
    }
  }

  /** From empty tables the runs leave the events that the order-independence results
      are about. */
  lemma RunsLeaveEventsOf(search: Search, feed: Feed, limit: nat, ws: seq<DateRange>, ps: seq<Progress>, id: ObsId,
                          now: int)
    requires Chain(search, feed, Cases.EventsFor(feed), limit, ws, ps, Start(EMPTY, id, now)) && ps != []
    ensures ps[|ps| - 1].db.events == Cases.EventsOf(search, feed, ws, limit, id, now)
  {
    RunsLeave(search, feed, Cases.EventsFor(feed), limit, ws, ps, Start(EMPTY, id, now));
  }

  /** What a call of RunFeed or Run returns, and the window it was given. */
  datatype Result = Result(w: DateRange, p: Progress, error: Option<FeedError>, stats: Stats)

  /** The call with number i did what it promises, from where the one before ended. */
  ghost predicate Returned(search: Search, feed: Feed, m: Cases.Mapping, limit: nat, rs: seq<Result>, start: Start,
                           i: nat)
    requires i < |rs|
  {
    match rs[i]
    case Result(w, p, error, stats) =>
      && w.Valid() && Ran(search, feed, m, limit, w, p, error, stats)
      && p.start == if i == 0 then start else EndOf(rs[i - 1].p)
  }

  function Windows(rs: seq<Result>): (r: seq<DateRange>)
    ensures |r| == |rs|
  {
    seq(|rs|, i requires 0 <= i < |rs| => rs[i].w)
  }

  function Progresses(rs: seq<Result>): (r: seq<Progress>)
    ensures |r| == |rs|
  {
    seq(|rs|, i requires 0 <= i < |rs| => rs[i].p)
  }

  lemma {:induction false} ResultsChain(search: Search, feed: Feed, m: Cases.Mapping, limit: nat, rs: seq<Result>,
                                        start: Start, n: nat)
    requires feed.FullyConfigured() && n <= |rs|
    requires forall i :: 0 <= i < |rs| ==> Returned(search, feed, m, limit, rs, start, i)
    ensures Chain(search, feed, m, limit, Windows(rs)[..n], Progresses(rs)[..n], start)
    decreases n
  {
    if n > 0 {
      ResultsChain(search, feed, m, limit, rs, start, n - 1);
      NextResult(search, feed, m, limit, rs, start, n - 1);
      Prefixes(rs, n - 1);
    }
  }

  lemma {:induction false} NextResult(search: Search, feed: Feed, m: Cases.Mapping, limit: nat, rs: seq<Result>,
                                      start: Start, k: nat)
    requires feed.FullyConfigured() && k < |rs| && Returned(search, feed, m, limit, rs, start, k)
    requires Chain(search, feed, m, limit, Windows(rs)[..k], Progresses(rs)[..k], start)
    ensures Chain(search, feed, m, limit, Windows(rs)[..k] + [rs[k].w], Progresses(rs)[..k] + [rs[k].p], start)
  {
    var ws, ps := Windows(rs)[..k], Progresses(rs)[..k];
    assert k > 0 ==> ps[k - 1] == rs[k - 1].p;
    RunIsALink(search, feed, m, limit, ws, ps, start, rs[k].w, rs[k].p, rs[k].error, rs[k].stats);
  }

  lemma Prefixes(rs: seq<Result>, k: nat)
    requires k < |rs|
    ensures Windows(rs)[..k + 1] == Windows(rs)[..k] + [rs[k].w]
    ensures Progresses(rs)[..k + 1] == Progresses(rs)[..k] + [rs[k].p]
  {
  }

  /** Whatever a sequence of calls returned, each on what the one before left and the
      first on empty tables, the events are those that the windows alone determine. */
  lemma ResultsLeaveEventsOf(search: Search, feed: Feed, limit: nat, rs: seq<Result>, id: ObsId, now: int)
    requires feed.FullyConfigured() && rs != []
    requires forall i :: 0 <= i < |rs| ==>
               Returned(search, feed, Cases.EventsFor(feed), limit, rs, Start(EMPTY, id, now), i)
    ensures rs[|rs| - 1].p.db.events == Cases.EventsOf(search, feed, Windows(rs), limit, id, now)
  {
    ResultsChain(search, feed, Cases.EventsFor(feed), limit, rs, Start(EMPTY, id, now), |rs|);
    assert Windows(rs)[..|rs|] == Windows(rs) && Progresses(rs)[..|rs|] == Progresses(rs);
    RunsLeaveEventsOf(search, feed, limit, Windows(rs), Progresses(rs), id, now);
  }

  // ----- how a run ends -----

  lemma {:induction false} AbortedIff(docs: seq<Document>, vs: seq<Cases.Verdict>)
    requires |docs| == |vs|
    ensures var selection := Cases.SelectBy(docs, vs);
            selection.judged.unestablished == if selection.aborted then 1 else 0
    decreases |docs|
  {
    if docs != [] {
      AbortedIff(docs[..|docs| - 1], vs[..|docs| - 1]);
    }
  }

  /** A feed that lacks a name, area, type or event type and a window that is not one are
      refused; a chronology that could not be established comes before a page that could
      not be fetched, and that before documents that could not be persisted. */
  lemma RunEnds(search: Search, feed: Feed, m: Cases.Mapping, limit: nat, w: DateRange, p: Progress,
                error: Option<FeedError>, stats: Stats)
    requires Ran(search, feed, m, limit, w, p, error, stats)
    ensures error == Some(NotConfigured) <==>
              || feed.name == "" || feed.subjectArea == "" || feed.documentType == "" || feed.documentTypeName == ""
              || feed.eventType == ""
    ensures error == Some(InvalidWindow) <==>
              error != Some(NotConfigured) && (w.from == 10101 || w.to == 10101 || w.to < w.from)
    ensures error !in {Some(NotConfigured), Some(InvalidWindow)} ==>
              var unestablished, failures := p.selection.judged.unestablished, stats.rows.persistFailures;
              var fetched := Window(search, Cases.WindowQuery(feed, w), 1, limit, 0).fetched;
              && (error == Some(ChronologyIncomplete) <==> unestablished > 0)
              && (error == Some(FetchFailed) <==> unestablished == 0 && !fetched)
              && (error == Some(PersistFailures) <==> unestablished == 0 && fetched && failures > 0)
              && (error == None <==> unestablished == 0 && fetched && failures == 0)
  {
    AbortedIff(p.read, Cases.Verdicts(search, feed, p.read));
    FailuresExact(m, p.selection.chosen);
  }

  // ----- what the statistics say -----

  lemma {:induction false} EveryAcceptedIsChosen(docs: seq<Document>, vs: seq<Cases.Verdict>)
    requires |docs| == |vs|
    ensures var selection := Cases.SelectBy(docs, vs); |selection.chosen| == selection.judged.accepted
    decreases |docs|
  {
    if docs != [] {
      EveryAcceptedIsChosen(docs[..|docs| - 1], vs[..|docs| - 1]);
    }
  }

  /** However a run ends, every accepted document failed or has one outcome, and the
      events have grown by those counted as inserted; the observations have grown by the
      new states counted exactly if no chosen document is lost. */
  lemma StatisticsAddUp(search: Search, feed: Feed, m: Cases.Mapping, limit: nat, w: DateRange, p: Progress,
                        error: Option<FeedError>, stats: Stats)
    requires Cases.Fits(feed, m) && Ran(search, feed, m, limit, w, p, error, stats)
    ensures var rows, docs := stats.rows, p.selection.chosen;
            var inserted := rows.counts[Stored(Inserted)];
            && |p.db.events| == |p.start.db.events| + inserted
            && rows.accepted ==
               inserted + rows.counts[Stored(Updated)] + rows.counts[Stored(Unchanged)] + rows.persistFailures
            && (|p.db.observations| == |p.start.db.observations| + rows.counts[NewState]
                <==> forall d :: d in docs ==> !Lost(m, p.start.db, d))
            && forall n :: rows.counts[Dropped(n)] == Noted(docs, n)
  {
    forall n ensures stats.rows.counts[Dropped(n)] == Noted(p.selection.chosen, n) {
      NotesCounted(m, p.start.db, p.selection.chosen, p.start.id, p.start.now, n);
    }
    EveryAcceptedIsChosen(p.read, Cases.Verdicts(search, feed, p.read));
    FeedCountsAddUp(feed, m, p.start.db, p.selection.chosen, p.start.id, p.start.now);
  }

  // ----- runs as persists of the event store -----

  function OpsOf(docs: seq<Document>, id: ObsId, now: int): seq<Op> {
    if docs == [] then [] else
      var n := |docs| - 1;
      OpsOf(docs[..n], id, now) + [Op(DiaryRow(docs[n]), id + n, now + n)]
  }

  /** The feed makes of each document what is read from its row. */
  ghost predicate Faithful(says: Saying, m: Cases.Mapping, docs: seq<Document>) {
    forall i :: 0 <= i < |docs| ==> Cases.EntryOf(m, docs[i]).derivations == says(DiaryRow(docs[i]))
  }

  lemma KnownFeedIsFaithful(feed: Feed, docs: seq<Document>)
    requires feed.Known() && forall i :: 0 <= i < |docs| ==> docs[i].documentType == feed.documentTypeName
    ensures Faithful(Derived, Cases.EventsFor(feed), docs)
  {
    forall i | 0 <= i < |docs|
      ensures Cases.EntryOf(Cases.EventsFor(feed), docs[i]).derivations == Derived(DiaryRow(docs[i]))
    {
      Cases.KnownFeedDerives(feed, docs[i]);
    }
  }

  lemma {:induction false} StoredIdsBelow(m: Cases.Mapping, db: Db, docs: seq<Document>, id: ObsId, now: int)
    requires IdsBelow(db.observations, id)
    ensures IdsBelow(Cases.Stored(m, db, docs, id, now).observations, id + |docs|)
    decreases |docs|
  {
    if docs != [] {
      StoredIdsBelow(m, db, docs[..|docs| - 1], id, now);
    }
  }

  lemma {:induction false} StoredRuns(says: Saying, m: Cases.Mapping, db: Db, docs: seq<Document>, id: ObsId, now: int)
    requires Faithful(says, m, docs) && IdsBelow(db.observations, id)
    ensures RunBy(says, db, OpsOf(docs, id, now)) == Some(Cases.Stored(m, db, docs, id, now))
    decreases |docs|
  {
    if docs != [] {
      var n := |docs| - 1;
      StoredRuns(says, m, db, docs[..n], id, now);
      StoredIdsBelow(m, db, docs[..n], id, now);
      var ops := OpsOf(docs, id, now);
      assert ops[..|ops| - 1] == OpsOf(docs[..n], id, now);
    }
  }

  /** What the runs of a known feed leave is a run of the event store. */
  lemma StoredIsRun(feed: Feed, db: Db, docs: seq<Document>, id: ObsId, now: int)
    requires feed.Known() && IdsBelow(db.observations, id)
    requires forall i :: 0 <= i < |docs| ==> docs[i].documentType == feed.documentTypeName
    ensures Run(db, OpsOf(docs, id, now), false) == Some(Cases.Stored(Cases.EventsFor(feed), db, docs, id, now))
  {
    KnownFeedIsFaithful(feed, docs);
    StoredRuns(Derived, Cases.EventsFor(feed), db, docs, id, now);
    RunByRecord(db, OpsOf(docs, id, now));
  }

  lemma {:induction false} ChosenAreOfTheFeed(search: Search, feed: Feed, ws: seq<DateRange>, limit: nat,
                                              d: Document)
    ensures d in Cases.ChosenBy(search, feed, ws, limit) ==> d.documentType == feed.documentTypeName
    decreases |ws|
  {
    if ws != [] {
      var n := |ws| - 1;
      ChosenAreOfTheFeed(search, feed, ws[..n], limit, d);
      var docs := Window(search, Cases.WindowQuery(feed, ws[n]), 1, limit, 0).documents;
      SelectedAreAccepted(docs, Cases.Verdicts(search, feed, docs), d);
      if Cases.JudgedAs(docs, Cases.Verdicts(search, feed, docs), d, Cases.Accepted) {
        AcceptedIsOfTheFeed(search, feed, docs, d);
      }
      Cases.InConcat(Cases.ChosenBy(search, feed, ws[..n], limit), Cases.Selected(search, feed, ws[n], limit).chosen,
                     d);
    }
  }

  lemma AcceptedIsOfTheFeed(search: Search, feed: Feed, docs: seq<Document>, d: Document)
    requires Cases.JudgedAs(docs, Cases.Verdicts(search, feed, docs), d, Cases.Accepted)
    ensures d.documentType == feed.documentTypeName
  {
    var i :| 0 <= i < |docs| && docs[i] == d && Cases.Verdicts(search, feed, docs)[i] == Cases.Accepted;
    Cases.VerdictsAt(search, feed, docs, i);
  }

  lemma {:induction false} SelectedAreAccepted(docs: seq<Document>, vs: seq<Cases.Verdict>, d: Document)
    requires |docs| == |vs|
    ensures d in Cases.SelectBy(docs, vs).chosen ==> Cases.JudgedAs(docs, vs, d, Cases.Accepted)
    decreases |docs|
  {
    if docs != [] {
      var n := |docs| - 1;
      SelectedAreAccepted(docs[..n], vs[..n], d);
      Cases.JudgedAsSnoc(docs, vs, d, Cases.Accepted);
    }
  }

  lemma KnownFeedAgrees(search: Search, feed: Feed, ws: seq<DateRange>, limit: nat, id: ObsId, now: int)
    requires feed.Known()
    ensures Agrees(Cases.Stored(Cases.EventsFor(feed), EMPTY, Cases.ChosenBy(search, feed, ws, limit), id, now))
  {
    var docs := Cases.ChosenBy(search, feed, ws, limit);
    forall i | 0 <= i < |docs| ensures docs[i].documentType == feed.documentTypeName {
      ChosenAreOfTheFeed(search, feed, ws, limit, docs[i]);
    }
    StoredIsRun(feed, EMPTY, docs, id, now);
    Agreement.EventsAgree(EMPTY, OpsOf(docs, id, now));
  }

  /** After any runs of one of the two feeds, complete or not, every event is what the
      observed row it points to says. */
  lemma RunsOfKnownFeedsAgree(search: Search, ws: seq<DateRange>, limit: nat, id: ObsId, now: int)
    ensures var feed := INSPECTION_NOTICES;
            Agrees(Cases.Stored(Cases.EventsFor(feed), EMPTY, Cases.ChosenBy(search, feed, ws, limit), id, now))
    ensures var feed := RECURRING_INSPECTION_FAILURES;
            Agrees(Cases.Stored(Cases.EventsFor(feed), EMPTY, Cases.ChosenBy(search, feed, ws, limit), id, now))
  {
    FeedsAreKnown();
    KnownFeedAgrees(search, INSPECTION_NOTICES, ws, limit, id, now);
    KnownFeedAgrees(search, RECURRING_INSPECTION_FAILURES, ws, limit, id, now);
  }
}
