/** What runs of the Stockholm ingester leave in the tables, one run after another. */
module StockholmHistory {
  import opened Keys
  import opened PublicEvent
  import opened EventStore
  import opened RefreshQueue
  import opened StockholmIngest
  import opened Wrappers
  import Agreement = EventAgreement

  // ----- a run as the next run of a history -----

  /** Everything was last seen before this time. */
  predicate Before(view: View, time: int) {
    forall r :: r in view ==> view[r].at < time
  }

  /** Visits of a run that starts after everything seen so far are timely, and
      leave everything seen before the end of the run. */
  lemma {:induction false} IncreasingIsTimely(view: View, visits: seq<Visit>, from: int, to: int)
    requires Increasing(visits, from, to) && Before(view, from)
    ensures Timely(view, visits)
    ensures Before(Viewed(view, visits), to)
    decreases |visits|
  {
    if visits != [] {
      var v := visits[|visits| - 1];
      IncreasingWidens(visits[..|visits| - 1], from, v.now, v.now);
      IncreasingIsTimely(view, visits[..|visits| - 1], from, v.now);
    }
  }

  /** Visits one after another, after everything seen so far, keep the tables mirrored. */
  lemma VisitsOfARun(obs: map<Payload, Observation>, view: View, visits: seq<Visit>, from: int, to: int)
    requires Mirrors(obs, view) && Before(view, from) && Increasing(visits, from, to)
    ensures Timely(view, visits) && Before(Viewed(view, visits), to)
    ensures Mirrors(Observed(obs, visits), Viewed(view, visits))
  {
    IncreasingIsTimely(view, visits, from, to);
    VisitsMirror(obs, view, visits);
  }

  lemma DueIsHead(obs: map<Payload, Observation>, view: View, cutoff: int, limit: nat)
    requires Mirrors(obs, view)
    ensures AsSet(OpenCasesDue(obs, cutoff, limit)) ==
            set k | k in Firsts(Sorted(DueInView(view, cutoff)), limit) :: k.minor
  {
    QueueFollowsLastSeen(obs, view, cutoff);
    RecNosAsSet(Firsts(Sorted(DueInView(view, cutoff)), limit));
  }

  lemma RecNosAsSet(keys: seq<Key>)
    ensures AsSet(RecNos(keys)) == set k | k in keys :: k.minor
  {
    forall r | r in (set k | k in keys :: k.minor) ensures r in RecNos(keys) {
      var k :| k in keys && k.minor == r;
      var i :| 0 <= i < |keys| && keys[i] == k;
      assert RecNos(keys)[i] == r;
    }
  }

  /** The two rounds of visits of one run, after a history that ended in `before`. */
  lemma VisitsOfBothRounds(obs: map<Payload, Observation>, before: View, run: RunTrace, from: int, middle: int, to: int)
    requires Mirrors(obs, before) && Before(before, from)
    requires Increasing(run.discovery, from, middle) && Increasing(run.refresh, middle, to)
    ensures Timely(before, run.discovery) && Timely(Viewed(before, run.discovery), run.refresh)
    ensures Mirrors(Observed(obs, run.discovery), Viewed(before, run.discovery))
    ensures Mirrors(Observed(Observed(obs, run.discovery), run.refresh),
                    Viewed(Viewed(before, run.discovery), run.refresh))
    ensures Before(Viewed(Viewed(before, run.discovery), run.refresh), to)
  {
    VisitsOfARun(obs, before, run.discovery, from, middle);
    VisitsOfARun(Observed(obs, run.discovery), Viewed(before, run.discovery), run.refresh, middle, to);
  }

  lemma ViewAfterSnoc(runs: seq<RunTrace>, run: RunTrace)
    ensures ViewAfter(runs + [run]) == Viewed(Viewed(ViewAfter(runs), run.discovery), run.refresh)
  {
    assert (runs + [run])[..|runs|] == runs;
  }

  /** The observations after a log are those of its visits. */
  lemma {:induction false} KeptObserves(says: Saying, db: Db, visits: seq<Visit>)
    requires AllSay(says, visits)
    ensures Kept(says, db, visits).observations == Observed(db.observations, visits)
    decreases |visits|
  {
    if visits != [] {
      KeptObserves(says, db, visits[..|visits| - 1]);
    }
  }

  /** A complete run without persist failures, added to a history that the two tables
      mirror, is a legal next run: what Run promises is what fairness assumes. */
  lemma RunExtendsHistory(runs: seq<RunTrace>, first: Log, query: Query, second: Log)
    requires Legal(runs, query.limit) && Mirrors(first.start.observations, ViewAfter(runs))
    requires Before(ViewAfter(runs), first.from)
    requires |runs| > 0 ==> runs[|runs| - 1].cutoff <= query.cutoff
    requires Logged(first) && Logged(second) && Follows(first, second)
    requires Answered(query) && query.obs == first.end.observations
    requires VisitedRecNos(second.visits) == AsSet(query.due) - VisitedRecNos(first.visits)
    ensures var run := RunTrace(first.visits, query.cutoff, second.visits);
            && Legal(runs + [run], query.limit)
            && Mirrors(second.end.observations, ViewAfter(runs + [run]))
            && Before(ViewAfter(runs + [run]), second.to)
  {
    var run := RunTrace(first.visits, query.cutoff, second.visits);
    KeptObserves(Derived, first.start, first.visits);
    KeptObserves(Derived, second.start, second.visits);
    ExtendsHistory(runs, first.start.observations, run, query, first.from, first.to, second.to);
  }

  lemma ExtendsHistory(runs: seq<RunTrace>, obs: map<Payload, Observation>, run: RunTrace, query: Query, from: int,
                       middle: int, to: int)
    requires Legal(runs, query.limit) && Mirrors(obs, ViewAfter(runs)) && Before(ViewAfter(runs), from)
    requires |runs| > 0 ==> runs[|runs| - 1].cutoff <= run.cutoff
    requires Increasing(run.discovery, from, middle) && Increasing(run.refresh, middle, to)
    requires Answered(query) && query.obs == Observed(obs, run.discovery) && query.cutoff == run.cutoff
    requires VisitedRecNos(run.refresh) == AsSet(query.due) - VisitedRecNos(run.discovery)
    ensures Legal(runs + [run], query.limit)
    ensures Mirrors(Observed(query.obs, run.refresh), ViewAfter(runs + [run]))
    ensures Before(ViewAfter(runs + [run]), to)
  {
    ViewAfterSnoc(runs, run);
    VisitsOfBothRounds(obs, ViewAfter(runs), run, from, middle, to);
    var view := Viewed(ViewAfter(runs), run.discovery);
    DueIsHead(query.obs, view, run.cutoff, query.limit);
    LastRunOk(runs, run, view, Firsts(Sorted(DueInView(view, run.cutoff)), query.limit), query.limit);
    LegalSnoc(runs, run, query.limit);
  }

  lemma LegalSnoc(runs: seq<RunTrace>, run: RunTrace, limit: nat)
    requires Legal(runs, limit) && RunOk(runs + [run], |runs|, limit)
    ensures Legal(runs + [run], limit)
  {
    forall i | 0 <= i < |runs| ensures RunOk(runs + [run], i, limit) {
      EarlierRunsStand(runs, run, i, limit);
    }
  }

  lemma LastRunOk(runs: seq<RunTrace>, run: RunTrace, view: View, head: seq<Key>, limit: nat)
    requires view == Viewed(ViewAfter(runs), run.discovery)
    requires |runs| > 0 ==> runs[|runs| - 1].cutoff <= run.cutoff
    requires Timely(ViewAfter(runs), run.discovery) && Timely(view, run.refresh)
    requires head == Firsts(Sorted(DueInView(view, run.cutoff)), limit)
    requires VisitedRecNos(run.refresh) == (set k | k in head :: k.minor) - VisitedRecNos(run.discovery)
    ensures RunOk(runs + [run], |runs|, limit)
  {
    var all, n := runs + [run], |runs|;
    assert all[..n] == runs;
    assert ViewAtQuery(all, n) == view;
    assert Head(all, n, limit) == head;
  }

  lemma EarlierRunsStand(runs: seq<RunTrace>, run: RunTrace, i: nat, limit: nat)
    requires i < |runs| && RunOk(runs, i, limit)
    ensures RunOk(runs + [run], i, limit)
  {
    assert (runs + [run])[..i] == runs[..i];
  }

  // ----- any number of runs on one clock -----

  /** A run: its two rounds, the query between them, the pages it read from, the cases
      that its search listed and its statistics. */
  datatype RunLog =
    RunLog(first: Log, query: Query, second: Log, pages: Pages, listed: set<RecNo>, stats: Stats)

  /** What Run promises when it reports no error. */
  ghost predicate RanWhole(run: RunLog, interval: int, limit: nat) {
    match run
    case RunLog(first, query, second, pages, listed, stats) =>
      && TwoRounds(first, second, pages) && Asked(query, first, interval, limit)
      && HaveRead(first, second, pages, listed, AsSet(query.due) - listed, stats) && stats.failures == 0
  }

  lemma WholeRunReads(run: RunLog, interval: int, limit: nat)
    requires RanWhole(run, interval, limit)
    ensures VisitedRecNos(run.second.visits) == AsSet(run.query.due) - VisitedRecNos(run.first.visits)
    ensures Logged(run.first) && Logged(run.second) && Follows(run.first, run.second)
    ensures Asked(run.query, run.first, interval, limit)
  {
  }

  function DbAfter(runs: seq<RunLog>): Db {
    if runs == [] then EMPTY else runs[|runs| - 1].second.end
  }

  /** The first run finds empty tables, a later one those that the run before it left,
      at no earlier time. */
  ghost predicate Continues(runs: seq<RunLog>, i: nat, interval: int, limit: nat)
    requires i < |runs|
  {
    match runs[i]
    case RunLog(first, _, _, _, _, _) =>
      && RanWhole(runs[i], interval, limit) && first.start == DbAfter(runs[..i])
      && (i > 0 ==> runs[i - 1].second.to <= first.from)
  }

  /** Such runs, one after another. */
  ghost predicate OneClock(runs: seq<RunLog>, interval: int, limit: nat) {
    forall i :: 0 <= i < |runs| ==> Continues(runs, i, interval, limit)
  }

  function TraceOf(run: RunLog): RunTrace {
    RunTrace(run.first.visits, run.query.cutoff, run.second.visits)
  }

  function Traces(runs: seq<RunLog>): (r: seq<RunTrace>)
    ensures |r| == |runs|
  {
    if runs == [] then [] else Traces(runs[..|runs| - 1]) + [TraceOf(runs[|runs| - 1])]
  }

  lemma {:induction false} TracesPrefix(runs: seq<RunLog>, i: nat)
    requires i <= |runs|
    ensures Traces(runs)[..i] == Traces(runs[..i])
    ensures i < |runs| ==> Traces(runs)[i] == TraceOf(runs[i])
    decreases |runs|
  {
    if i == |runs| {
      assert runs[..i] == runs;
    } else {
      var n := |runs| - 1;
      TracesPrefix(runs[..n], i);
      assert runs[..n][..i] == runs[..i];
    }
  }

  /** What fairness assumes of a history, and what the next run starts from. */
  ghost predicate Remembered(runs: seq<RunLog>, limit: nat) {
    match DbAfter(runs)
    case Db(observations, _) =>
      var traces := Traces(runs);
      && Legal(traces, limit) && Mirrors(observations, ViewAfter(traces))
      && (runs != [] ==> Before(ViewAfter(traces), runs[|runs| - 1].second.to))
  }

  /** The run can come next after these. */
  ghost predicate ComesAfter(front: seq<RunLog>, run: RunLog, interval: int, limit: nat) {
    match run
    case RunLog(first, query, _, _, _, _) =>
      && RanWhole(run, interval, limit) && first.start == DbAfter(front)
      && (front != [] ==>
            var last := front[|front| - 1];
            last.second.to <= first.from && last.query.cutoff <= query.cutoff)
  }

  lemma {:induction false} NextOnClock(runs: seq<RunLog>, i: nat, interval: int, limit: nat)
    requires OneClock(runs, interval, limit) && i < |runs|
    ensures ComesAfter(runs[..i], runs[i], interval, limit)
  {
    assert Continues(runs, i, interval, limit);
    if i > 0 {
      assert runs[..i][i - 1] == runs[i - 1] && Continues(runs, i - 1, interval, limit);
      CutOffsAdvance(runs[i - 1], runs[i], interval, limit);
    }
  }

  lemma {:induction false} RunsAreRemembered(runs: seq<RunLog>, n: nat, interval: int, limit: nat)
    requires OneClock(runs, interval, limit) && n <= |runs|
    ensures Remembered(runs[..n], limit)
    decreases n
  {
    if n > 0 {
      RunsAreRemembered(runs, n - 1, interval, limit);
      RunIsRemembered(runs, n - 1, interval, limit);
    }
  }

  lemma {:induction false} RunIsRemembered(runs: seq<RunLog>, i: nat, interval: int, limit: nat)
    requires OneClock(runs, interval, limit) && i < |runs| && Remembered(runs[..i], limit)
    ensures Remembered(runs[..i + 1], limit)
  {
    NextOnClock(runs, i, interval, limit);
    NextIsRemembered(runs[..i], runs[i], interval, limit);
    PrefixSnoc(runs, i);
  }

  lemma PrefixSnoc(runs: seq<RunLog>, i: nat)
    requires i < |runs|
    ensures runs[..i + 1] == runs[..i] + [runs[i]]
  {
  }

  lemma {:induction false} NextIsRemembered(front: seq<RunLog>, run: RunLog, interval: int, limit: nat)
    requires Remembered(front, limit) && ComesAfter(front, run, interval, limit)
    ensures Remembered(front + [run], limit)
  {
    NextExtends(front, run, Traces(front), interval, limit);
    TracesSnoc(front, run);
  }

  lemma {:induction false} NextExtends(front: seq<RunLog>, run: RunLog, traces: seq<RunTrace>, interval: int,
                                       limit: nat)
    requires Remembered(front, limit) && ComesAfter(front, run, interval, limit) && traces == Traces(front)
    ensures var all := traces + [TraceOf(run)];
            && Legal(all, limit) && Mirrors(run.second.end.observations, ViewAfter(all))
            && Before(ViewAfter(all), run.second.to)
  {
    if front != [] {
      TracesPrefix(front, |front| - 1);
    }
    WholeRunReads(run, interval, limit);
    RunExtendsHistory(traces, run.first, run.query, run.second);
  }

  lemma {:induction false} TracesSnoc(front: seq<RunLog>, run: RunLog)
    ensures Traces(front + [run]) == Traces(front) + [TraceOf(run)]
  {
    assert (front + [run])[..|front|] == front;
  }

  lemma {:induction false} CutOffsAdvance(before: RunLog, run: RunLog, interval: int, limit: nat)
    requires RanWhole(before, interval, limit) && RanWhole(run, interval, limit)
    requires before.second.to <= run.first.from
    ensures before.query.cutoff <= run.query.cutoff
  {
    WholeRunReads(before, interval, limit);
    WholeRunReads(run, interval, limit);
    IncreasingWidens(before.second.visits, before.second.from, before.second.to, before.second.to);
    IncreasingWidens(run.first.visits, run.first.from, run.first.to, run.first.to);
  }

  /** The query of run i sees the cases as they were last seen. */
  lemma {:induction false} QueryFollowsLastSeen(runs: seq<RunLog>, i: nat, interval: int, limit: nat)
    requires OneClock(runs, interval, limit) && i < |runs|
    ensures DueKeys(runs[i].query.obs, runs[i].query.cutoff) ==
            DueInView(ViewAtQuery(Traces(runs), i), Traces(runs)[i].cutoff)
    ensures Traces(runs)[i] == TraceOf(runs[i])
  {
    RunsAreRemembered(runs, i, interval, limit);
    NextOnClock(runs, i, interval, limit);
    WholeRunReads(runs[i], interval, limit);
    TracesPrefix(runs, i);
    var view := ViewAfter(Traces(runs[..i]));
    assert Before(view, runs[i].first.from);
    VisitsMirrored(DbAfter(runs[..i]), view, runs[i].first);
    QueueFollowsLastSeen(runs[i].query.obs, ViewAtQuery(Traces(runs), i), runs[i].query.cutoff);
  }

  lemma {:induction false} VisitsMirrored(db: Db, view: View, log: Log)
    requires Mirrors(db.observations, view) && Logged(log) && log.start == db
    requires Before(view, log.from)
    ensures Mirrors(log.end.observations, Viewed(view, log.visits))
  {
    KeptObserves(Derived, log.start, log.visits);
    VisitsOfARun(db.observations, view, log.visits, log.from, log.to);
  }

  /** A case due in the queue of some run, with n due cases in front of it, is read by
      one of the next n / limit runs at the latest: fairness from what Run promises. */
  lemma {:induction false} RunsAreFair(runs: seq<RunLog>, i: nat, interval: int, limit: nat, k: Key)
    requires OneClock(runs, interval, limit) && limit >= 1 && i < |runs|
    requires k in DueKeys(runs[i].query.obs, runs[i].query.cutoff)
    ensures var n := |set x | x in DueKeys(runs[i].query.obs, runs[i].query.cutoff) && Less(x, k)|;
            i + n / limit < |runs| ==> exists j :: i <= j <= i + n / limit && ReadIn(runs, j, k.minor)
  {
    RunsAreRemembered(runs, |runs|, interval, limit);
    assert runs[..|runs|] == runs;
    QueryFollowsLastSeen(runs, i, interval, limit);
    var traces := Traces(runs);
    var view, due := ViewAtQuery(traces, i), DueKeys(runs[i].query.obs, runs[i].query.cutoff);
    assert k == Key(view[k.minor].at, k.minor);
    RefreshIsFair(traces, i, limit, k.minor);
    assert InFront(view, traces[i].cutoff, k) == set x | x in due && Less(x, k);
    var n := |InFront(view, traces[i].cutoff, k)|;
    if i + n / limit < |runs| {
      var j :| i <= j <= i + n / limit && ReadInRun(traces[j], k.minor);
      TracesPrefix(runs, j);
      assert ReadIn(runs, j, k.minor);
    }
  }

  predicate ReadIn(runs: seq<RunLog>, j: int, r: RecNo) {
    0 <= j < |runs| && (r in VisitedRecNos(runs[j].first.visits) || r in VisitedRecNos(runs[j].second.visits))
  }

  // ----- a run as persists of the event store -----

  function OpsOf(visits: seq<Visit>): seq<Op> {
    if visits == [] then [] else
      var v := visits[|visits| - 1];
      OpsOf(visits[..|visits| - 1]) + [Op(CaseState(v.c), v.freshId, v.now)]
  }

  lemma {:induction false} KeptRuns(says: Saying, db: Db, visits: seq<Visit>, firstId: ObsId, nextId: ObsId)
    requires Numbered(visits, firstId, nextId) && IdsBelow(db.observations, firstId)
    ensures RunBy(says, db, OpsOf(visits)) == Some(Kept(says, db, visits))
    ensures IdsBelow(Kept(says, db, visits).observations, nextId)
    decreases |visits|
  {
    if visits != [] {
      var n := |visits| - 1;
      KeptRuns(says, db, visits[..n], firstId, visits[n].freshId);
      var ops := OpsOf(visits);
      assert ops[..|ops| - 1] == OpsOf(visits[..n]);
    }
  }

  /** What the visits of a run leave is a run of the event store, so all that is proved
      of those holds of the ingester. */
  lemma LogIsRun(log: Log)
    requires Logged(log) && IdsBelow(log.start.observations, log.firstId)
    ensures EventStore.Run(log.start, OpsOf(log.visits), false) == Some(log.end)
    ensures IdsBelow(log.end.observations, log.nextId)
  {
    KeptRuns(Derived, log.start, log.visits, log.firstId, log.nextId);
    RunByRecord(log.start, OpsOf(log.visits));
  }

  /** In particular events stay backed by the observations they point to. */
  lemma LogAgrees(log: Log)
    requires Logged(log) && IdsBelow(log.start.observations, log.firstId) && Agrees(log.start)
    ensures Agrees(log.end)
  {
    LogIsRun(log);
    Agreement.EventsAgree(log.start, OpsOf(log.visits));
  }

  // ----- running again -----

  function Joined(first: Log, second: Log): Log {
    Log(first.start, first.from, first.firstId, first.visits + second.visits, second.end, second.to, second.nextId)
  }

  /** The two rounds of a run are one stretch of visits. */
  lemma JoinedIsLogged(says: Saying, first: Log, second: Log)
    requires LoggedBy(says, first) && LoggedBy(says, second) && Follows(first, second)
    ensures LoggedBy(says, Joined(first, second))
  {
    VisitsJoin(says, first, second.visits, second.to, second.nextId);
  }

  lemma {:induction false} VisitsJoin(says: Saying, first: Log, visits: seq<Visit>, to: int, nextId: ObsId)
    requires LoggedBy(says, first) && AllSay(says, visits)
    requires Increasing(visits, first.to, to) && Numbered(visits, first.nextId, nextId)
    ensures var all := first.visits + visits;
            && Kept(says, first.start, all) == Kept(says, first.end, visits)
            && Increasing(all, first.from, to) && Numbered(all, first.firstId, nextId)
    decreases |visits|
  {
    if visits == [] {
      assert first.visits + visits == first.visits;
      IncreasingWidens(first.visits, first.from, first.to, to);
      NumberedWidens(first.visits, first.firstId, first.nextId, nextId);
    } else {
      var n := |visits| - 1;
      VisitsJoin(says, first, visits[..n], visits[n].now, visits[n].freshId);
      assert (first.visits + visits)[..|first.visits| + n] == first.visits + visits[..n];
    }
  }

  lemma {:induction false} OpOfVisit(visits: seq<Visit>, i: nat)
    requires i < |visits|
    ensures |OpsOf(visits)| == |visits| && OpsOf(visits)[i].payload == CaseState(visits[i].c)
    decreases |visits|
  {
    var n := |visits| - 1;
    if i < n {
      OpOfVisit(visits[..n], i);
    } else {
      OpsLength(visits[..n]);
    }
  }

  lemma {:induction false} OpsLength(visits: seq<Visit>)
    ensures |OpsOf(visits)| == |visits|
    decreases |visits|
  {
    if visits != [] {
      OpsLength(visits[..|visits| - 1]);
    }
  }

  lemma {:induction false} VisitOf(visits: seq<Visit>, n: RecNo) returns (i: nat)
    requires n in VisitedRecNos(visits)
    ensures i < |visits| && visits[i].c.recNo == n
    decreases |visits|
  {
    var last := |visits| - 1;
    if visits[last].c.recNo == n {
      i := last;
    } else {
      i := VisitOf(visits[..last], n);
    }
  }

  lemma {:induction false} VisitedHas(visits: seq<Visit>, i: nat)
    requires i < |visits|
    ensures visits[i].c.recNo in VisitedRecNos(visits)
    decreases |visits|
  {
    if i < |visits| - 1 {
      VisitedHas(visits[..|visits| - 1], i);
    }
  }

  lemma PagesShowOneState(visits: seq<Visit>, pages: Pages)
    requires FromPages(visits, pages)
    ensures Agreement.SingleState(OpsOf(visits))
  {
    OpsLength(visits);
    forall i, j | 0 <= i < |visits| && 0 <= j < |visits|
                  && RecordOf(OpsOf(visits)[i].payload) == RecordOf(OpsOf(visits)[j].payload)
      ensures OpsOf(visits)[i].payload == OpsOf(visits)[j].payload
    {
      OpOfVisit(visits, i);
      OpOfVisit(visits, j);
    }
  }

  lemma PagesReadBefore(visits: seq<Visit>, again: seq<Visit>, pages: Pages)
    requires FromPages(visits, pages) && FromPages(again, pages) && VisitedRecNos(again) <= VisitedRecNos(visits)
    ensures Agreement.OnlyStatesOf(OpsOf(visits), OpsOf(again))
  {
    OpsLength(visits);
    OpsLength(again);
    forall j | 0 <= j < |again| ensures Agreement.PersistedIn(OpsOf(visits), OpsOf(again)[j].payload) {
      VisitedHas(again, j);
      var i := VisitOf(visits, again[j].c.recNo);
      OpOfVisit(visits, i);
      OpOfVisit(again, j);
    }
  }

  /** Reading again only cases already read, from a source that has not changed,
      changes nothing but when they were last seen. */
  lemma ReadingAgainOnlySees(a: Log, b: Log, pages: Pages)
    requires Logged(a) && Logged(b) && b.start == a.end && a.nextId <= b.firstId
    requires IdsBelow(a.start.observations, a.firstId)
    requires FromPages(a.visits, pages) && FromPages(b.visits, pages)
    requires VisitedRecNos(b.visits) <= VisitedRecNos(a.visits)
    ensures b.end.events == a.end.events && Agreement.SameButSeen(a.end.observations, b.end.observations)
  {
    LogIsRun(a);
    LogIsRun(b);
    PagesShowOneState(a.visits, pages);
    PagesReadBefore(a.visits, b.visits, pages);
    Agreement.RerunOnlySeesAgain(a.start, OpsOf(a.visits), OpsOf(b.visits));
  }

  /** So a second run of the ingester over unchanged pages, which reads no case that
      the first one did not, leaves the events as they are. */
  lemma RerunOnlySeesAgain(first: Log, second: Log, first': Log, second': Log, pages: Pages)
    requires Logged(first) && Logged(second) && Follows(first, second)
    requires Logged(first') && Logged(second') && Follows(first', second') && Follows(second, first')
    requires IdsBelow(first.start.observations, first.firstId)
    requires FromPages(first.visits + second.visits, pages) && FromPages(first'.visits + second'.visits, pages)
    requires VisitedRecNos(first'.visits + second'.visits) <= VisitedRecNos(first.visits + second.visits)
    ensures second'.end.events == second.end.events
    ensures Agreement.SameButSeen(second.end.observations, second'.end.observations)
  {
    JoinedIsLogged(Derived, first, second);
    JoinedIsLogged(Derived, first', second');
    ReadingAgainOnlySees(Joined(first, second), Joined(first', second'), pages);
  }
}
