/** The open-case refresh queue and its fairness (openCasesDue and Run in
    internal/source/stockholm/ingest.go). */
module RefreshQueue {
  import opened Keys
  import opened Totals
  import opened PublicEvent
  import opened Stockholm
  import opened EventStore

  // ----- the query -----

  function SeenKey(o: Observation): Key {
    Key(o.lastObservedAt, o.id)
  }

  /** The row DISTINCT ON keeps: the latest last_observed_at, then the latest id. */
  predicate IsLatest(obs: map<Payload, Observation>, c: Case) {
    && CaseState(c) in obs
    && forall p :: p in obs && p.CaseState? && p.c.recNo == c.recNo && p.c != c ==>
         Less(SeenKey(obs[p]), SeenKey(obs[CaseState(c)]))
  }

  /** Open cases last confirmed before the cut-off, as sort keys of the queue. */
  function DueKeys(obs: map<Payload, Observation>, cutoff: int): set<Key> {
    set p | p in obs && p.CaseState? && IsLatest(obs, p.c) && p.c.closedOn == "" && obs[p].lastObservedAt < cutoff
          :: Key(obs[p].lastObservedAt, p.c.recNo)
  }

  function Firsts(keys: seq<Key>, limit: nat): seq<Key> {
    if |keys| > limit then keys[..limit] else keys
  }

  function RecNos(keys: seq<Key>): (r: seq<RecNo>)
    ensures |r| == |keys|
    ensures forall i :: 0 <= i < |keys| ==> r[i] == keys[i].minor
  {
    seq(|keys|, i requires 0 <= i < |keys| => keys[i].minor)
  }

  /** What the query returns: the oldest-checked cases, at most `limit`. */
  function OpenCasesDue(obs: map<Payload, Observation>, cutoff: int, limit: nat): seq<RecNo> {
    RecNos(Firsts(Sorted(DueKeys(obs, cutoff)), limit))
  }

  // ----- the state each case was last seen in -----

  /** One successful read and persist of a case page. */
  datatype Visit = Visit(c: Case, freshId: ObsId, now: int)

  datatype Seen = Seen(c: Case, at: int)

  type View = map<RecNo, Seen>

  function Viewed(view: View, visits: seq<Visit>): View {
    if visits == [] then view else
      var v := visits[|visits| - 1];
      Viewed(view, visits[..|visits| - 1])[v.c.recNo := Seen(v.c, v.now)]
  }

  function Observed(obs: map<Payload, Observation>, visits: seq<Visit>): map<Payload, Observation> {
    if visits == [] then obs else
      var v := visits[|visits| - 1];
      Recorded(Observed(obs, visits[..|visits| - 1]), CaseState(v.c), v.freshId, v.now)
  }

  /** Transaction times strictly increase: each visit is later than everything seen. */
  predicate Timely(view: View, visits: seq<Visit>) {
    visits == [] ||
    var before := Viewed(view, visits[..|visits| - 1]);
    && Timely(view, visits[..|visits| - 1])
    && forall r :: r in before ==> before[r].at < visits[|visits| - 1].now
  }

  function DueInView(view: View, cutoff: int): set<Key> {
    set r | r in view && view[r].c.closedOn == "" && view[r].at < cutoff :: Key(view[r].at, r)
  }

  /** The view and the observations tell the same story: the last seen state of a
      case has the strictly latest time of all its states. */
  predicate Mirrors(obs: map<Payload, Observation>, view: View) {
    && (forall r :: r in view ==>
        view[r].c.recNo == r && CaseState(view[r].c) in obs && obs[CaseState(view[r].c)].lastObservedAt == view[r].at)
    && (forall p :: p in obs && p.CaseState? ==>
          && p.c.recNo in view
          && (p.c != view[p.c.recNo].c ==> obs[p].lastObservedAt < view[p.c.recNo].at))
  }

  lemma {:induction false} VisitsMirror(obs: map<Payload, Observation>, view: View, visits: seq<Visit>)
    requires Mirrors(obs, view) && Timely(view, visits)
    ensures Mirrors(Observed(obs, visits), Viewed(view, visits))
    decreases |visits|
  {
    if visits != [] {
      VisitsMirror(obs, view, visits[..|visits| - 1]);
    }
  }

  lemma LatestIsLastSeen(obs: map<Payload, Observation>, view: View, c: Case)
    requires Mirrors(obs, view)
    ensures IsLatest(obs, c) <==> c.recNo in view && view[c.recNo].c == c
  {
    if CaseState(c) in obs {
      var last := view[c.recNo].c;
      assert CaseState(last) in obs;
      if c != last {
        assert !Less(SeenKey(obs[CaseState(last)]), SeenKey(obs[CaseState(c)]));
      }
    }
  }

  /** The queue holds exactly the cases whose most recently seen state is open and
      was seen before the cut-off. A case seen closed last is never in it, one seen
      open again after closing is, although its observation is an old row. */
  lemma QueueFollowsLastSeen(obs: map<Payload, Observation>, view: View, cutoff: int)
    requires Mirrors(obs, view)
    ensures DueKeys(obs, cutoff) == DueInView(view, cutoff)
    ensures forall r, at :: Key(at, r) in DueKeys(obs, cutoff) <==>
              r in view && view[r].at == at && at < cutoff && view[r].c.closedOn == ""
  {
    forall k ensures k in DueKeys(obs, cutoff) <==> k in DueInView(view, cutoff) {
      if k in DueKeys(obs, cutoff) {
        var p :| p in obs && p.CaseState? && IsLatest(obs, p.c) && p.c.closedOn == "" && obs[p].lastObservedAt < cutoff
                 && k == Key(obs[p].lastObservedAt, p.c.recNo);
        LatestIsLastSeen(obs, view, p.c);
      }
      if k in DueInView(view, cutoff) {
        var c := view[k.minor].c;
        LatestIsLastSeen(obs, view, c);
        assert CaseState(c) in obs;
      }
    }
  }

  /** The queue is read from the case seen longest ago on. */
  lemma QueueIsOrdered(obs: map<Payload, Observation>, view: View, cutoff: int, limit: nat, i: nat, j: nat)
    requires Mirrors(obs, view) && i < j < |OpenCasesDue(obs, cutoff, limit)|
    ensures var due := OpenCasesDue(obs, cutoff, limit);
            && due[i] in view && due[j] in view
            && (view[due[i]].at < view[due[j]].at || (view[due[i]].at == view[due[j]].at && due[i] < due[j]))
    ensures |OpenCasesDue(obs, cutoff, limit)| <= limit
  {
    QueueFollowsLastSeen(obs, view, cutoff);
    var keys := Sorted(DueKeys(obs, cutoff));
    SortedIsAscending(DueKeys(obs, cutoff));
    assert keys[i] in DueInView(view, cutoff) && keys[j] in DueInView(view, cutoff);
  }

  // ----- without any assumption on times -----

  /** The last seen state of each known case is stored under its time, and ids tell
      the rows apart. Times may repeat and step back. */
  predicate Recalls(obs: map<Payload, Observation>, view: View) {
    && IdsDistinct(obs)
    && (forall r :: r in view ==>
          && view[r].c.recNo == r && CaseState(view[r].c) in obs
          && obs[CaseState(view[r].c)].lastObservedAt == view[r].at)
    && (forall p :: p in obs && p.CaseState? ==> p.c.recNo in view)
  }

  predicate FreshIds(obs: map<Payload, Observation>, visits: seq<Visit>) {
    visits == [] ||
    var before := Observed(obs, visits[..|visits| - 1]);
    && FreshIds(obs, visits[..|visits| - 1])
    && forall p :: p in before ==> before[p].id != visits[|visits| - 1].freshId
  }

  lemma {:induction false} VisitsRecall(obs: map<Payload, Observation>, view: View, visits: seq<Visit>)
    requires Recalls(obs, view) && FreshIds(obs, visits)
    ensures Recalls(Observed(obs, visits), Viewed(view, visits))
    decreases |visits|
  {
    if visits != [] {
      var front, v := visits[..|visits| - 1], visits[|visits| - 1];
      VisitsRecall(obs, view, front);
      VisitRecalls(Observed(obs, front), Viewed(view, front), v);
    }
  }

  lemma VisitRecalls(obs: map<Payload, Observation>, view: View, v: Visit)
    requires Recalls(obs, view) && forall p :: p in obs ==> obs[p].id != v.freshId
    ensures Recalls(Recorded(obs, CaseState(v.c), v.freshId, v.now), view[v.c.recNo := Seen(v.c, v.now)])
  {
  }

  /** Of the states of a case there is one row that DISTINCT ON keeps. */
  lemma {:induction false} LatestOf(obs: map<Payload, Observation>, states: set<Payload>) returns (latest: Payload)
    requires IdsDistinct(obs) && states != {} && forall p :: p in states ==> p in obs
    ensures latest in states
    ensures forall p :: p in states && p != latest ==> Less(SeenKey(obs[p]), SeenKey(obs[latest]))
    decreases |states|
  {
    var p :| p in states;
    latest := p;
    if states - {p} != {} {
      var other := LatestOf(obs, states - {p});
      assert obs[p].id != obs[other].id;
      if Less(SeenKey(obs[p]), SeenKey(obs[other])) {
        latest := other;
      }
    }
    forall q | q in states && q != latest ensures Less(SeenKey(obs[q]), SeenKey(obs[latest])) {
      assert q == p || q in states - {p};
    }
  }

  lemma LatestExists(obs: map<Payload, Observation>, c: Case) returns (latest: Case)
    requires IdsDistinct(obs) && CaseState(c) in obs
    ensures latest.recNo == c.recNo && IsLatest(obs, latest)
  {
    var states := set p | p in obs && p.CaseState? && p.c.recNo == c.recNo;
    assert CaseState(c) in states;
    var p := LatestOf(obs, states);
    latest := p.c;
    forall q | q in obs && q.CaseState? && q.c.recNo == latest.recNo && q.c != latest
      ensures Less(SeenKey(obs[q]), SeenKey(obs[CaseState(latest)]))
    {
      assert q in states;
    }
  }

  lemma LatestIsUnique(obs: map<Payload, Observation>, c: Case, d: Case)
    requires IsLatest(obs, c) && IsLatest(obs, d) && c.recNo == d.recNo
    ensures c == d
  {
    assert c != d ==> Less(SeenKey(obs[CaseState(d)]), SeenKey(obs[CaseState(c)]));
  }

  /** The queue cannot tell this row from the last seen state of its case. */
  predicate PassesForLastSeen(obs: map<Payload, Observation>, view: View, c: Case)
    requires CaseState(c) in obs
  {
    && c.recNo in view
    && var last := view[c.recNo];
       || c == last.c
       || (c.closedOn != "" && last.c.closedOn != "")
       || (c.closedOn == "" && last.c.closedOn == "" && obs[CaseState(c)].lastObservedAt == last.at)
  }

  /** The rows that DISTINCT ON keeps all pass for the last seen states. */
  ghost predicate LatestRowsPass(obs: map<Payload, Observation>, view: View) {
    forall c :: IsLatest(obs, c) ==> PassesForLastSeen(obs, view, c)
  }

  lemma DueOfPassing(obs: map<Payload, Observation>, view: View, cutoff: int)
    requires Recalls(obs, view) && LatestRowsPass(obs, view)
    ensures DueKeys(obs, cutoff) == DueInView(view, cutoff)
  {
    forall k ensures k in DueKeys(obs, cutoff) <==> k in DueInView(view, cutoff) {
      if k in DueKeys(obs, cutoff) {
        var p :| p in obs && p.CaseState? && IsLatest(obs, p.c) && p.c.closedOn == "" && obs[p].lastObservedAt < cutoff
                 && k == Key(obs[p].lastObservedAt, p.c.recNo);
        assert PassesForLastSeen(obs, view, p.c);
      }
      if k in DueInView(view, cutoff) {
        var c := LatestExists(obs, view[k.minor].c);
        assert PassesForLastSeen(obs, view, c);
        assert CaseState(c) in obs;
      }
    }
  }

  /** Of a closed latest row no key is due. */
  lemma ClosedIsNotDue(obs: map<Payload, Observation>, c: Case, cutoff: int, k: Key)
    requires IsLatest(obs, c) && c.closedOn != "" && k.minor == c.recNo
    ensures k !in DueKeys(obs, cutoff)
  {
    forall p | p in obs && p.CaseState? && IsLatest(obs, p.c) && p.c.recNo == c.recNo ensures p.c.closedOn != "" {
      LatestIsUnique(obs, p.c, c);
    }
  }

  lemma PassingOfDue(obs: map<Payload, Observation>, view: View, c: Case)
    requires Recalls(obs, view) && IsLatest(obs, c)
    requires forall cutoff :: DueKeys(obs, cutoff) == DueInView(view, cutoff)
    ensures PassesForLastSeen(obs, view, c)
  {
    var at, last := obs[CaseState(c)].lastObservedAt, view[c.recNo];
    if c.closedOn == "" {
      var k := Key(at, c.recNo);
      assert k in DueKeys(obs, at + 1) by {
        assert CaseState(c) in obs;
      }
      assert k in DueInView(view, at + 1);
    } else {
      var k := Key(last.at, c.recNo);
      ClosedIsNotDue(obs, c, last.at + 1, k);
      assert k !in DueInView(view, last.at + 1);
    }
  }

  /** The queue holds, at every cut-off, exactly the cases last seen open before it,
      if and only if the row kept of each case is the last seen state, or is closed
      as that is, or is open and of the same time. */
  lemma QueueFollowsLastSeenIff(obs: map<Payload, Observation>, view: View)
    requires Recalls(obs, view)
    ensures (forall cutoff :: DueKeys(obs, cutoff) == DueInView(view, cutoff)) <==> LatestRowsPass(obs, view)
  {
    if LatestRowsPass(obs, view) {
      forall cutoff ensures DueKeys(obs, cutoff) == DueInView(view, cutoff) {
        DueOfPassing(obs, view, cutoff);
      }
    }
    if forall cutoff :: DueKeys(obs, cutoff) == DueInView(view, cutoff) {
      forall c | IsLatest(obs, c) ensures PassesForLastSeen(obs, view, c) {
        PassingOfDue(obs, view, c);
      }
    }
  }

  /** So it is after any visits, whatever their times. */
  lemma AnyVisitsIff(visits: seq<Visit>)
    requires FreshIds(map[], visits)
    ensures var obs, view := Observed(map[], visits), Viewed(map[], visits);
            (forall cutoff :: DueKeys(obs, cutoff) == DueInView(view, cutoff)) <==> LatestRowsPass(obs, view)
  {
    VisitsRecall(map[], map[], visits);
    QueueFollowsLastSeenIff(Observed(map[], visits), Viewed(map[], visits));
  }

  /** Strictly increasing times are enough. */
  lemma TimelyVisitsPass(visits: seq<Visit>)
    requires Timely(map[], visits)
    ensures LatestRowsPass(Observed(map[], visits), Viewed(map[], visits))
  {
    var obs, view := Observed(map[], visits), Viewed(map[], visits);
    VisitsMirror(map[], map[], visits);
    forall c | IsLatest(obs, c) ensures PassesForLastSeen(obs, view, c) {
      LatestIsLastSeen(obs, view, c);
    }
  }

  /** A case seen closed, open and closed again, the last time by a clock that did not
      advance, is queued although it was last seen closed. */
  lemma ClockStepsBack(c: Case, at: int, back: int)
    requires c.closedOn == "" && back <= at
    ensures var closed := c.(closedOn := "2026-01-01");
            var visits := [Visit(closed, 1, 10), Visit(c, 2, at), Visit(closed, 3, back)];
            && FreshIds(map[], visits)
            && Viewed(map[], visits)[c.recNo] == Seen(closed, back)
            && Key(at, c.recNo) in DueKeys(Observed(map[], visits), at + 1)
  {
    var closed := c.(closedOn := "2026-01-01");
    var v1, v2, v3 := Visit(closed, 1, 10), Visit(c, 2, at), Visit(closed, 3, back);
    var visits := [v1, v2, v3];
    assert visits[..2] == [v1, v2] && [v1, v2][..1] == [v1] && [v1][..0] == [];
    assert FreshIds(map[], [v1]);
    assert Observed(map[], [v1]) == map[CaseState(closed) := Observation(1, 10, 10)];
    assert FreshIds(map[], [v1, v2]);
    assert Observed(map[], [v1, v2]) ==
           map[CaseState(closed) := Observation(1, 10, 10), CaseState(c) := Observation(2, at, at)];
    var obs := Observed(map[], visits);
    assert obs == map[CaseState(closed) := Observation(1, 10, back), CaseState(c) := Observation(2, at, at)];
    assert IsLatest(obs, c);
    assert CaseState(c) in obs;
  }

  // ----- fairness -----

  /** One complete run without persist failures: the visits of discovery, the
      cut-off of the queue query, and the visits of the refresh. */
  datatype RunTrace = RunTrace(discovery: seq<Visit>, cutoff: int, refresh: seq<Visit>)

  function VisitedRecNos(visits: seq<Visit>): set<RecNo> {
    if visits == [] then {} else VisitedRecNos(visits[..|visits| - 1]) + {visits[|visits| - 1].c.recNo}
  }

  function ViewAfter(runs: seq<RunTrace>): View {
    if runs == [] then map[] else
      var last := runs[|runs| - 1];
      Viewed(Viewed(ViewAfter(runs[..|runs| - 1]), last.discovery), last.refresh)
  }

  /** The view when run i queries the queue. */
  function ViewAtQuery(runs: seq<RunTrace>, i: nat): View
    requires i < |runs|
  {
    Viewed(ViewAfter(runs[..i]), runs[i].discovery)
  }

  /** The cases at the head of the queue when run i queries it. */
  function Head(runs: seq<RunTrace>, i: nat, limit: nat): seq<Key>
    requires i < |runs|
  {
    Firsts(Sorted(DueInView(ViewAtQuery(runs, i), runs[i].cutoff)), limit)
  }

  /** Run i visits, after discovery, every case at the head that discovery left. */
  predicate RunOk(runs: seq<RunTrace>, i: nat, limit: nat)
    requires i < |runs|
  {
    && Timely(ViewAfter(runs[..i]), runs[i].discovery)
    && Timely(ViewAtQuery(runs, i), runs[i].refresh)
    && (i > 0 ==> runs[i - 1].cutoff <= runs[i].cutoff)
    && VisitedRecNos(runs[i].refresh)
         == (set k | k in Head(runs, i, limit) :: k.minor) - VisitedRecNos(runs[i].discovery)
  }

  predicate Legal(runs: seq<RunTrace>, limit: nat) {
    forall i :: 0 <= i < |runs| ==> RunOk(runs, i, limit)
  }

  /** The due cases in front of a key in the queue. */
  function InFront(view: View, cutoff: int, k: Key): set<Key> {
    set x | x in DueInView(view, cutoff) && Less(x, k)
  }

  /** What visits do to a view: visited cases are seen later than everything before,
      the others are as they were. */
  lemma {:induction false} VisitsMoveOn(view: View, visits: seq<Visit>, r: RecNo)
    requires Timely(view, visits)
    ensures r !in VisitedRecNos(visits) ==>
              (r in Viewed(view, visits) <==> r in view) && (r in view ==> Viewed(view, visits)[r] == view[r])
    ensures r in VisitedRecNos(visits) ==> r in Viewed(view, visits) && forall q :: q in view ==>
              view[q].at < Viewed(view, visits)[r].at
    decreases |visits|
  {
    if visits != [] {
      var n := |visits| - 1;
      var front := visits[..n];
      VisitsMoveOn(view, front, r);
      forall q | q in view ensures view[q].at < visits[n].now {
        VisitsGrow(view, front, q);
      }
    }
  }

  lemma {:induction false} VisitsGrow(view: View, visits: seq<Visit>, q: RecNo)
    requires Timely(view, visits) && q in view
    ensures q in Viewed(view, visits) && view[q].at <= Viewed(view, visits)[q].at
    decreases |visits|
  {
    if visits != [] {
      VisitsGrow(view, visits[..|visits| - 1], q);
    }
  }

  /** A due case that is not at the head has a full head in front of it. */
  lemma HeadOfSorted(rows: seq<Key>, head: seq<Key>, due: set<Key>, k: Key, limit: nat)
    requires Ascending(rows) && (forall x :: x in rows <==> x in due) && head == Firsts(rows, limit)
    requires k in due && k !in head
    ensures forall x :: x in head ==> x in due && Less(x, k)
    ensures |set x | x in head| == limit
  {
    HeadOfAscending(rows, k, limit);
    AscendingElements(head);
  }

  lemma HeadOfAscending(rows: seq<Key>, k: Key, limit: nat)
    requires Ascending(rows) && k in rows && k !in Firsts(rows, limit)
    ensures var head := Firsts(rows, limit);
            && |head| == limit && Ascending(head)
            && forall x :: x in head ==> x in rows && Less(x, k)
  {
    var i :| 0 <= i < |rows| && rows[i] == k;
    var head := Firsts(rows, limit);
    assert forall j :: 0 <= j < |head| ==> head[j] == rows[j];
    assert |head| <= i;
  }

  lemma {:induction false} AscendingElements(r: seq<Key>)
    requires Ascending(r)
    ensures |set x | x in r| == |r|
    decreases |r|
  {
    if r != [] {
      var n := |r| - 1;
      AscendingElements(r[..n]);
      assert r == r[..n] + [r[n]];
      assert (set x | x in r) == (set x | x in r[..n]) + {r[n]};
      assert r[n] !in r[..n];
    } else {
      assert (set x | x in r) == {};
    }
  }

  /** If run i leaves a due case unread and the next discovery does too, the case is
      due again with the same key and at least `limit` fewer cases in front. */
  lemma QueueAdvances(runs: seq<RunTrace>, i: nat, limit: nat, r: RecNo)
    requires Legal(runs, limit) && i + 1 < |runs|
    requires r in ViewAtQuery(runs, i)
    requires Key(ViewAtQuery(runs, i)[r].at, r) in DueInView(ViewAtQuery(runs, i), runs[i].cutoff)
    requires r !in VisitedRecNos(runs[i].discovery) && r !in VisitedRecNos(runs[i].refresh)
    requires r !in VisitedRecNos(runs[i + 1].discovery)
    ensures r in ViewAtQuery(runs, i + 1) && ViewAtQuery(runs, i + 1)[r] == ViewAtQuery(runs, i)[r]
    ensures var k := Key(ViewAtQuery(runs, i)[r].at, r);
            && k in DueInView(ViewAtQuery(runs, i + 1), runs[i + 1].cutoff)
            && |InFront(ViewAtQuery(runs, i + 1), runs[i + 1].cutoff, k)| + limit
               <= |InFront(ViewAtQuery(runs, i), runs[i].cutoff, k)|
  {
    var before, view, after, next :=
      ViewAfter(runs[..i]), ViewAtQuery(runs, i), ViewAfter(runs[..i + 1]), ViewAtQuery(runs, i + 1);
    assert RunOk(runs, i, limit) && RunOk(runs, i + 1, limit);
    assert runs[..i + 1][..i] == runs[..i];
    assert after == Viewed(view, runs[i].refresh);
    VisitsMoveOn(before, runs[i].discovery, r);
    VisitsMoveOn(view, runs[i].refresh, r);
    VisitsMoveOn(after, runs[i + 1].discovery, r);
    var k := Key(view[r].at, r);
    var head := Head(runs, i, limit);
    HeadWasRead(runs, i, limit, r);
    FrontShrinks(view, runs[i].refresh, runs[i + 1].discovery, next, runs[i].cutoff, runs[i + 1].cutoff, head, r,
                 limit);
  }

  /** The head is read and nothing new gets in front of an unread r. */
  lemma FrontShrinks(view: View, refresh: seq<Visit>, discovery: seq<Visit>, next: View, cutoff: int, cutoff': int,
                     head: seq<Key>, r: RecNo, limit: nat)
    requires Timely(view, refresh) && Timely(Viewed(view, refresh), discovery)
    requires next == Viewed(Viewed(view, refresh), discovery)
    requires r in view && r !in VisitedRecNos(refresh) && r !in VisitedRecNos(discovery)
    requires view[r].at < cutoff && |set x | x in head| == limit
    requires forall x :: x in head ==>
               x in DueInView(view, cutoff) && Less(x, Key(view[r].at, r)) && x.minor in VisitedRecNos(refresh)
    ensures |InFront(next, cutoff', Key(view[r].at, r))| + limit <= |InFront(view, cutoff, Key(view[r].at, r))|
  {
    var k := Key(view[r].at, r);
    var front, front' := InFront(view, cutoff, k), InFront(next, cutoff', k);
    var read := set x | x in head;
    forall x | x in front' ensures x in front - read {
      StillWaiting(view, refresh, discovery, x.minor, r);
      assert x in DueInView(view, cutoff) && x !in head;
    }
    assert read <= front && front' <= front - read;
    SubsetSize(front', front - read);
  }

  /** Everything at the head of a queue that leaves r unread is in front of r and is
      read by the refresh: discovery cannot have read it, or it would be behind. */
  lemma HeadWasRead(runs: seq<RunTrace>, i: nat, limit: nat, r: RecNo)
    requires Legal(runs, limit) && i < |runs|
    requires r in ViewAtQuery(runs, i)
    requires Key(ViewAtQuery(runs, i)[r].at, r) in DueInView(ViewAtQuery(runs, i), runs[i].cutoff)
    requires r !in VisitedRecNos(runs[i].discovery) && r !in VisitedRecNos(runs[i].refresh)
    ensures var k := Key(ViewAtQuery(runs, i)[r].at, r);
            var head := Head(runs, i, limit);
            && (forall x :: x in head ==> x in DueInView(ViewAtQuery(runs, i), runs[i].cutoff) && Less(x, k))
            && (forall x :: x in head ==> x.minor in VisitedRecNos(runs[i].refresh))
            && |set x | x in head| == limit
  {
    var view := ViewAtQuery(runs, i);
    var k := Key(view[r].at, r);
    assert RunOk(runs, i, limit);
    var head := Head(runs, i, limit);
    assert r !in (set x | x in head :: x.minor);
    assert k !in head by {
      assert forall x :: x in head ==> x.minor in (set y | y in head :: y.minor);
    }
    SortedIsAscending(DueInView(view, runs[i].cutoff));
    HeadOfSorted(Sorted(DueInView(view, runs[i].cutoff)), head, DueInView(view, runs[i].cutoff), k, limit);
    VisitsMoveOn(ViewAfter(runs[..i]), runs[i].discovery, r);
    forall x | x in head ensures x.minor in VisitedRecNos(runs[i].refresh) {
      VisitsMoveOn(ViewAfter(runs[..i]), runs[i].discovery, x.minor);
      assert x.minor in (set y | y in head :: y.minor);
    }
  }

  /** A case in front of an unread r after more visits was there before them, unvisited. */
  lemma StillWaiting(view: View, refresh: seq<Visit>, discovery: seq<Visit>, x: RecNo, r: RecNo)
    requires Timely(view, refresh) && Timely(Viewed(view, refresh), discovery)
    requires r in view && r !in VisitedRecNos(refresh) && r !in VisitedRecNos(discovery)
    requires x in Viewed(Viewed(view, refresh), discovery)
    requires Viewed(Viewed(view, refresh), discovery)[x].at <= view[r].at
    ensures x !in VisitedRecNos(refresh) && x !in VisitedRecNos(discovery)
    ensures x in view && view[x] == Viewed(Viewed(view, refresh), discovery)[x]
  {
    VisitsMoveOn(view, refresh, r);
    VisitsMoveOn(view, refresh, x);
    VisitsMoveOn(Viewed(view, refresh), discovery, x);
  }

  predicate ReadInRun(run: RunTrace, r: RecNo) {
    r in VisitedRecNos(run.discovery) || r in VisitedRecNos(run.refresh)
  }

  /** With fewer than (rounds + 1) * limit due cases in front, r waits at most
      `rounds` more runs. */
  lemma {:induction false} ReadWithin(runs: seq<RunTrace>, i: nat, limit: nat, r: RecNo, rounds: nat)
    requires Legal(runs, limit) && limit >= 1 && i + rounds < |runs|
    requires r in ViewAtQuery(runs, i)
    requires Key(ViewAtQuery(runs, i)[r].at, r) in DueInView(ViewAtQuery(runs, i), runs[i].cutoff)
    requires |InFront(ViewAtQuery(runs, i), runs[i].cutoff, Key(ViewAtQuery(runs, i)[r].at, r))| < (rounds + 1) * limit
    ensures exists j :: i <= j <= i + rounds && ReadInRun(runs[j], r)
    decreases rounds
  {
    if ReadInRun(runs[i], r) {
      return;
    }
    var k := Key(ViewAtQuery(runs, i)[r].at, r);
    var front := InFront(ViewAtQuery(runs, i), runs[i].cutoff, k);
    HeadWasRead(runs, i, limit, r);
    SubsetSize((set x | x in Head(runs, i, limit)), front);
    assert rounds >= 1;
    if r in VisitedRecNos(runs[i + 1].discovery) {
      assert ReadInRun(runs[i + 1], r);
      return;
    }
    QueueAdvances(runs, i, limit, r);
    assert (rounds + 1) * limit == rounds * limit + limit;
    ReadWithin(runs, i + 1, limit, r, rounds - 1);
  }

  /** A due open case with n due cases in front of it in the queue of run i is read
      again no later than run i + n / limit. */
  lemma RefreshIsFair(runs: seq<RunTrace>, i: nat, limit: nat, r: RecNo)
    requires Legal(runs, limit) && limit >= 1 && i < |runs|
    requires r in ViewAtQuery(runs, i)
    requires Key(ViewAtQuery(runs, i)[r].at, r) in DueInView(ViewAtQuery(runs, i), runs[i].cutoff)
    ensures var n := |InFront(ViewAtQuery(runs, i), runs[i].cutoff, Key(ViewAtQuery(runs, i)[r].at, r))|;
            i + n / limit < |runs| ==> exists j :: i <= j <= i + n / limit && ReadInRun(runs[j], r)
  {
    var n := |InFront(ViewAtQuery(runs, i), runs[i].cutoff, Key(ViewAtQuery(runs, i)[r].at, r))|;
    assert n < (n / limit + 1) * limit by {
      assert n == (n / limit) * limit + n % limit;
    }
    if i + n / limit < |runs| {
      ReadWithin(runs, i, limit, r, n / limit);
    }
  }
}
