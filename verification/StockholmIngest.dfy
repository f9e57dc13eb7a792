/** The Stockholm ingester: one case per transaction, discovery, then the refresh of
    open cases that are due (persist and Run in internal/source/stockholm/ingest.go). */
module StockholmIngest {
  import opened Wrappers
  import opened PublicEvent
  import opened Stockholm
  import opened EventStore
  import opened EventRepository
  import opened RefreshQueue
  import Agreement = EventAgreement

  const DEFAULT_MAX_REFRESH := 500

  /** What persisting a case counts: a new state, each document by its kind, and each
      event by the outcome of its upsert. A counter is how often it was counted. */
  datatype Counter = NewState | Excluded | Failed | Duplicate | Stored(outcome: UpsertOutcome)

  type Counts = multiset<Counter>

  /** Cases begun and finished by discovery, cases refreshed, pages fetched, cases
      persisted or not, and what persisting them counted. */
  datatype Stats = Stats(discovered: nat, newCases: nat, refreshed: nat, fetched: nat, observed: nat, failures: nat,
                         counts: Counts)

  const NO_STATS := Stats(0, 0, 0, 0, 0, 0, multiset{})

  datatype RunError = InvalidWindow | SearchFailed | FetchFailed | PersistFailures

  // ----- the walk over the documents of a case -----

  type Table = map<EventKey, EventRow>

  /** How far the documents of a case were walked: what was counted, the events that were
      stored, and whether one could not be. */
  datatype Walked = Walked(counts: Counts, ds: seq<Derivation>, stopped: bool)

  function Step(w: Walked, r: Reading, events: Table, obs: ObsId): Walked {
    if w.stopped then w
    else if r.key.None? then Walked(w.counts + multiset{Excluded}, w.ds, false)
    else
      var c := w.counts + multiset{Failed};
      if HasKey(w.ds, r.key.value) then Walked(c + multiset{Duplicate}, w.ds, false)
      else if r.event.None? || !Acceptable(r.event.value) then Walked(c, w.ds, true)
      else
        Walked(c + multiset{Stored(OutcomeOf(events, r.key.value, obs))},
               w.ds + [Derivation(r.key.value, r.event.value)], false)
  }

  function Walk(rs: seq<Reading>, events: Table, obs: ObsId): Walked {
    if rs == [] then Walked(multiset{}, [], false)
    else Step(Walk(rs[..|rs| - 1], events, obs), rs[|rs| - 1], events, obs)
  }

  /** The walk finishes exactly if the case can be mapped, and stores what it says. */
  lemma {:induction false} WalkDerives(rs: seq<Reading>, events: Table, obs: ObsId)
    ensures var w := Walk(rs, events, obs);
            && (w.stopped <==> Certificates(rs).None?)
            && (!w.stopped ==> Certificates(rs) == Some(w.ds))
    decreases |rs|
  {
    if rs != [] {
      WalkDerives(rs[..|rs| - 1], events, obs);
    }
  }

  lemma {:induction false} StoppedStays(rs: seq<Reading>, i: nat, events: Table, obs: ObsId)
    requires i <= |rs| && Walk(rs[..i], events, obs).stopped
    ensures Walk(rs, events, obs) == Walk(rs[..i], events, obs)
    decreases |rs|
  {
    if i == |rs| {
      assert rs[..i] == rs;
    } else {
      assert rs[..|rs| - 1][..i] == rs[..i];
      StoppedStays(rs[..|rs| - 1], i, events, obs);
    }
  }

  /** How many certificates were counted, but not as a duplicate or as stored. */
  function Unclassified(c: Counts): int {
    var failed: int := c[Failed];
    failed - c[Duplicate] - c[Stored(Inserted)] - c[Stored(Updated)] - c[Stored(Unchanged)]
  }

  lemma Classify(c: Counts, x: Counter)
    requires Unclassified(c) == 0
    ensures Unclassified(c + multiset{Excluded}) == 0 && Unclassified(c + multiset{Failed}) == 1
    ensures x == Duplicate || x.Stored? ==> Unclassified(c + multiset{Failed} + multiset{x}) == 0
  {
    var d, e := c + multiset{Failed}, c + multiset{Failed} + multiset{x};
    assert d[Failed] == c[Failed] + 1 && e[Failed] == d[Failed] + if x == Failed then 1 else 0;
    match x
    case Duplicate => assert e[Duplicate] == c[Duplicate] + 1;
    case Stored(Inserted) => assert e[Stored(Inserted)] == c[Stored(Inserted)] + 1;
    case Stored(Updated) => assert e[Stored(Updated)] == c[Stored(Updated)] + 1;
    case Stored(Unchanged) => assert e[Stored(Unchanged)] == c[Stored(Unchanged)] + 1;
    case _ =>
  }

  lemma UnclassifiedInBoth(c: Counts, d: Counts)
    ensures Unclassified(c + d) == Unclassified(c) + Unclassified(d)
  {
  }

  /** A walk that stops leaves the certificate it stops at unclassified. */
  lemma {:induction false} WalkClassifies(rs: seq<Reading>, events: Table, obs: ObsId)
    ensures var w := Walk(rs, events, obs); Unclassified(w.counts) == if w.stopped then 1 else 0
    decreases |rs|
  {
    if rs != [] {
      var n := |rs| - 1;
      WalkClassifies(rs[..n], events, obs);
      var front, key := Walk(rs[..n], events, obs), rs[n].key;
      if !front.stopped {
        Classify(front.counts, if key.None? || HasKey(front.ds, key.value) then Duplicate
                               else Stored(OutcomeOf(events, key.value, obs)));
      }
    }
  }

  function Classed(c: Counts): nat {
    c[Excluded] + c[Failed]
  }

  lemma OneMoreClassed(c: Counts, x: Counter)
    requires x == Duplicate || x.Stored?
    ensures Classed(c + multiset{Excluded}) == Classed(c + multiset{Failed} + multiset{x}) == Classed(c) + 1
  {
    var d := c + multiset{Failed};
    assert d[Failed] == c[Failed] + 1 && (d + multiset{x})[Failed] == d[Failed];
  }

  /** One that does not counts every document once. */
  lemma {:induction false} WalkCountsAll(rs: seq<Reading>, events: Table, obs: ObsId)
    requires !Walk(rs, events, obs).stopped
    ensures Classed(Walk(rs, events, obs).counts) == |rs|
    decreases |rs|
  {
    if rs != [] {
      var n := |rs| - 1;
      WalkCountsAll(rs[..n], events, obs);
      var front, key := Walk(rs[..n], events, obs), rs[n].key;
      OneMoreClassed(front.counts, if key.None? || HasKey(front.ds, key.value) then Duplicate
                                   else Stored(OutcomeOf(events, key.value, obs)));
    }
  }

  /** How many of the readings are of failed certificates. */
  function Keyed(rs: seq<Reading>): nat {
    if rs == [] then 0 else Keyed(rs[..|rs| - 1]) + if rs[|rs| - 1].key.Some? then 1 else 0
  }

  /** Their identifiers. */
  function KeysAmong(rs: seq<Reading>): set<EventKey> {
    if rs == [] then {} else
      var key := rs[|rs| - 1].key;
      KeysAmong(rs[..|rs| - 1]) + if key.Some? then {key.value} else {}
  }

  /** One that does not stores one event for each identifier. */
  lemma {:induction false} WalkIsExact(rs: seq<Reading>, events: Table, obs: ObsId)
    requires !Walk(rs, events, obs).stopped
    ensures var w := Walk(rs, events, obs);
            |w.ds| == |KeysAmong(rs)| && forall k :: HasKey(w.ds, k) <==> k in KeysAmong(rs)
    decreases |rs|
  {
    if rs != [] {
      var n := |rs| - 1;
      WalkIsExact(rs[..n], events, obs);
      var front, r, keys := Walk(rs[..n], events, obs), rs[n], KeysAmong(rs[..n]);
      if r.key.None? {
        assert keys + {} == keys;
      } else if HasKey(front.ds, r.key.value) {
        assert keys + {r.key.value} == keys;
      } else {
        var d := Derivation(r.key.value, r.event.value);
        assert |keys + {d.key}| == |keys| + 1;
        forall k ensures HasKey(front.ds + [d], k) <==> HasKey(front.ds, k) || k == d.key {
          HasKeySnoc(front.ds, d, k);
        }
      }
    }
  }

  lemma {:induction false} WalkFails(rs: seq<Reading>, events: Table, obs: ObsId)
    requires !Walk(rs, events, obs).stopped
    ensures Walk(rs, events, obs).counts[Failed] == Keyed(rs)
    decreases |rs|
  {
    if rs != [] {
      WalkFails(rs[..|rs| - 1], events, obs);
    }
  }

  lemma {:induction false} WalkStoresEach(rs: seq<Reading>, events: Table, obs: ObsId)
    ensures var w := Walk(rs, events, obs); StoredIn(w.counts) == |w.ds|
    decreases |rs|
  {
    if rs != [] {
      var n := |rs| - 1;
      WalkStoresEach(rs[..n], events, obs);
      var front, key := Walk(rs[..n], events, obs), rs[n].key;
      OneMoreStored(front.counts, if key.None? || HasKey(front.ds, key.value) then Duplicate
                                  else Stored(OutcomeOf(events, key.value, obs)));
    }
  }

  function StoredIn(c: Counts): nat {
    c[Stored(Inserted)] + c[Stored(Updated)] + c[Stored(Unchanged)]
  }

  lemma OneMoreStored(c: Counts, x: Counter)
    requires x == Duplicate || x.Stored?
    ensures StoredIn(c + multiset{Excluded}) == StoredIn(c + multiset{Failed}) == StoredIn(c)
    ensures StoredIn(c + multiset{Failed} + multiset{x}) == StoredIn(c) + if x.Stored? then 1 else 0
  {
    match x
    case Duplicate =>
    case Stored(Inserted) =>
    case Stored(Updated) =>
    case Stored(Unchanged) =>
  }

  lemma {:induction false} WalkCountsNoState(rs: seq<Reading>, events: Table, obs: ObsId)
    ensures Walk(rs, events, obs).counts[NewState] == 0
    decreases |rs|
  {
    if rs != [] {
      WalkCountsNoState(rs[..|rs| - 1], events, obs);
    }
  }

  /** The table grows by the events counted as inserted. */
  lemma {:induction false} WalkGrows(rs: seq<Reading>, events: Table, obs: ObsId, now: int)
    requires !Walk(rs, events, obs).stopped
    ensures var w := Walk(rs, events, obs);
            |UpsertedAll(events, w.ds, obs, now, false)| == |events| + w.counts[Stored(Inserted)]
    decreases |rs|
  {
    if rs != [] {
      var front, r := Walk(rs[..|rs| - 1], events, obs), rs[|rs| - 1];
      WalkGrows(rs[..|rs| - 1], events, obs, now);
      if r.key.Some? && !HasKey(front.ds, r.key.value) {
        UpsertGrows(events, front.ds, Derivation(r.key.value, r.event.value), obs, now);
      }
    }
  }

  lemma UpsertGrows(events: Table, ds: seq<Derivation>, d: Derivation, obs: ObsId, now: int)
    requires !HasKey(ds, d.key)
    ensures var before, after :=
              UpsertedAll(events, ds, obs, now, false), UpsertedAll(events, ds + [d], obs, now, false);
            |after| == |before| + if d.key in events then 0 else 1
  {
    UpsertedSnoc(events, ds, d, obs, now);
    Agreement.UpsertedKey(events, ds, obs, now, false, d.key);
    SizeOfUpdate(UpsertedAll(events, ds, obs, now, false), d, obs, now);
  }

  ghost predicate HasKeys(ds: seq<Derivation>, keys: set<EventKey>) {
    forall k :: k in keys <==> HasKey(ds, k)
  }

  lemma OneMoreKey(ds: seq<Derivation>, d: Derivation, keys: set<EventKey>)
    requires HasKeys(ds, keys)
    ensures HasKeys(ds + [d], keys + {d.key})
  {
    forall k ensures k in keys + {d.key} <==> HasKey(ds + [d], k) {
      HasKeySnoc(ds, d, k);
    }
  }

  /** What persisting a record counts, whether or not it is undone in the end. */
  function RecordCounts(db: Db, p: Payload, rs: seq<Reading>, freshId: ObsId): Counts {
    var c := Walk(rs, db.events, IdOf(db.observations, p, freshId)).counts;
    if p in db.observations then c else multiset{NewState} + c
  }

  function CaseCounts(db: Db, c: Case, freshId: ObsId): Counts {
    RecordCounts(db, CaseState(c), Readings(c, c.documents), freshId)
  }

  // ----- which events a case leaves -----

  /** Document i is a failed certificate with this identifier. */
  predicate Certifies(c: Case, i: int, k: EventKey) {
    0 <= i < |c.documents| && IsFailedCertificate(c.documents[i]) && EventID(c.recNo, c.documents[i]) == k
  }

  /** And the first one. */
  predicate CertifiesFirst(c: Case, i: int, k: EventKey) {
    Certifies(c, i, k) && forall j :: 0 <= j < i ==> !Certifies(c, j, k)
  }

  /** Between two tables: every failed certificate has its event, a new event is what
      the first document with its identifier maps to, and no other one is touched. */
  ghost predicate LeavesEvents(c: Case, before: Table, after: Table) {
    && (forall i, k :: Certifies(c, i, k) ==> k in after)
    && (forall k :: k in after && k !in before ==>
          exists i :: CertifiesFirst(c, i, k) && ToEvent(c, c.documents[i]) == Some(after[k].event))
    && (forall k :: k in before && (forall i :: !Certifies(c, i, k)) ==> k in after && after[k] == before[k])
  }

  /** What upserting the events of these readings does to the row of an identifier. */
  lemma {:induction false} ReadingsLeaveKey(rs: seq<Reading>, events: Table, ds: seq<Derivation>, obs: ObsId,
                                            now: int, k: EventKey)
    requires Certificates(rs) == Some(ds)
    ensures var first, after := FirstWith(rs, k), UpsertedAll(events, ds, obs, now, false);
            && (first.Some? ==> k in after)
            && (k in after && k !in events ==> first.Some? && rs[first.value].event == Some(after[k].event))
            && (k in events && first.None? ==> k in after && after[k] == events[k])
  {
    var after := UpsertedAll(events, ds, obs, now, false);
    Agreement.UpsertedKey(events, ds, obs, now, false, k);
    if k in after {
      CertificatesExact(rs, k, after[k].event);
    } else if FirstWith(rs, k).Some? {
      KeyedIsDerived(rs, k);
    }
  }

  lemma {:induction false} KeyedIsDerived(rs: seq<Reading>, k: EventKey)
    requires Certificates(rs).Some? && FirstWith(rs, k).Some?
    ensures HasKey(Certificates(rs).value, k)
    decreases |rs|
  {
    var n := |rs| - 1;
    var front, all := Certificates(rs[..n]).value, Certificates(rs).value;
    if FirstWith(rs[..n], k).Some? {
      KeyedIsDerived(rs[..n], k);
    }
    if all != front {
      HasKeySnoc(front, all[|all| - 1], k);
    }
  }

  lemma {:induction false} FirstCertifies(c: Case, rs: seq<Reading>, k: EventKey)
    requires rs == Readings(c, c.documents)
    ensures var first := FirstWith(rs, k);
            if first.None? then forall i :: !Certifies(c, i, k)
            else CertifiesFirst(c, first.value, k) && rs[first.value].event == ToEvent(c, c.documents[first.value])
  {
    forall i | 0 <= i < |rs| ensures rs[i] == Read(c, c.documents[i]) {
    }
  }

  lemma {:induction false} CaseLeavesEvents(db: Db, c: Case, freshId: ObsId, now: int)
    requires Mappable(c)
    ensures LeavesEvents(c, db.events, Persisted(db, CaseState(c), freshId, now, false).events)
  {
    var rs, id := Readings(c, c.documents), IdOf(db.observations, CaseState(c), freshId);
    var ds := Certificates(rs).value;
    var after := UpsertedAll(db.events, ds, id, now, false);
    ReadingsLeave(c, rs, db.events, ds, id, now);
    assert after == Persisted(db, CaseState(c), freshId, now, false).events;
  }

  lemma {:induction false} ReadingsLeave(c: Case, rs: seq<Reading>, events: Table, ds: seq<Derivation>, obs: ObsId,
                                         now: int)
    requires rs == Readings(c, c.documents) && Certificates(rs) == Some(ds)
    ensures LeavesEvents(c, events, UpsertedAll(events, ds, obs, now, false))
  {
    var after := UpsertedAll(events, ds, obs, now, false);
    forall k
      ensures FirstWith(rs, k).None? ==> forall i :: !Certifies(c, i, k)
      ensures (exists i :: Certifies(c, i, k)) ==> k in after
      ensures k in after && k !in events ==>
                exists i :: CertifiesFirst(c, i, k) && ToEvent(c, c.documents[i]) == Some(after[k].event)
      ensures k in events && (forall i :: !Certifies(c, i, k)) ==> k in after && after[k] == events[k]
    {
      ReadingsLeaveKey(rs, events, ds, obs, now, k);
      FirstCertifies(c, rs, k);
    }
  }

  /** What is counted for a case that can be mapped: each document that is no failed
      certificate as excluded, each that is one as failed, one outcome for each
      identifier, and the remaining ones as duplicates. */
  lemma {:induction false} CaseCountsExact(db: Db, c: Case, freshId: ObsId)
    requires Mappable(c)
    ensures var counts, rs := CaseCounts(db, c, freshId), Readings(c, c.documents);
            && counts[Failed] == Keyed(rs) && counts[Excluded] == |c.documents| - Keyed(rs)
            && StoredIn(counts) == |KeysAmong(rs)| && counts[Duplicate] == Keyed(rs) - |KeysAmong(rs)|
            && counts[NewState] == if CaseState(c) in db.observations then 0 else 1
    ensures forall i :: 0 <= i < |c.documents| ==>
              var r := Readings(c, c.documents)[i];
              && (r.key.Some? <==> IsFailedCertificate(c.documents[i]))
              && (r.key.Some? ==> r.key.value == EventID(c.recNo, c.documents[i]))
  {
    var rs, id := Readings(c, c.documents), IdOf(db.observations, CaseState(c), freshId);
    ReadingsCounted(rs, db.events, id);
    var counts := Walk(rs, db.events, id).counts;
    assert CaseCounts(db, c, freshId) ==
           if CaseState(c) in db.observations then counts else multiset{NewState} + counts;
  }

  lemma {:induction false} ReadingsCounted(rs: seq<Reading>, events: Table, obs: ObsId)
    requires Certificates(rs).Some?
    ensures var c := Walk(rs, events, obs).counts;
            && c[Failed] == Keyed(rs) && c[Excluded] == |rs| - Keyed(rs) && c[NewState] == 0
            && StoredIn(c) == |KeysAmong(rs)| && c[Duplicate] == Keyed(rs) - |KeysAmong(rs)|
  {
    WalkDerives(rs, events, obs);
    WalkIsExact(rs, events, obs);
    WalkFails(rs, events, obs);
    WalkStoresEach(rs, events, obs);
    WalkCountsAll(rs, events, obs);
    WalkClassifies(rs, events, obs);
    WalkCountsNoState(rs, events, obs);
  }

  /** A case without failed certificates, such as one with only approved ones, can always
      be mapped, leaves no event and counts every document as excluded. */
  lemma {:induction false} NothingFailed(db: Db, c: Case, freshId: ObsId, now: int)
    requires forall i :: 0 <= i < |c.documents| ==> !IsFailedCertificate(c.documents[i])
    ensures Mappable(c) && Persisted(db, CaseState(c), freshId, now, false).events == db.events
    ensures CaseCounts(db, c, freshId)[Excluded] == |c.documents|
  {
    var rs := Readings(c, c.documents);
    forall i | 0 <= i < |rs| ensures rs[i].key.None? {
      assert rs[i] == Read(c, c.documents[i]);
    }
    WalkExcludes(rs, db.events, IdOf(db.observations, CaseState(c), freshId));
    WalkDerives(rs, db.events, IdOf(db.observations, CaseState(c), freshId));
  }

  lemma PersistLeaves(db: Db, c: Case, freshId: ObsId, now: int)
    ensures Mappable(c) ==> LeavesEvents(c, db.events, Persisted(db, CaseState(c), freshId, now, false).events)
    ensures MentionsNoFailure(c) ==>
              Mappable(c) && Persisted(db, CaseState(c), freshId, now, false).events == db.events
  {
    if Mappable(c) {
      CaseLeavesEvents(db, c, freshId, now);
    }
    if MentionsNoFailure(c) {
      forall i | 0 <= i < |c.documents| ensures !IsFailedCertificate(c.documents[i]) {
        ApprovedIsNotFailed(c.documents[i]);
      }
      NothingFailed(db, c, freshId, now);
    }
  }

  lemma {:induction false} WalkExcludes(rs: seq<Reading>, events: Table, obs: ObsId)
    requires forall i :: 0 <= i < |rs| ==> rs[i].key.None?
    ensures var w := Walk(rs, events, obs); !w.stopped && w.ds == [] && w.counts[Excluded] == |rs|
    decreases |rs|
  {
    if rs != [] {
      WalkExcludes(rs[..|rs| - 1], events, obs);
    }
  }

  /** The visits happened one after another within [from, to). */
  predicate Increasing(visits: seq<Visit>, from: int, to: int) {
    if visits == [] then from <= to else
      var v := visits[|visits| - 1];
      v.now < to && Increasing(visits[..|visits| - 1], from, v.now)
  }

  lemma {:induction false} IncreasingWidens(visits: seq<Visit>, from: int, to: int, to': int)
    requires Increasing(visits, from, to) && to <= to'
    ensures Increasing(visits, from, to') && from <= to
    decreases |visits|
  {
    if visits != [] {
      var v := visits[|visits| - 1];
      IncreasingWidens(visits[..|visits| - 1], from, v.now, v.now);
    }
  }

  /** Their ids too. */
  predicate Numbered(visits: seq<Visit>, firstId: ObsId, nextId: ObsId) {
    if visits == [] then firstId <= nextId else
      var v := visits[|visits| - 1];
      v.freshId < nextId && Numbered(visits[..|visits| - 1], firstId, v.freshId)
  }

  lemma {:induction false} NumberedWidens(visits: seq<Visit>, firstId: ObsId, nextId: ObsId, nextId': ObsId)
    requires Numbered(visits, firstId, nextId) && nextId <= nextId'
    ensures Numbered(visits, firstId, nextId')
    decreases |visits|
  {
  }

  // ----- what a stretch of a run did -----

  /** Every certificate of the case can be mapped and is accepted. */
  predicate Mappable(c: Case) {
    Derived(CaseState(c)).Some?
  }

  /** The tables after some visits, whatever cases say. */
  function Kept(says: Saying, db: Db, visits: seq<Visit>): Db {
    if visits == [] then db else
      var v := visits[|visits| - 1];
      Entered(Kept(says, db, visits[..|visits| - 1]), Entry(CaseState(v.c), says(CaseState(v.c))), v.freshId, v.now,
              false)
  }

  predicate AllSay(says: Saying, visits: seq<Visit>) {
    forall i :: 0 <= i < |visits| ==> says(CaseState(visits[i].c)).Some?
  }

  /** The visits between two points, and the tables, the clock and the next id there. */
  datatype Log = Log(start: Db, from: int, firstId: ObsId, visits: seq<Visit>, end: Db, to: int, nextId: ObsId)

  ghost predicate LoggedBy(says: Saying, log: Log) {
    && log.end == Kept(says, log.start, log.visits) && AllSay(says, log.visits)
    && Increasing(log.visits, log.from, log.to) && Numbered(log.visits, log.firstId, log.nextId)
  }

  /** The visits happened in this order, each persisted its case, and nothing else
      changed the tables. */
  ghost predicate Logged(log: Log) {
    LoggedBy(Derived, log)
  }

  function NewLog(db: Db, clock: int, nextId: ObsId): Log {
    Log(db, clock, nextId, [], db, clock, nextId)
  }

  /** One more case: visited, or not persisted. */
  function After(log: Log, visit: Option<Visit>, db: Db): Log {
    Log(log.start, log.from, log.firstId, if visit.Some? then log.visits + [visit.value] else log.visits,
        db, log.to + 1, log.nextId + 1)
  }

  lemma AfterIsLogged(says: Saying, log: Log, visit: Option<Visit>, db: Db)
    requires LoggedBy(says, log)
    requires visit.None? ==> db == log.end
    requires visit.Some? ==>
               var v := visit.value;
               && v.now == log.to && v.freshId == log.nextId && says(CaseState(v.c)).Some?
               && db == Entered(log.end, Entry(CaseState(v.c), says(CaseState(v.c))), v.freshId, v.now, false)
    ensures LoggedBy(says, After(log, visit, db))
  {
    if visit.Some? {
      assert (log.visits + [visit.value])[..|log.visits|] == log.visits;
    } else {
      IncreasingWidens(log.visits, log.from, log.to, log.to + 1);
      NumberedWidens(log.visits, log.firstId, log.nextId, log.nextId + 1);
    }
  }

  predicate Begins(log: Log, db: Db, clock: int, nextId: ObsId) {
    log.start == db && log.from == clock && log.firstId == nextId
  }

  // ----- what a stretch of a run counted -----

  function Attempted(stats: Stats, ok: bool, counts: Counts): Stats {
    Stats(stats.discovered, stats.newCases, stats.refreshed, stats.fetched + 1,
          if ok then stats.observed + 1 else stats.observed, if ok then stats.failures else stats.failures + 1,
          stats.counts + counts)
  }

  /** What a visit counts, in the tables before it. */
  type Counting = (Db, Visit) -> Counts

  function CaseCounting(): Counting {
    (db: Db, v: Visit) => CaseCounts(db, v.c, v.freshId)
  }

  function TallyBy(count: Counting, says: Saying, db: Db, visits: seq<Visit>): Counts {
    if visits == [] then multiset{} else
      var n := |visits| - 1;
      TallyBy(count, says, db, visits[..n]) + count(Kept(says, db, visits[..n]), visits[n])
  }

  /** What the visits of a log counted, all of which were persisted. */
  function Tally(log: Log): Counts {
    TallyBy(CaseCounting(), Derived, log.start, log.visits)
  }

  /** The statistics before and after a stretch, and what was counted for cases that
      were rolled back. */
  datatype Books = Books(before: Stats, after: Stats, undone: Counts)

  ghost predicate Adds(visited: nat, tally: Counts, b: Books) {
    match b
    case Books(before, after, undone) =>
      && after.discovered == before.discovered && after.newCases == before.newCases
      && after.refreshed == before.refreshed && after.failures >= before.failures
      && after.observed == before.observed + visited
      && after.fetched == before.fetched + visited + (after.failures - before.failures)
      && after.counts == before.counts + tally + undone
      && (after.failures == before.failures ==> undone == multiset{})
      && Unclassified(undone) == after.failures - before.failures
  }

  ghost predicate BalancedBy(count: Counting, says: Saying, log: Log, b: Books) {
    Adds(|log.visits|, TallyBy(count, says, log.start, log.visits), b)
  }

  /** The statistics count what the log shows, and what was undone. */
  ghost predicate Balanced(log: Log, b: Books) {
    Adds(|log.visits|, Tally(log), b)
  }

  lemma AfterIsBalanced(count: Counting, says: Saying, log: Log, b: Books, visit: Option<Visit>, db: Db, c: Counts)
    requires BalancedBy(count, says, log, b) && log.end == Kept(says, log.start, log.visits)
    requires if visit.Some? then c == count(log.end, visit.value) else Unclassified(c) == 1
    ensures BalancedBy(count, says, After(log, visit, db),
                       Books(b.before, Attempted(b.after, visit.Some?, c),
                             if visit.Some? then b.undone else b.undone + c))
  {
    if visit.Some? {
      assert (log.visits + [visit.value])[..|log.visits|] == log.visits;
    } else {
      UnclassifiedInBoth(b.undone, c);
    }
  }

  lemma UnmappableCounts(db: Db, c: Case, freshId: ObsId)
    ensures !Mappable(c) ==> Unclassified(CaseCounts(db, c, freshId)) == 1
  {
    RecordClassified(db, CaseState(c), Readings(c, c.documents), freshId);
  }

  lemma RecordClassified(db: Db, p: Payload, rs: seq<Reading>, freshId: ObsId)
    ensures Certificates(rs).None? ==> Unclassified(RecordCounts(db, p, rs, freshId)) == 1
  {
    var id := IdOf(db.observations, p, freshId);
    WalkDerives(rs, db.events, id);
    WalkClassifies(rs, db.events, id);
    var c := Walk(rs, db.events, id).counts;
    UnclassifiedInBoth(multiset{NewState}, c);
  }

  /** The tables before and after, and how many documents were read in between. */
  datatype Growth = Growth(before: Db, after: Db, documents: nat)

  /** Counters of cases that were all persisted. */
  ghost predicate Shows(c: Counts, g: Growth) {
    match g
    case Growth(before, after, documents) =>
      && |after.observations| == |before.observations| + c[NewState]
      && |after.events| == |before.events| + c[Stored(Inserted)]
      && documents == Classed(c) && Unclassified(c) == 0
  }

  function Documents(visits: seq<Visit>): nat {
    if visits == [] then 0 else Documents(visits[..|visits| - 1]) + |visits[|visits| - 1].c.documents|
  }

  function GrowthOf(first: Log, second: Log): Growth {
    Growth(first.start, second.end, Documents(first.visits) + Documents(second.visits))
  }

  lemma CaseGrows(db: Db, v: Visit)
    requires Mappable(v.c)
    ensures Shows(CaseCounts(db, v.c, v.freshId),
                  Growth(db, Persisted(db, CaseState(v.c), v.freshId, v.now, false), |v.c.documents|))
  {
    RecordGrows(db, CaseState(v.c), Readings(v.c, v.c.documents), v.freshId, v.now);
  }

  lemma RecordGrows(db: Db, p: Payload, rs: seq<Reading>, freshId: ObsId, now: int)
    requires Certificates(rs).Some?
    ensures Shows(RecordCounts(db, p, rs, freshId),
                  Growth(db, Entered(db, Entry(p, Certificates(rs)), freshId, now, false), |rs|))
  {
    var id := IdOf(db.observations, p, freshId);
    var w := Walk(rs, db.events, id);
    WalkDerives(rs, db.events, id);
    WalkClassifies(rs, db.events, id);
    WalkCountsAll(rs, db.events, id);
    WalkCountsNoState(rs, db.events, id);
    WalkGrows(rs, db.events, id, now);
    SizeOfRecorded(db.observations, p, freshId, now);
    assert Entered(db, Entry(p, Certificates(rs)), freshId, now, false) ==
           Db(Recorded(db.observations, p, freshId, now), UpsertedAll(db.events, w.ds, id, now, false));
  }

  lemma ShowTogether(c: Counts, d: Counts, g: Growth, h: Growth)
    requires Shows(c, g) && Shows(d, h) && g.after == h.before
    ensures Shows(c + d, Growth(g.before, h.after, g.documents + h.documents))
  {
    UnclassifiedInBoth(c, d);
  }

  /** Each single case shows. */
  ghost predicate AllShow(count: Counting, says: Saying) {
    forall db, v: Visit :: says(CaseState(v.c)).Some? ==> Shows(count(db, v), GrowthBy(says, db, v))
  }

  function GrowthBy(says: Saying, db: Db, v: Visit): Growth {
    Growth(db, Entered(db, Entry(CaseState(v.c), says(CaseState(v.c))), v.freshId, v.now, false), |v.c.documents|)
  }

  lemma {:induction false} TallyShows(count: Counting, says: Saying, db: Db, visits: seq<Visit>)
    requires AllShow(count, says) && AllSay(says, visits)
    ensures Shows(TallyBy(count, says, db, visits), Growth(db, Kept(says, db, visits), Documents(visits)))
    decreases |visits|
  {
    if visits != [] {
      var n := |visits| - 1;
      var middle := Kept(says, db, visits[..n]);
      TallyShows(count, says, db, visits[..n]);
      ShowTogether(TallyBy(count, says, db, visits[..n]), count(middle, visits[n]),
                   Growth(db, middle, Documents(visits[..n])), GrowthBy(says, middle, visits[n]));
    }
  }

  /** Of the persisted cases every document is counted once, every failed certificate
      by what became of it, and the tables grow by what is counted as inserted. */
  lemma TallyAddsUp(db: Db, visits: seq<Visit>)
    requires AllSay(Derived, visits)
    ensures Shows(TallyBy(CaseCounting(), Derived, db, visits),
                  Growth(db, Kept(Derived, db, visits), Documents(visits)))
  {
    forall before, v: Visit | Derived(CaseState(v.c)).Some?
      ensures Shows(CaseCounting()(before, v), GrowthBy(Derived, before, v))
    {
      CaseGrows(before, v);
    }
    TallyShows(CaseCounting(), Derived, db, visits);
  }

  // ----- what a stretch of a run read -----

  function AsSet(recNos: seq<RecNo>): set<RecNo> {
    set r | r in recNos
  }

  predicate AllIdentified(rs: seq<Reading>) {
    forall i :: 0 <= i < |rs| && rs[i].key.Some? ==> Identified(rs[i].key.value)
  }

  lemma CertificatesAreIdentified(c: Case, docs: seq<Document>)
    ensures AllIdentified(Readings(c, docs))
  {
    forall i | 0 <= i < |docs| ensures Readings(c, docs)[i].key.Some? ==> Identified(Readings(c, docs)[i].key.value) {
      assert Readings(c, docs)[i] == Read(c, docs[i]);
    }
  }

  /** The queue query of a run and its answer. */
  datatype Query = Query(obs: map<Payload, Observation>, cutoff: int, limit: nat, due: seq<RecNo>)

  predicate Answered(q: Query) {
    q.due == OpenCasesDue(q.obs, q.cutoff, q.limit)
  }

  type Pages = RecNo -> Option<Case>

  /** A fetched page is the page of the case asked for. */
  ghost predicate Consistent(pages: Pages) {
    forall n :: pages(n).Some? ==> pages(n).value.recNo == n
  }

  /** The cases among these that can be fetched and persisted. */
  ghost function Persistable(ns: set<RecNo>, pages: Pages): set<RecNo> {
    set n | n in ns && pages(n).Some? && Mappable(pages(n).value)
  }

  ghost predicate AllFetched(ns: set<RecNo>, pages: Pages) {
    forall n :: n in ns ==> pages(n).Some?
  }

  ghost predicate FromPages(visits: seq<Visit>, pages: Pages) {
    forall i :: 0 <= i < |visits| ==> pages(visits[i].c.recNo) == Some(visits[i].c)
  }

  /** Cases in the order they were visited, and whether a page could not be fetched. */
  datatype Course = Course(recNos: seq<RecNo>, stopped: bool)

  /** The course over a list: each case that was not read before, in list order, up to the
      first page that cannot be fetched; those that cannot be persisted are not visited. */
  ghost function CourseOf(recNos: seq<RecNo>, already: set<RecNo>, pages: Pages): Course {
    if recNos == [] then Course([], false) else
      var n := |recNos| - 1;
      var front := CourseOf(recNos[..n], already, pages);
      if front.stopped || recNos[n] in already || recNos[n] in recNos[..n] then front
      else if pages(recNos[n]).None? then Course(front.recNos, true)
      else if Mappable(pages(recNos[n]).value) then Course(front.recNos + [recNos[n]], false)
      else front
  }

  function RecNosOf(visits: seq<Visit>): seq<RecNo> {
    if visits == [] then [] else RecNosOf(visits[..|visits| - 1]) + [visits[|visits| - 1].c.recNo]
  }

  ghost predicate OnCourse(log: Log, course: Course, stopped: bool) {
    match log
    case Log(_, _, _, visits, _, _, _) => course == Course(RecNosOf(visits), stopped)
  }

  lemma {:induction false} CourseStays(recNos: seq<RecNo>, i: nat, already: set<RecNo>, pages: Pages)
    requires i <= |recNos| && CourseOf(recNos[..i], already, pages).stopped
    ensures CourseOf(recNos, already, pages) == CourseOf(recNos[..i], already, pages)
    decreases |recNos|
  {
    if i == |recNos| {
      assert recNos[..i] == recNos;
    } else {
      assert recNos[..|recNos| - 1][..i] == recNos[..i];
      CourseStays(recNos[..|recNos| - 1], i, already, pages);
    }
  }

  lemma {:induction false} CourseStep(recNos: seq<RecNo>, i: nat, already: set<RecNo>, pages: Pages, read: set<RecNo>)
    requires i < |recNos| && read == already + Unread(recNos[..i], already)
    ensures var front, next := CourseOf(recNos[..i], already, pages), CourseOf(recNos[..i + 1], already, pages);
            !front.stopped ==>
              next == if recNos[i] in read then front
                      else if pages(recNos[i]).None? then Course(front.recNos, true)
                      else if Mappable(pages(recNos[i]).value) then Course(front.recNos + [recNos[i]], false)
                      else front
  {
    assert recNos[..i + 1][..i] == recNos[..i];
  }

  lemma RecNosSnoc(visits: seq<Visit>, v: Visit)
    ensures RecNosOf(visits + [v]) == RecNosOf(visits) + [v.c.recNo]
  {
    assert (visits + [v])[..|visits|] == visits;
  }

  /** These cases were read, as far as they can be persisted, and `failures` others. */
  ghost predicate HasRead(log: Log, pages: Pages, done: set<RecNo>, failures: int) {
    match log
    case Log(_, _, _, visits, _, _, _) =>
      && FromPages(visits, pages) && AllFetched(done, pages) && failures >= 0
      && VisitedRecNos(visits) == Persistable(done, pages)
      && (failures == 0 <==> Persistable(done, pages) == done)
  }

  lemma ReadOneMore(log: Log, pages: Pages, done: set<RecNo>, failures: int, c: Case, visit: Option<Visit>, db: Db)
    requires HasRead(log, pages, done, failures) && c.recNo !in done && pages(c.recNo) == Some(c)
    requires if Mappable(c) then visit.Some? && visit.value.c == c else visit.None?
    ensures HasRead(After(log, visit, db), pages, done + {c.recNo}, failures + if visit.Some? then 0 else 1)
  {
    PersistableStep(done, pages, c.recNo);
    if visit.Some? {
      VisitsSnoc(log.visits, visit.value);
    }
  }

  /** One more page that was read keeps all of this. */
  lemma AfterPage(log: Log, pages: Pages, done: set<RecNo>, b: Books, c: Case, visit: Option<Visit>, db: Db)
    requires Logged(log) && Balanced(log, b) && HasRead(log, pages, done, b.after.failures - b.before.failures)
    requires c.recNo !in done && pages(c.recNo) == Some(c)
    requires visit == if Mappable(c) then Some(Visit(c, log.nextId, log.to)) else None
    requires db == Persisted(log.end, CaseState(c), log.nextId, log.to, false)
    ensures var counts := CaseCounts(log.end, c, log.nextId);
            var after := Attempted(b.after, visit.Some?, counts);
            && Logged(After(log, visit, db))
            && Balanced(After(log, visit, db),
                        Books(b.before, after, if visit.Some? then b.undone else b.undone + counts))
            && HasRead(After(log, visit, db), pages, done + {c.recNo}, after.failures - b.before.failures)
  {
    AfterIsLogged(Derived, log, visit, db);
    UnmappableCounts(log.end, c, log.nextId);
    AfterIsBalanced(CaseCounting(), Derived, log, b, visit, db, CaseCounts(log.end, c, log.nextId));
    ReadOneMore(log, pages, done, b.after.failures - b.before.failures, c, visit, db);
  }

  class Ingester {
    const repo: Repository
    const refreshInterval: int
    const maxRefreshPerRun: int
    /** Advances with every transaction, so transaction times strictly increase. */
    var clock: int
    var nextId: ObsId

    constructor (repo: Repository, refreshInterval: int, maxRefreshPerRun: int, clock: int, nextId: ObsId)
      ensures this.repo == repo && this.refreshInterval == refreshInterval && this.maxRefreshPerRun == maxRefreshPerRun
      ensures this.clock == clock && this.nextId == nextId
    {
      this.repo, this.refreshInterval, this.maxRefreshPerRun := repo, refreshInterval, maxRefreshPerRun;
      this.clock, this.nextId := clock, nextId;
    }

    /** The observation of a case and the events of its failed certificates, in one
        transaction: all of it, or nothing. What was counted stays counted. */
    method Persist(c: Case) returns (ok: bool, counts: Counts)
      modifies this, repo
      ensures clock == old(clock) + 1 && nextId == old(nextId) + 1
      ensures repo.Contents() == Persisted(old(repo.Contents()), CaseState(c), old(nextId), old(clock), false)
      ensures ok == Mappable(c)
      ensures counts == CaseCounts(old(repo.Contents()), c, old(nextId))
      ensures ok ==> LeavesEvents(c, old(repo.events), repo.events)
      ensures MentionsNoFailure(c) ==>
                ok && repo.events == old(repo.events)
    {
      PersistLeaves(repo.Contents(), c, nextId, clock);
      var now, id := clock, nextId;
      clock, nextId := clock + 1, nextId + 1;
      var before := repo.Contents();
      var recorded := repo.RecordObservation(CaseState(c), id, now);
      var obs, isNew := recorded.value.0, recorded.value.1;
      var rs := Readings(c, c.documents);
      CertificatesAreIdentified(c, c.documents);
      ok, counts := PersistReadings(rs, obs, now);
      counts := if isNew then multiset{NewState} + counts else counts;
      WalkDerives(rs, before.events, obs);
      if !ok {
        repo.Rollback(before);
      }
    }

    /** The loop over the documents, as read. */
    method PersistReadings(rs: seq<Reading>, obs: ObsId, now: int) returns (ok: bool, counts: Counts)
      requires AllIdentified(rs)
      modifies repo`events
      ensures var w := Walk(rs, old(repo.events), obs);
              && ok == !w.stopped && counts == w.counts
              && (ok ==> repo.events == UpsertedAll(old(repo.events), w.ds, obs, now, false))
    {
      counts := multiset{};
      var seen: set<EventKey> := {};
      ghost var events, ds := repo.events, [];
      var i := 0;
      while i < |rs|
        invariant 0 <= i <= |rs|
        invariant Walk(rs[..i], events, obs) == Walked(counts, ds, false)
        invariant HasKeys(ds, seen)
        invariant repo.events == UpsertedAll(events, ds, obs, now, false)
      {
        var r := rs[i];
        assert rs[..i + 1][..i] == rs[..i];
        i := i + 1;
        if r.key.None? {
          counts := counts + multiset{Excluded};
          continue;
        }
        counts := counts + multiset{Failed};
        var k := r.key.value;
        if k in seen {
          counts := counts + multiset{Duplicate};
          continue;
        }
        if r.event.None? {
          StoppedStays(rs, i, events, obs);
          return false, counts;
        }
        Agreement.UpsertedKey(events, ds, obs, now, false, k);
        var stored;
        stored, counts := Upsert(k, r.event.value, obs, now, counts);
        if !stored {
          StoppedStays(rs, i, events, obs);
          return false, counts;
        }
        OneMoreKey(ds, Derivation(k, r.event.value), seen);
        UpsertedSnoc(events, ds, Derivation(k, r.event.value), obs, now);
        seen, ds := seen + {k}, ds + [Derivation(k, r.event.value)];
      }
      assert rs[..i] == rs;
      return true, counts;
    }

    /** One event, counted by its outcome. */
    method Upsert(k: EventKey, e: NewEvent, obs: ObsId, now: int, counts: Counts) returns (stored: bool, r: Counts)
      requires Identified(k)
      modifies repo`events
      ensures stored == Acceptable(e)
      ensures !stored ==> r == counts
      ensures stored ==> && repo.events == Upserted(old(repo.events), Derivation(k, e), obs, now)
                         && r == counts + multiset{Stored(OutcomeOf(old(repo.events), k, obs))}
    {
      var outcome := repo.UpsertEvent(k, e, obs, now);
      if outcome.None? {
        return false, counts;
      }
      return true, counts + multiset{Stored(outcome.value)};
    }

    /** Reads and persists one case page; a failed persist leaves no trace but in the
        statistics. */
    method FetchAndPersist(recNo: RecNo, pages: Pages, stats: Stats)
      returns (fetched: bool, r: Stats, ghost visit: Option<Visit>)
      modifies this, repo
      ensures fetched == pages(recNo).Some?
      ensures !fetched ==> && r == stats && visit == None && clock == old(clock) && nextId == old(nextId)
                           && repo.Contents() == old(repo.Contents())
      ensures fetched ==>
                var c := pages(recNo).value;
                && clock == old(clock) + 1 && nextId == old(nextId) + 1
                && visit == (if Mappable(c) then Some(Visit(c, old(nextId), old(clock))) else None)
                && repo.Contents() == Persisted(old(repo.Contents()), CaseState(c), old(nextId), old(clock), false)
                && r == Attempted(stats, visit.Some?, CaseCounts(old(repo.Contents()), c, old(nextId)))
    {
      var page := pages(recNo);
      if page.None? {
        return false, stats, None;
      }
      ghost var id, now := nextId, clock;
      var ok, counts := Persist(page.value);
      r := Attempted(stats, ok, counts);
      if !ok {
        return true, r, None;
      }
      return true, r, Some(Visit(page.value, id, now));
    }

    /** The tables, the clock and the next id are those at the end of the log. */
    ghost predicate At(log: Log)
      reads this, repo
    {
      repo.Contents() == log.end && clock == log.to && nextId == log.nextId
    }

    /** Reads every listed case this run has not read yet; the first page that cannot
        be fetched ends it. */
    method ReadAll(recNos: seq<RecNo>, already: set<RecNo>, pages: Pages, stats: Stats)
      returns (complete: bool, read: set<RecNo>, r: Stats, ghost log: Log, ghost undone: Counts)
      requires Consistent(pages)
      modifies this, repo
      ensures Begins(log, old(repo.Contents()), old(clock), old(nextId))
      ensures Logged(log) && At(log) && FromPages(log.visits, pages) && Balanced(log, Books(stats, r, undone))
      ensures complete <==> AllFetched(Unread(recNos, already), pages)
      ensures OnCourse(log, CourseOf(recNos, already, pages), !complete)
      ensures complete ==>
                && read == already + Unread(recNos, already)
                && HasRead(log, pages, Unread(recNos, already), r.failures - stats.failures)
                && r.fetched == stats.fetched + |Unread(recNos, already)|
    {
      read, r, log, undone := already, stats, NewLog(repo.Contents(), clock, nextId), multiset{};
      complete := true;
      for i := 0 to |recNos|
        invariant Begins(log, old(repo.Contents()), old(clock), old(nextId))
        invariant Logged(log) && At(log) && Balanced(log, Books(stats, r, undone)) && complete
        invariant ReadUpTo(recNos, i, already, read, pages, log, stats, r)
        invariant OnCourse(log, CourseOf(recNos[..i], already, pages), false)
      {
        complete, read, r, log, undone := ReadNext(recNos, i, already, read, pages, r, stats, log, undone);
        if !complete {
          CourseStays(recNos, i + 1, already, pages);
          return;
        }
      }
      assert recNos[..|recNos|] == recNos;
    }

    /** The next listed case, if this run has not read it yet. */
    method ReadNext(recNos: seq<RecNo>, i: nat, ghost already: set<RecNo>, read: set<RecNo>, pages: Pages,
                    stats: Stats, ghost before: Stats, ghost log: Log, ghost undone: Counts)
      returns (fetched: bool, read': set<RecNo>, r: Stats, ghost log': Log, ghost undone': Counts)
      requires Consistent(pages) && i < |recNos|
      requires Logged(log) && At(log) && Balanced(log, Books(before, stats, undone))
      requires ReadUpTo(recNos, i, already, read, pages, log, before, stats)
      requires OnCourse(log, CourseOf(recNos[..i], already, pages), false)
      modifies this, repo
      ensures Begins(log', log.start, log.from, log.firstId)
      ensures Logged(log') && At(log') && Balanced(log', Books(before, r, undone')) && FromPages(log'.visits, pages)
      ensures if fetched then ReadUpTo(recNos, i + 1, already, read', pages, log', before, r)
              else !AllFetched(Unread(recNos, already), pages)
      ensures OnCourse(log', CourseOf(recNos[..i + 1], already, pages), !fetched)
    {
      ghost var done := Unread(recNos[..i], already);
      UnreadStep(recNos, i, already, read, done);
      CourseStep(recNos, i, already, pages, read);
      fetched, read', r, log', undone' := true, read, stats, log, undone;
      if recNos[i] !in read {
        fetched, r, log', undone' := ReadOne(recNos[i], pages, done, stats, before, log, undone);
        read' := read + {recNos[i]};
      }
    }

    /** One more page of a run. */
    method ReadOne(recNo: RecNo, pages: Pages, ghost done: set<RecNo>, stats: Stats, ghost before: Stats,
                   ghost log: Log, ghost undone: Counts)
      returns (fetched: bool, r: Stats, ghost log': Log, ghost undone': Counts)
      requires Consistent(pages) && recNo !in done
      requires Logged(log) && At(log) && Balanced(log, Books(before, stats, undone))
      requires HasRead(log, pages, done, stats.failures - before.failures)
      modifies this, repo
      ensures Begins(log', log.start, log.from, log.firstId)
      ensures Logged(log') && At(log') && Balanced(log', Books(before, r, undone'))
      ensures fetched == pages(recNo).Some? && r.fetched == stats.fetched + (if fetched then 1 else 0)
      ensures RecNosOf(log'.visits) ==
              if fetched && Mappable(pages(recNo).value) then RecNosOf(log.visits) + [recNo] else RecNosOf(log.visits)
      ensures HasRead(log', pages, if fetched then done + {recNo} else done, r.failures - before.failures)
    {
      ghost var visit;
      fetched, r, visit := FetchAndPersist(recNo, pages, stats);
      log', undone' := log, undone;
      if fetched {
        ghost var c := pages(recNo).value;
        ghost var counts := CaseCounts(log.end, c, log.nextId);
        log', undone' := After(log, visit, repo.Contents()), if visit.Some? then undone else undone + counts;
        AfterPage(log, pages, done, Books(before, stats, undone), c, visit, repo.Contents());
        if visit.Some? {
          RecNosSnoc(log.visits, visit.value);
        }
      }
    }

    function Limit(): nat {
      if maxRefreshPerRun < 1 then DEFAULT_MAX_REFRESH else maxRefreshPerRun
    }

    /** Reads the head of the queue of open cases that discovery did not read. */
    method Refresh(already: set<RecNo>, pages: Pages, stats: Stats)
      returns (complete: bool, query: Query, r: Stats, ghost log: Log, ghost undone: Counts)
      requires Consistent(pages) && stats.refreshed == 0
      modifies this, repo
      ensures Begins(log, old(repo.Contents()), old(clock), old(nextId))
      ensures Logged(log) && At(log) && FromPages(log.visits, pages)
      ensures Answered(query) && query.obs == old(repo.observations)
      ensures query.cutoff == old(clock) - refreshInterval && query.limit == Limit()
      ensures Balanced(log, Books(stats, r.(refreshed := 0), undone)) && r.refreshed == r.fetched - stats.fetched
      ensures complete <==> AllFetched(AsSet(query.due) - already, pages)
      ensures OnCourse(log, CourseOf(query.due, already, pages), !complete)
      ensures complete ==>
                && HasRead(log, pages, AsSet(query.due) - already, r.failures - stats.failures)
                && r.refreshed == |AsSet(query.due) - already|
    {
      var obs, cutoff := repo.observations, clock - refreshInterval;
      query := Query(obs, cutoff, Limit(), OpenCasesDue(obs, cutoff, Limit()));
      var read;
      complete, read, r, log, undone := ReadAll(query.due, already, pages, stats);
      r := r.(refreshed := r.fetched - stats.fetched);
    }

    /** Reads every case the search lists, each once. */
    method Discover(summaries: seq<RecNo>, pages: Pages)
      returns (complete: bool, read: set<RecNo>, r: Stats, ghost log: Log, ghost undone: Counts)
      requires Consistent(pages)
      modifies this, repo
      ensures Begins(log, old(repo.Contents()), old(clock), old(nextId))
      ensures Logged(log) && At(log) && FromPages(log.visits, pages)
      ensures Accounts(|log.visits|, Tally(log), r, undone) && r.refreshed == 0
      ensures r.discovered == r.newCases + if complete then 0 else 1
      ensures complete <==> AllFetched(AsSet(summaries), pages)
      ensures OnCourse(log, CourseOf(summaries, {}, pages), !complete)
      ensures complete ==>
                && read == AsSet(summaries) && HasRead(log, pages, AsSet(summaries), r.failures)
                && r.newCases == |AsSet(summaries)|
    {
      var stats;
      complete, read, stats, log, undone := ReadAll(summaries, {}, pages, NO_STATS);
      r := stats.(discovered := stats.fetched + if complete then 0 else 1, newCases := stats.fetched);
      FirstRound(|log.visits|, Tally(log), stats, r, undone);
      assert Unread(summaries, {}) == AsSet(summaries) && {} + AsSet(summaries) == AsSet(summaries);
    }

    /** Discovery, then the refresh. */
    method DiscoverAndRefresh(summaries: seq<RecNo>, pages: Pages)
      returns (error: Option<RunError>, stats: Stats, ghost first: Log, ghost query: Query, ghost second: Log,
               ghost undone: Counts)
      requires Consistent(pages)
      modifies this, repo
      ensures Begins(first, old(repo.Contents()), old(clock), old(nextId)) && At(second)
      ensures TwoRounds(first, second, pages) && Accounted(first, second, stats, undone)
      ensures error == ReadingEnds(AsSet(summaries), AsSet(query.due) - AsSet(summaries), pages)
      ensures Courses(first, second, summaries, query.due, pages)
      ensures AllFetched(AsSet(summaries), pages) ==> Asked(query, first, refreshInterval, Limit())
      ensures stats.discovered == stats.newCases + if AllFetched(AsSet(summaries), pages) then 0 else 1
      ensures Finished(error) ==>
                HaveRead(first, second, pages, AsSet(summaries), AsSet(query.due) - AsSet(summaries), stats)
    {
      error := Some(FetchFailed);
      var complete, read;
      complete, read, stats, first, undone := Discover(summaries, pages);
      query, second := Query(repo.observations, 0, 0, []), NewLog(repo.Contents(), clock, nextId);
      if complete {
        ghost var middle, undone' := stats, undone;
        complete, query, stats, second, undone' := Refresh(read, pages, stats);
        BothAdd(first, second, middle, stats, undone, undone');
        undone := undone + undone';
        if complete {
          error := if stats.failures > 0 then Some(PersistFailures) else None;
        }
      } else {
        OnlyFirst(first, second, stats, undone);
      }
    }

    /** One run. A window that is not one, and a search or a page that cannot be fetched
        abort it; failed persists are reported at the end, and what was counted before
        their rollback is in `undone`. */
    method Run(search: CaseSearch, w: DateRange, pages: Pages)
      returns (error: Option<RunError>, stats: Stats, ghost first: Log, ghost query: Query, ghost second: Log,
               ghost undone: Counts)
      requires Consistent(pages)
      modifies this, repo
      ensures Begins(first, old(repo.Contents()), old(clock), old(nextId)) && At(second)
      ensures TwoRounds(first, second, pages) && Accounted(first, second, stats, undone)
      ensures error == Ending(search, w, AsSet(query.due) - Found(search, w), pages)
      ensures Courses(first, second, if Ready(search, w) then search(w).value else [], query.due, pages)
      ensures Ready(search, w) && AllFetched(Found(search, w), pages) ==>
                Asked(query, first, refreshInterval, if maxRefreshPerRun < 1 then 500 else maxRefreshPerRun)
      ensures stats.discovered == stats.newCases + if AllFetched(Found(search, w), pages) then 0 else 1
      ensures Finished(error) ==>
                HaveRead(first, second, pages, Found(search, w), AsSet(query.due) - Found(search, w), stats)
    {
      first := NewLog(repo.Contents(), clock, nextId);
      stats, query, second, undone := NO_STATS, Query(repo.observations, 0, 0, []), first, multiset{};
      NothingRead(first, pages);
      if w.from == ZERO_DATE || w.to == ZERO_DATE || w.to < w.from {
        return Some(InvalidWindow), stats, first, query, second, undone;
      }
      var summaries := search(w);
      if summaries.None? {
        return Some(SearchFailed), stats, first, query, second, undone;
      }
      error, stats, first, query, second, undone := DiscoverAndRefresh(summaries.value, pages);
    }
  }

  // ----- what a run promises -----

  /** The second log begins where the first one ends. */
  predicate Follows(first: Log, second: Log) {
    second.start == first.end && second.from == first.to && second.firstId == first.nextId
  }

  /** What the search of a window lists. */
  type CaseSearch = DateRange -> Option<seq<RecNo>>

  predicate Ready(search: CaseSearch, w: DateRange) {
    w.Valid() && search(w).Some?
  }

  ghost function Found(search: CaseSearch, w: DateRange): set<RecNo> {
    if Ready(search, w) then AsSet(search(w).value) else {}
  }

  /** Discovery and refresh, one after the other. */
  ghost predicate TwoRounds(first: Log, second: Log, pages: Pages) {
    match first
    case Log(_, _, _, visits, _, _, _) =>
      && Logged(first) && Logged(second) && Follows(first, second)
      && FromPages(visits, pages) && FromPages(second.visits, pages)
  }

  /** Both rounds go through their lists in order: the cases found, and then, unless a page
      of those could not be fetched, the cases due that were not among them. */
  ghost predicate Courses(first: Log, second: Log, found: seq<RecNo>, due: seq<RecNo>, pages: Pages) {
    match first
    case Log(_, _, _, visits, _, _, _) =>
      var course := CourseOf(found, {}, pages);
      && RecNosOf(visits) == course.recNos
      && RecNosOf(second.visits) == if course.stopped then [] else CourseOf(due, AsSet(found), pages).recNos
  }

  /** The queue was asked after the first round, for cases not seen for the interval. */
  ghost predicate Asked(query: Query, first: Log, interval: int, limit: nat) {
    match query
    case Query(obs, cutoff, max, _) =>
      Answered(query) && obs == first.end.observations && cutoff == first.to - interval && max == limit
  }

  /** Each round read the cases it had to and persisted those that can be persisted. */
  ghost predicate HaveRead(first: Log, second: Log, pages: Pages, listed: set<RecNo>, due: set<RecNo>, stats: Stats) {
    match first
    case Log(_, _, _, visits, _, _, _) =>
      && VisitedRecNos(visits) == Persistable(listed, pages) && stats.newCases == |listed|
      && VisitedRecNos(second.visits) == Persistable(due, pages) && stats.refreshed == |due|
      && (stats.failures == 0 <==> Persistable(listed, pages) == listed && Persistable(due, pages) == due)
  }

  /** How a run ends that has to read these cases and then those due: a page that
      cannot be fetched comes before a case that cannot be persisted. */
  ghost function ReadingEnds(listed: set<RecNo>, due: set<RecNo>, pages: Pages): Option<RunError> {
    if !AllFetched(listed, pages) || !AllFetched(due, pages) then Some(FetchFailed)
    else if Persistable(listed, pages) == listed && Persistable(due, pages) == due then None
    else Some(PersistFailures)
  }

  ghost function Ending(search: CaseSearch, w: DateRange, due: set<RecNo>, pages: Pages): Option<RunError> {
    if !w.Valid() then Some(InvalidWindow)
    else if search(w).None? then Some(SearchFailed)
    else ReadingEnds(Found(search, w), due, pages)
  }

  /** A window that is not one comes before a search that fails, that before a page that
      cannot be fetched, and that before a case that cannot be persisted. */
  lemma RunEnds(search: CaseSearch, w: DateRange, due: seq<RecNo>, pages: Pages)
    ensures var error := Ending(search, w, AsSet(due) - Found(search, w), pages);
            var refused := w.from == 10101 || w.to == 10101 || w.to < w.from;
            && (error == Some(InvalidWindow) <==> refused)
            && (error == Some(SearchFailed) <==> !refused && search(w).None?)
            && (!refused && search(w).Some? ==>
                  var ns := search(w).value + due;
                  && (error == Some(FetchFailed) <==> exists n :: n in ns && pages(n).None?)
                  && (error == Some(PersistFailures) <==>
                        && (forall n :: n in ns ==> pages(n).Some?)
                        && exists n :: n in ns && !Mappable(pages(n).value))
                  && (error == None <==> forall n :: n in ns ==> pages(n).Some? && Mappable(pages(n).value)))
  {
    if w.Valid() && search(w).Some? {
      var listed, found := search(w).value, AsSet(search(w).value);
      var rest := AsSet(due) - found;
      assert forall n :: n in listed + due <==> n in found || n in rest;
      PersistableIff(found, pages);
      PersistableIff(rest, pages);
    }
  }

  lemma PersistableIff(ns: set<RecNo>, pages: Pages)
    ensures Persistable(ns, pages) == ns <==> forall n :: n in ns ==> pages(n).Some? && Mappable(pages(n).value)
  {
    var some := Persistable(ns, pages);
    forall n ensures n in some <==> n in ns && pages(n).Some? && Mappable(pages(n).value) {
    }
    if forall n :: n in ns ==> n in some {
      assert some == ns;
    }
  }

  /** The run got to its end. */
  predicate Finished(error: Option<RunError>) {
    error in {None, Some(PersistFailures)}
  }

  /** What statistics say of the visits so far. */
  ghost predicate Accounts(visited: nat, tally: Counts, stats: Stats, undone: Counts) {
    match stats
    case Stats(_, newCases, refreshed, fetched, observed, failures, counts) =>
      && fetched == observed + failures && fetched == newCases + refreshed && observed == visited
      && counts == tally + undone && (failures == 0 ==> undone == multiset{})
      && Unclassified(undone) == failures
  }

  ghost predicate Accounted(first: Log, second: Log, stats: Stats, undone: Counts) {
    match first
    case Log(_, _, _, visits, _, _, _) =>
      && Accounts(|visits| + |second.visits|, Tally(first) + Tally(second), stats, undone)
      && stats.newCases >= |visits| && stats.refreshed >= |second.visits|
  }

  /** The second round adds to what the first one counted. */
  lemma BothAdd(first: Log, second: Log, middle: Stats, stats: Stats, undone: Counts, undone': Counts)
    requires Accounts(|first.visits|, Tally(first), middle, undone) && middle.refreshed == 0
    requires Balanced(second, Books(middle, stats.(refreshed := 0), undone'))
    requires stats.refreshed == stats.fetched - middle.fetched
    ensures Accounted(first, second, stats, undone + undone')
    ensures stats.discovered == middle.discovered && stats.newCases == middle.newCases
  {
    UnclassifiedInBoth(undone, undone');
  }

  /** What a run counted, less what was undone, is how the tables grew. */
  lemma RunAddsUp(first: Log, second: Log, pages: Pages, stats: Stats, undone: Counts)
    requires TwoRounds(first, second, pages) && Accounted(first, second, stats, undone)
    ensures undone <= stats.counts
    ensures Shows(stats.counts - undone, GrowthOf(first, second))
  {
    TallyAddsUp(first.start, first.visits);
    TallyAddsUp(second.start, second.visits);
    UnclassifiedInBoth(Tally(first), Tally(second));
    assert stats.counts - undone == Tally(first) + Tally(second);
  }

  /** Every failed certificate counted is a duplicate, stored, or the one at which its
      case failed. */
  lemma RunClassifies(first: Log, second: Log, pages: Pages, stats: Stats, undone: Counts)
    requires TwoRounds(first, second, pages) && Accounted(first, second, stats, undone)
    ensures Unclassified(stats.counts) == stats.failures && (stats.failures == 0 ==> undone == multiset{})
  {
    TallyAddsUp(first.start, first.visits);
    TallyAddsUp(second.start, second.visits);
    UnclassifiedInBoth(Tally(first), Tally(second));
    UnclassifiedInBoth(Tally(first) + Tally(second), undone);
  }

  /** So the statistics say what the run left in the tables exactly if every case was
      persisted: what a rolled-back case counted stays counted. */
  lemma StatisticsAreValidIff(first: Log, second: Log, pages: Pages, stats: Stats, undone: Counts)
    requires TwoRounds(first, second, pages) && Accounted(first, second, stats, undone)
    ensures Shows(stats.counts, GrowthOf(first, second)) <==> stats.failures == 0
  {
    RunAddsUp(first, second, pages, stats, undone);
    RunClassifies(first, second, pages, stats, undone);
    ShowsIff(stats, undone, GrowthOf(first, second));
  }

  lemma ShowsIff(stats: Stats, undone: Counts, g: Growth)
    requires undone <= stats.counts && Shows(stats.counts - undone, g)
    requires Unclassified(stats.counts) == stats.failures && (stats.failures == 0 ==> undone == multiset{})
    ensures Shows(stats.counts, g) <==> stats.failures == 0
  {
    if stats.failures == 0 {
      assert stats.counts - undone == stats.counts;
    }
  }

  lemma OnlyFirst(first: Log, second: Log, stats: Stats, undone: Counts)
    requires Accounts(|first.visits|, Tally(first), stats, undone) && stats.refreshed == 0 && second.visits == []
    ensures Accounted(first, second, stats, undone)
  {
  }

  lemma NothingRead(log: Log, pages: Pages)
    requires log.visits == [] && log.start == log.end && log.from == log.to && log.firstId == log.nextId
    ensures TwoRounds(log, log, pages) && Accounted(log, log, NO_STATS, multiset{})
    ensures Courses(log, log, [], [], pages)
  {
  }

  lemma FirstRound(n: nat, t: Counts, r: Stats, stats: Stats, undone: Counts)
    requires Adds(n, t, Books(NO_STATS, r, undone))
    requires stats == r.(discovered := stats.discovered, newCases := r.fetched)
    ensures Accounts(n, t, stats, undone) && stats.refreshed == 0
  {
  }

  lemma PersistableStep(done: set<RecNo>, pages: Pages, n: RecNo)
    requires n !in done && pages(n).Some?
    ensures Persistable(done + {n}, pages) == Persistable(done, pages) + if Mappable(pages(n).value) then {n} else {}
    ensures Persistable(done + {n}, pages) == done + {n}
            <==> Persistable(done, pages) == done && Mappable(pages(n).value)
  {
    var after := Persistable(done + {n}, pages);
    assert after == Persistable(done, pages) + if Mappable(pages(n).value) then {n} else {};
    if after == done + {n} {
      assert n in after;
      assert Persistable(done, pages) == done;
    }
  }

  /** The cases listed that were not read before. */
  function Unread(recNos: seq<RecNo>, already: set<RecNo>): set<RecNo> {
    AsSet(recNos) - already
  }

  /** The cases at the front of the list that had to be read were read. */
  ghost predicate ReadUpTo(recNos: seq<RecNo>, i: nat, already: set<RecNo>, read: set<RecNo>, pages: Pages, log: Log,
                           before: Stats, after: Stats)
    requires i <= |recNos|
  {
    match after
    case Stats(_, _, _, fetched, _, failures, _) =>
      var done := Unread(recNos[..i], already);
      && read == already + done && HasRead(log, pages, done, failures - before.failures)
      && fetched == before.fetched + |done|
  }

  lemma UnreadStep(recNos: seq<RecNo>, i: nat, already: set<RecNo>, read: set<RecNo>, done: set<RecNo>)
    requires i < |recNos| && done == Unread(recNos[..i], already) && read == already + done
    ensures var next := Unread(recNos[..i + 1], already);
            if recNos[i] in read then next == done
            else next == done + {recNos[i]} && recNos[i] !in done && read + {recNos[i]} == already + next
    ensures recNos[i] !in read ==> recNos[i] in Unread(recNos, already)
  {
    assert recNos[..i + 1] == recNos[..i] + [recNos[i]];
    assert AsSet(recNos[..i + 1]) == AsSet(recNos[..i]) + {recNos[i]};
  }

  lemma VisitsSnoc(visits: seq<Visit>, v: Visit)
    ensures VisitedRecNos(visits + [v]) == VisitedRecNos(visits) + {v.c.recNo}
  {
    assert (visits + [v])[..|visits|] == visits;
  }
}
