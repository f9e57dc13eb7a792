/** The conditional upsert gives the table plain recomputation would give. */
module EventAgreement {
  import opened PublicEvent
  import opened EventStore
  import Stockholm

  // ----- what a record says, once -----

  lemma {:induction false} ReadingKeys(c: Stockholm.Case, docs: seq<Stockholm.Document>, i: nat)
    requires i < |docs|
    ensures var r := Readings(c, docs)[i];
            r.key.Some? ==> RecordOfKey(r.key.value) == CaseRecord(c.recNo)
  {
    assert Readings(c, docs)[i] == Read(c, docs[i]);
  }

  /** One event per identifier, and only identifiers of the record itself. */
  lemma SaysOnce(p: Payload, k: EventKey, e: NewEvent, e': NewEvent)
    requires Says(p, k, e)
    ensures RecordOfKey(k) == RecordOf(p)
    ensures Says(p, k, e') ==> e == e'
  {
    if p.CaseState? {
      var rs := Readings(p.c, p.c.documents);
      CertificatesExact(rs, k, e);
      CertificatesExact(rs, k, e');
      ReadingKeys(p.c, p.c.documents, FirstWith(rs, k).value);
    }
  }

  // ----- the effect of a batch of upserts on one key -----

  lemma {:induction false} UpsertedKey(events: map<EventKey, EventRow>, ds: seq<Derivation>, obs: ObsId, now: int,
                                       overwrite: bool, k: EventKey)
    ensures var r := UpsertedAll(events, ds, obs, now, overwrite);
            && (k in r <==> k in events || HasKey(ds, k))
            && (k in events && !HasKey(ds, k) ==> r[k] == events[k])
            && (k in r ==> r[k].createdAt == if k in events then events[k].createdAt else now)
            && (HasKey(ds, k) ==>
                  && r[k].observation == obs
                  && (Derivation(k, r[k].event) in ds
                      || (!overwrite && k in events && events[k].observation == obs && r[k].event == events[k].event)))
    decreases |ds|
  {
    if ds != [] {
      var front, d := ds[..|ds| - 1], ds[|ds| - 1];
      UpsertedKey(events, front, obs, now, overwrite, k);
      HasKeySnoc(front, d, k);
      assert ds == front + [d];
    }
  }

  // ----- agreement -----

  lemma RecordedKeeps(obs: map<Payload, Observation>, p: Payload, freshId: ObsId, now: int)
    requires IdsDistinct(obs) && forall q :: q in obs ==> obs[q].id != freshId
    ensures IdsDistinct(Recorded(obs, p, freshId, now))
    ensures forall q :: q in obs ==>
              q in Recorded(obs, p, freshId, now) && Recorded(obs, p, freshId, now)[q].id == obs[q].id
  {
  }

  lemma StillBacked(obs: map<Payload, Observation>, p: Payload, freshId: ObsId, now: int, k: EventKey, row: EventRow)
    requires Backed(obs, k, row)
    ensures Backed(Recorded(obs, p, freshId, now), k, row)
  {
    var q :| q in obs && obs[q].id == row.observation && Says(q, k, row.event);
    var obs' := Recorded(obs, p, freshId, now);
    assert q in obs' && obs'[q].id == row.observation;
  }

  /** A row that points to the observation of p carries what p says. */
  lemma BackedBy(obs: map<Payload, Observation>, k: EventKey, row: EventRow, p: Payload)
    requires IdsDistinct(obs) && Backed(obs, k, row) && p in obs && obs[p].id == row.observation
    ensures Says(p, k, row.event)
  {
  }

  lemma PersistAgrees(db: Db, p: Payload, freshId: ObsId, now: int)
    requires Agrees(db) && FreshFor(db, freshId)
    ensures Agrees(Persisted(db, p, freshId, now, false))
  {
    if Derived(p).Some? {
      var obs := Recorded(db.observations, p, freshId, now);
      var ds := Derived(p).value;
      var events := UpsertedAll(db.events, ds, obs[p].id, now, false);
      RecordedKeeps(db.observations, p, freshId, now);
      forall k | k in events ensures Backed(obs, k, events[k]) {
        UpsertedKey(db.events, ds, obs[p].id, now, false, k);
        if k in db.events {
          StillBacked(db.observations, p, freshId, now, k, db.events[k]);
        }
        if HasKey(ds, k) {
          if Derivation(k, events[k].event) in ds {
            assert Says(p, k, events[k].event);
          } else {
            BackedBy(obs, k, db.events[k], p);
          }
          assert p in obs && obs[p].id == events[k].observation && Says(p, k, events[k].event);
        }
      }
    }
  }

  /** In every reachable state each event is what the record it points to says. */
  lemma {:induction false} EventsAgree(db: Db, ops: seq<Op>)
    requires Agrees(db) && Run(db, ops, false).Some?
    ensures Agrees(Run(db, ops, false).value)
    decreases |ops|
  {
    if ops != [] {
      EventsAgree(db, ops[..|ops| - 1]);
      var op := ops[|ops| - 1];
      PersistAgrees(Run(db, ops[..|ops| - 1], false).value, op.payload, op.freshId, op.now);
    }
  }

  // ----- skipping unchanged observations loses nothing -----

  /** The same rows up to the time of the last write. */
  predicate SameButUpdated(a: map<EventKey, EventRow>, b: map<EventKey, EventRow>) {
    && a.Keys == b.Keys
    && forall k :: k in a ==>
         a[k].event == b[k].event && a[k].observation == b[k].observation && a[k].createdAt == b[k].createdAt
  }

  lemma PersistRefines(a: Db, b: Db, p: Payload, freshId: ObsId, now: int)
    requires Agrees(a) && FreshFor(a, freshId)
    requires a.observations == b.observations && SameButUpdated(a.events, b.events)
    ensures var a', b' := Persisted(a, p, freshId, now, false), Persisted(b, p, freshId, now, true);
            a'.observations == b'.observations && SameButUpdated(a'.events, b'.events)
  {
    if Derived(p).Some? {
      var obs := Recorded(a.observations, p, freshId, now);
      var ds := Derived(p).value;
      RecordedKeeps(a.observations, p, freshId, now);
      var ea, eb := UpsertedAll(a.events, ds, obs[p].id, now, false), UpsertedAll(b.events, ds, obs[p].id, now, true);
      forall k ensures k in ea <==> k in eb {
        UpsertedKey(a.events, ds, obs[p].id, now, false, k);
        UpsertedKey(b.events, ds, obs[p].id, now, true, k);
      }
      forall k | k in ea
        ensures ea[k].event == eb[k].event && ea[k].observation == eb[k].observation
        ensures ea[k].createdAt == eb[k].createdAt
      {
        UpsertedKey(a.events, ds, obs[p].id, now, false, k);
        UpsertedKey(b.events, ds, obs[p].id, now, true, k);
        if HasKey(ds, k) {
          assert Says(p, k, eb[k].event);
          if Derivation(k, ea[k].event) !in ds {
            StillBacked(a.observations, p, freshId, now, k, a.events[k]);
            BackedBy(obs, k, a.events[k], p);
          }
          SaysOnce(p, k, eb[k].event, ea[k].event);
        }
      }
    }
  }

  /** Skipping the write when the observation is unchanged gives the same table as
      always overwriting, whatever was persisted in whatever order, from any two states
      of the tables that agree and differ in write times only. */
  lemma {:induction false} ConditionalUpsertRefinesRecomputation(a: Db, b: Db, ops: seq<Op>)
    requires Agrees(a) && a.observations == b.observations && SameButUpdated(a.events, b.events)
    requires Run(a, ops, false).Some?
    ensures Run(b, ops, true).Some?
    ensures var a', b' := Run(a, ops, false).value, Run(b, ops, true).value;
            a'.observations == b'.observations && SameButUpdated(a'.events, b'.events)
    decreases |ops|
  {
    if ops != [] {
      var front, op := ops[..|ops| - 1], ops[|ops| - 1];
      ConditionalUpsertRefinesRecomputation(a, b, front);
      EventsAgree(a, front);
      PersistRefines(Run(a, front, false).value, Run(b, front, true).value, op.payload, op.freshId, op.now);
    }
  }

  // ----- re-running on an unchanged source -----

  /** Everything p says is in the table and points to p's observation. */
  predicate Settled(db: Db, p: Payload) {
    Derived(p).Some? ==>
      && p in db.observations
      && forall i :: 0 <= i < |Derived(p).value| ==>
           var k := Derived(p).value[i].key;
           k in db.events && db.events[k].observation == db.observations[p].id
  }

  lemma PersistSettles(db: Db, p: Payload, freshId: ObsId, now: int)
    ensures Settled(Persisted(db, p, freshId, now, false), p)
  {
    if Derived(p).Some? {
      var ds := Derived(p).value;
      var obs := Recorded(db.observations, p, freshId, now);
      forall i | 0 <= i < |ds| ensures
        var events := UpsertedAll(db.events, ds, obs[p].id, now, false);
        ds[i].key in events && events[ds[i].key].observation == obs[p].id
      {
        UpsertedKey(db.events, ds, obs[p].id, now, false, ds[i].key);
      }
    }
  }

  /** Persisting another record does not unsettle this one. */
  lemma PersistKeepsSettled(db: Db, p: Payload, q: Payload, freshId: ObsId, now: int)
    requires Settled(db, q) && RecordOf(p) != RecordOf(q)
    ensures Settled(Persisted(db, p, freshId, now, false), q)
  {
    if Derived(p).Some? && Derived(q).Some? {
      var ds, qs := Derived(p).value, Derived(q).value;
      var obs := Recorded(db.observations, p, freshId, now);
      forall i | 0 <= i < |qs| ensures
        var events := UpsertedAll(db.events, ds, obs[p].id, now, false);
        qs[i].key in events && events[qs[i].key].observation == obs[q].id
      {
        var k := qs[i].key;
        UpsertedKey(db.events, ds, obs[p].id, now, false, k);
        assert Says(q, k, qs[i].event) by { assert qs[i] == Derivation(k, qs[i].event); }
        SaysOnce(q, k, qs[i].event, qs[i].event);
        if HasKey(ds, k) {
          var j :| 0 <= j < |ds| && ds[j].key == k;
          assert ds[j] == Derivation(k, ds[j].event);
          SaysOnce(p, k, ds[j].event, ds[j].event);
        }
      }
    }
  }

  lemma {:induction false} SettledUpsertsSkip(events: map<EventKey, EventRow>, ds: seq<Derivation>, obs: ObsId,
                                              now: int)
    requires forall i :: 0 <= i < |ds| ==> ds[i].key in events && events[ds[i].key].observation == obs
    ensures UpsertedAll(events, ds, obs, now, false) == events
    decreases |ds|
  {
    if ds != [] {
      SettledUpsertsSkip(events, ds[..|ds| - 1], obs, now);
      assert ds[|ds| - 1].key in events;
    }
  }

  /** The same observed states up to when each was last seen. */
  predicate SameButSeen(a: map<Payload, Observation>, b: map<Payload, Observation>) {
    && a.Keys == b.Keys
    && forall p :: p in a ==> a[p].id == b[p].id && a[p].firstObservedAt == b[p].firstObservedAt
  }

  lemma PersistSettledAgain(db: Db, p: Payload, freshId: ObsId, now: int)
    requires Settled(db, p)
    ensures var db' := Persisted(db, p, freshId, now, false);
            db'.events == db.events && SameButSeen(db.observations, db'.observations)
  {
    if Derived(p).Some? {
      SettledUpsertsSkip(db.events, Derived(p).value, db.observations[p].id, now);
    }
  }

  /** The source shows each record in one state. */
  predicate SingleState(ops: seq<Op>) {
    forall i, j :: 0 <= i < |ops| && 0 <= j < |ops| && RecordOf(ops[i].payload) == RecordOf(ops[j].payload) ==>
      ops[i].payload == ops[j].payload
  }

  lemma {:induction false} RunSettles(db: Db, ops: seq<Op>, i: nat)
    requires SingleState(ops) && Run(db, ops, false).Some? && i < |ops|
    ensures Settled(Run(db, ops, false).value, ops[i].payload)
    decreases |ops|
  {
    var front, op := ops[..|ops| - 1], ops[|ops| - 1];
    var before := Run(db, front, false).value;
    if ops[i].payload == op.payload {
      PersistSettles(before, op.payload, op.freshId, op.now);
    } else {
      RunSettles(db, front, i);
      PersistKeepsSettled(before, op.payload, ops[i].payload, op.freshId, op.now);
    }
  }

  lemma {:induction false} SettledRun(db: Db, ops: seq<Op>)
    requires Run(db, ops, false).Some?
    requires forall i :: 0 <= i < |ops| ==> Settled(db, ops[i].payload)
    ensures var db' := Run(db, ops, false).value;
            db'.events == db.events && SameButSeen(db.observations, db'.observations)
    decreases |ops|
  {
    if ops != [] {
      var front, op := ops[..|ops| - 1], ops[|ops| - 1];
      SettledRun(db, front);
      var before := Run(db, front, false).value;
      assert Settled(db, op.payload);
      assert Settled(before, op.payload);
      PersistSettledAgain(before, op.payload, op.freshId, op.now);
    }
  }

  /** Every record persisted again was persisted in that state before. */
  predicate OnlyStatesOf(first: seq<Op>, again: seq<Op>) {
    forall j :: 0 <= j < |again| ==> PersistedIn(first, again[j].payload)
  }

  predicate PersistedIn(ops: seq<Op>, p: Payload) {
    exists i :: 0 <= i < |ops| && ops[i].payload == p
  }

  /** Running again over records a first run has persisted, from a source that shows
      each in one state, changes nothing but when they were last observed. */
  lemma RerunOnlySeesAgain(db: Db, first: seq<Op>, again: seq<Op>)
    requires SingleState(first) && Run(db, first, false).Some?
    requires Run(Run(db, first, false).value, again, false).Some?
    requires OnlyStatesOf(first, again)
    ensures var a := Run(db, first, false).value;
            var b := Run(a, again, false).value;
            b.events == a.events && SameButSeen(a.observations, b.observations)
  {
    var a := Run(db, first, false).value;
    forall j | 0 <= j < |again| ensures Settled(a, again[j].payload) {
      var i :| 0 <= i < |first| && first[i].payload == again[j].payload;
      RunSettles(db, first, i);
    }
    SettledRun(a, again);
  }
}
