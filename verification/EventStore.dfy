/** Observations and the events derived from them, across both sources
    (internal/publicevent/publicevent.repository.go and the two persist functions). */
module EventStore {
  import opened Wrappers
  import opened PublicEvent
  import Stockholm
  import Arbetsmiljoverket

  type ObsId = int

  /** The content of an observation: the parsed source record. Its hash is taken as
      injective, so the payload itself is the identity of an observed state. */
  datatype Payload = CaseState(c: Stockholm.Case) | DiaryRow(d: Arbetsmiljoverket.Document)

  datatype Record = CaseRecord(recNo: RecNo) | DiaryRecord(number: string)

  datatype Derivation = Derivation(key: EventKey, event: NewEvent)

  datatype Observation = Observation(id: ObsId, firstObservedAt: int, lastObservedAt: int)

  datatype EventRow = EventRow(event: NewEvent, observation: ObsId, createdAt: int, updatedAt: int)

  datatype Db = Db(observations: map<Payload, Observation>, events: map<EventKey, EventRow>)

  function RecordOf(p: Payload): Record {
    match p
    case CaseState(c) => CaseRecord(c.recNo)
    case DiaryRow(d) => DiaryRecord(d.documentNumber)
  }

  function RecordOfKey(k: EventKey): Record {
    match k
    case DiaryDocument(number) => DiaryRecord(number)
    case Certificate(recNo, _, _, _) => CaseRecord(recNo)
  }

  // ----- what the repository refuses -----

  /** A record number is never empty; a document number can be. */
  predicate Named(p: Payload) {
    p.DiaryRow? ==> p.d.documentNumber != ""
  }

  /** The hashed identifier of a certificate is never empty. */
  predicate Identified(k: EventKey) {
    k.DiaryDocument? ==> k.number != ""
  }

  // ----- what a record says -----

  predicate HasKey(ds: seq<Derivation>, k: EventKey) {
    exists i :: 0 <= i < |ds| && ds[i].key == k
  }

  /** How a document of a case is read: its identifier if it is a failed
      certificate, and the event it maps to if it can be mapped. */
  datatype Reading = Reading(key: Option<EventKey>, event: Option<NewEvent>)

  function Read(c: Stockholm.Case, d: Stockholm.Document): Reading {
    Reading(if Stockholm.IsFailedCertificate(d) then Some(Stockholm.EventID(c.recNo, d)) else None,
            Stockholm.ToEvent(c, d))
  }

  function Readings(c: Stockholm.Case, docs: seq<Stockholm.Document>): (r: seq<Reading>)
    ensures |r| == |docs|
    ensures forall i :: 0 <= i < |docs| ==> r[i] == Read(c, docs[i])
  {
    if docs == [] then [] else Readings(c, docs[..|docs| - 1]) + [Read(c, docs[|docs| - 1])]
  }

  /** The failed certificates in list order, the first of those with equal metadata
      standing for all; none if one of them cannot be mapped or is not accepted. */
  function Certificates(rs: seq<Reading>): Option<seq<Derivation>> {
    if rs == [] then Some([]) else
      var front := Certificates(rs[..|rs| - 1]);
      var r := rs[|rs| - 1];
      if front.None? then None
      else if r.key.None? || HasKey(front.value, r.key.value) then front
      else if r.event.None? || !Acceptable(r.event.value) then None
      else Some(front.value + [Derivation(r.key.value, r.event.value)])
  }

  function Derived(p: Payload): Option<seq<Derivation>> {
    match p
    case CaseState(c) => Certificates(Readings(c, c.documents))
    case DiaryRow(d) =>
      var t := Arbetsmiljoverket.EventTypeOf(d.documentType);
      if t.None? || d.documentNumber == "" || !Acceptable(Arbetsmiljoverket.ToEvent(d, t.value)) then None
      else Some([Derivation(DiaryDocument(d.documentNumber), Arbetsmiljoverket.ToEvent(d, t.value))])
  }

  predicate Says(p: Payload, k: EventKey, e: NewEvent) {
    Derived(p).Some? && Derivation(k, e) in Derived(p).value
  }

  /** Index of the first failed certificate with an identifier. */
  function FirstWith(rs: seq<Reading>, k: EventKey): (r: Option<nat>)
    ensures r.Some? ==> r.value < |rs| && rs[r.value].key == Some(k)
    ensures forall j :: 0 <= j < (if r.Some? then r.value else |rs|) ==> rs[j].key != Some(k)
  {
    if rs == [] then None else
      var n := |rs| - 1;
      var front := FirstWith(rs[..n], k);
      if front.Some? then front else if rs[n].key == Some(k) then Some(n) else None
  }

  /** A mappable case says exactly: for each identifier of a failed certificate, the
      mapping of the first document with it. In particular, one event a key. */
  lemma {:induction false} CertificatesExact(rs: seq<Reading>, k: EventKey, e: NewEvent)
    requires Certificates(rs).Some?
    ensures var first := FirstWith(rs, k);
            && (Derivation(k, e) in Certificates(rs).value <==> first.Some? && rs[first.value].event == Some(e))
            && (HasKey(Certificates(rs).value, k) <==> first.Some?)
    decreases |rs|
  {
    if rs != [] {
      var n := |rs| - 1;
      CertificatesExact(rs[..n], k, e);
      var front, all := Certificates(rs[..n]).value, Certificates(rs).value;
      if all != front {
        HasKeySnoc(front, all[|all| - 1], k);
      }
    }
  }

  lemma HasKeySnoc(ds: seq<Derivation>, d: Derivation, k: EventKey)
    ensures HasKey(ds + [d], k) <==> HasKey(ds, k) || d.key == k
  {
    if HasKey(ds, k) {
      var i :| 0 <= i < |ds| && ds[i].key == k;
      assert (ds + [d])[i].key == k;
    }
    assert (ds + [d])[|ds|] == d;
  }

  // ----- the two tables -----

  function Recorded(obs: map<Payload, Observation>, p: Payload, freshId: ObsId, now: int): map<Payload, Observation> {
    if p in obs then obs[p := Observation(obs[p].id, obs[p].firstObservedAt, now)]
    else obs[p := Observation(freshId, now, now)]
  }

  /** The conditional upsert: an event whose observation is unchanged is left alone. */
  function Upserted(events: map<EventKey, EventRow>, d: Derivation, obs: ObsId, now: int): map<EventKey, EventRow> {
    if d.key !in events then events[d.key := EventRow(d.event, obs, now, now)]
    else if events[d.key].observation == obs then events
    else events[d.key := EventRow(d.event, obs, events[d.key].createdAt, now)]
  }

  /** The plain alternative: always overwrite. */
  function Overwritten(events: map<EventKey, EventRow>, d: Derivation, obs: ObsId, now: int): map<EventKey, EventRow> {
    events[d.key := EventRow(d.event, obs, if d.key in events then events[d.key].createdAt else now, now)]
  }

  function UpsertedAll(events: map<EventKey, EventRow>, ds: seq<Derivation>, obs: ObsId, now: int,
                       overwrite: bool): map<EventKey, EventRow> {
    if ds == [] then events else
      var front := UpsertedAll(events, ds[..|ds| - 1], obs, now, overwrite);
      var d := ds[|ds| - 1];
      if overwrite then Overwritten(front, d, obs, now) else Upserted(front, d, obs, now)
  }

  lemma UpsertedSnoc(events: map<EventKey, EventRow>, ds: seq<Derivation>, d: Derivation, obs: ObsId, now: int)
    ensures UpsertedAll(events, ds + [d], obs, now, false) ==
            Upserted(UpsertedAll(events, ds, obs, now, false), d, obs, now)
  {
    assert (ds + [d])[..|ds|] == ds;
  }

  /** The id under which a payload is recorded. */
  function IdOf(obs: map<Payload, Observation>, p: Payload, freshId: ObsId): ObsId {
    if p in obs then obs[p].id else freshId
  }

  lemma SizeOfRecorded(obs: map<Payload, Observation>, p: Payload, freshId: ObsId, now: int)
    ensures |Recorded(obs, p, freshId, now)| == |obs| + if p in obs then 0 else 1
  {
    var after := Recorded(obs, p, freshId, now);
    assert after.Keys == obs.Keys + {p};
    if p in obs {
      assert after.Keys == obs.Keys;
    }
    assert |after| == |after.Keys| && |obs| == |obs.Keys|;
  }

  lemma SizeOfUpdate(events: map<EventKey, EventRow>, d: Derivation, obs: ObsId, now: int)
    ensures |Upserted(events, d, obs, now)| == |events| + if d.key in events then 0 else 1
  {
    var after := Upserted(events, d, obs, now);
    assert after.Keys == events.Keys + {d.key};
    assert |after.Keys| == |events.Keys| + if d.key in events then 0 else 1 by {
      if d.key in events {
        assert after.Keys == events.Keys;
      }
    }
  }

  /** A record to be persisted and what is derived from it: none if that fails. */
  datatype Entry = Entry(payload: Payload, derivations: Option<seq<Derivation>>)

  /** One persisted record: its observation and its events, or nothing at all. */
  function Entered(db: Db, e: Entry, freshId: ObsId, now: int, overwrite: bool): Db {
    if e.derivations.None? then db else
      var obs := Recorded(db.observations, e.payload, freshId, now);
      Db(obs, UpsertedAll(db.events, e.derivations.value, obs[e.payload].id, now, overwrite))
  }

  function Persisted(db: Db, p: Payload, freshId: ObsId, now: int, overwrite: bool): Db {
    Entered(db, Entry(p, Derived(p)), freshId, now, overwrite)
  }

  datatype Op = Op(payload: Payload, freshId: ObsId, now: int)

  predicate IdsBelow(obs: map<Payload, Observation>, id: ObsId) {
    forall p :: p in obs ==> obs[p].id < id
  }

  predicate FreshFor(db: Db, id: ObsId) {
    forall p :: p in db.observations ==> db.observations[p].id != id
  }

  /** The database after a sequence of persists, each with an unused observation id. */
  function Run(db: Db, ops: seq<Op>, overwrite: bool): Option<Db> {
    if ops == [] then Some(db) else
      var before := Run(db, ops[..|ops| - 1], overwrite);
      var op := ops[|ops| - 1];
      if before.Some? && FreshFor(before.value, op.freshId)
      then Some(Persisted(before.value, op.payload, op.freshId, op.now, overwrite)) else None
  }

  const EMPTY := Db(map[], map[])

  /** What records say, in general: `Derived` is what they do say. */
  type Saying = Payload -> Option<seq<Derivation>>

  /** The run, whatever records say. */
  function RunBy(says: Saying, db: Db, ops: seq<Op>): Option<Db> {
    if ops == [] then Some(db) else
      var before := RunBy(says, db, ops[..|ops| - 1]);
      var op := ops[|ops| - 1];
      if before.Some? && FreshFor(before.value, op.freshId)
      then Some(Entered(before.value, Entry(op.payload, says(op.payload)), op.freshId, op.now, false)) else None
  }

  lemma {:induction false} RunByRecord(db: Db, ops: seq<Op>)
    ensures RunBy(Derived, db, ops) == Run(db, ops, false)
    decreases |ops|
  {
    if ops != [] {
      RunByRecord(db, ops[..|ops| - 1]);
    }
  }

  // ----- events agree with the observation they point to -----

  predicate IdsDistinct(obs: map<Payload, Observation>) {
    forall p, q :: p in obs && q in obs && obs[p].id == obs[q].id ==> p == q
  }

  /** Some observation has this id, and its payload says exactly this event. */
  predicate Backed(obs: map<Payload, Observation>, k: EventKey, row: EventRow) {
    exists p :: p in obs && obs[p].id == row.observation && Says(p, k, row.event)
  }

  predicate Agrees(db: Db) {
    IdsDistinct(db.observations) && forall k :: k in db.events ==> Backed(db.observations, k, db.events[k])
  }
}
