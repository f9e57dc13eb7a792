/** The observation and event tables as the repository changes them
    (RecordObservation and UpsertEvent in internal/publicevent/publicevent.repository.go). */
module EventRepository {
  import opened Wrappers
  import opened PublicEvent
  import opened EventStore

  datatype UpsertOutcome = Inserted | Updated | Unchanged

  /** What the conditional upsert does with an event that is accepted. */
  function OutcomeOf(events: map<EventKey, EventRow>, k: EventKey, obs: ObsId): UpsertOutcome {
    if k !in events then Inserted else if events[k].observation == obs then Unchanged else Updated
  }

  class Repository {
    var observations: map<Payload, Observation>
    var events: map<EventKey, EventRow>

    constructor ()
      ensures Contents() == EMPTY
    {
      observations := map[];
      events := map[];
    }

    function Contents(): Db
      reads this
    {
      Db(observations, events)
    }

    /** Refused without a record number; otherwise a known state is only seen again
        and a new one becomes a new row. */
    method RecordObservation(p: Payload, freshId: ObsId, now: int) returns (r: Option<(ObsId, bool)>)
      modifies this`observations
      ensures r.None? <==> !Named(p)
      ensures r.None? ==> observations == old(observations)
      ensures r.Some? ==>
                && observations == Recorded(old(observations), p, freshId, now)
                && r.value.0 == observations[p].id
                && r.value.1 == (p !in old(observations))
      ensures r.Some? ==>
                && observations.Keys == old(observations).Keys + {p} && observations[p].lastObservedAt == now
                && (forall q :: q in old(observations) && q != p ==> observations[q] == old(observations)[q])
                && (if p in old(observations)
                    then observations[p].id == old(observations)[p].id
                         && observations[p].firstObservedAt == old(observations)[p].firstObservedAt
                    else observations[p].id == freshId && observations[p].firstObservedAt == now)
    {
      if p.DiaryRow? && p.d.documentNumber == "" {
        return None;
      }
      if p in observations {
        var o := observations[p];
        observations := observations[p := Observation(o.id, o.firstObservedAt, now)];
        return Some((o.id, false));
      }
      observations := observations[p := Observation(freshId, now, now)];
      return Some((freshId, true));
    }

    /** Refused if incomplete; otherwise the conditional upsert. */
    method UpsertEvent(k: EventKey, e: NewEvent, obs: ObsId, now: int) returns (r: Option<UpsertOutcome>)
      modifies this`events
      ensures r.None? <==> !Identified(k) || !Acceptable(e)
      ensures r.None? <==>
                || k == DiaryDocument("") || e.eventType == "" || e.occurredOn == 10101
                || (e.municipalityCode == "" && e.designation != "")
                || (e.municipalityCode != "" && e.designation == "")
                || (e.address != "" && e.designation == "")
      ensures r.None? ==> events == old(events)
      ensures r.Some? ==>
                && events.Keys == old(events).Keys + {k}
                && (forall x :: x in old(events) && x != k ==> events[x] == old(events)[x])
                && (if k !in old(events) then events[k] == EventRow(e, obs, now, now)
                    else if old(events)[k].observation == obs then events[k] == old(events)[k]
                    else events[k] == EventRow(e, obs, old(events)[k].createdAt, now))
      ensures r.Some? ==> events == Upserted(old(events), Derivation(k, e), obs, now)
      ensures r.Some? ==> r.value == OutcomeOf(old(events), k, obs)
      ensures r == Some(Inserted) <==> Identified(k) && Acceptable(e) && k !in old(events)
      ensures r == Some(Updated) <==>
                Identified(k) && Acceptable(e) && k in old(events) && old(events)[k].observation != obs
    {
      if (k.DiaryDocument? && k.number == "") || e.eventType == "" || e.occurredOn == ZERO_DATE {
        return None;
      }
      if (e.municipalityCode == "") != (e.designation == "") || (e.address != "" && e.designation == "") {
        return None;
      }
      if k !in events {
        events := events[k := EventRow(e, obs, now, now)];
        return Some(Inserted);
      }
      var row := events[k];
      if row.observation == obs {
        return Some(Unchanged);
      }
      events := events[k := EventRow(e, obs, row.createdAt, now)];
      return Some(Updated);
    }

    /** Undoes a transaction that failed midway. */
    method Rollback(before: Db)
      modifies this
      ensures Contents() == before
    {
      observations := before.observations;
      events := before.events;
    }
  }
}
