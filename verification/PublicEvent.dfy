/** Canonical events and their identity (internal/publicevent). */
module PublicEvent {

  type RecNo = int

  /** A source event identifier. The Stockholm one is a hash of its four parts,
      taken as injective, so the parts themselves stand for it. */
  datatype EventKey =
    | DiaryDocument(number: string)
    | Certificate(recNo: RecNo, timestamp: string, category: string, description: string)

  /** What a source record says about one event. Dates are numbers yyyymmdd, and an
      empty string stands for a NULL column. */
  datatype NewEvent = NewEvent(
    eventType: string,
    occurredOn: int,
    title: string,
    organisationNumber: string,
    organisationName: string,
    workplaceCfar: string,
    workplaceName: string,
    municipalityCode: string,
    designation: string,
    address: string,
    sourceUrl: string)

  /** Midnight on 1 January of year 1 is the zero time. */
  const ZERO_DATE := 10101

  /** What the repository accepts: a type and a date, and a property only whole. */
  predicate Acceptable(e: NewEvent) {
    && e.eventType != "" && e.occurredOn != ZERO_DATE
    && (e.municipalityCode == "" <==> e.designation == "")
    && (e.address != "" ==> e.designation != "")
  }

  /** An inclusive range of civil dates, as both ingesters take it. */
  datatype DateRange = DateRange(from: int, to: int)
  {
    predicate Valid() {
      from != ZERO_DATE && to != ZERO_DATE && from <= to
    }
  }
}
