/** Rows of the web diary and their mapping to events
    (internal/source/arbetsmiljoverket/document.go, feed.go and the pure part of ingest.go). */
module Arbetsmiljoverket {
  import opened Wrappers
  import opened PublicEvent
  import OrganisationNumber
  import Text

  /** One parsed row. The parser validated the date (a number yyyymmdd here) and the
      document number; `otherFields` stands for the columns nothing is derived from. */
  datatype Document = Document(
    documentNumber: string,
    documentType: string,
    documentDate: int,
    origin: string,
    caseNumber: string,
    caseTitle: string,
    organisationNumber: string,
    organisationName: string,
    workplaceName: string,
    workplaceCfar: string,
    caseUrl: string,
    otherFields: string)

  const INSPECTION_NOTICE := "Inspektionsmeddelande"
  const RECURRING_CERTIFICATE := "Intyg \U{E5}terkommande besiktning"

  /** The two known feeds have different document types, so a row tells its feed. */
  function EventTypeOf(documentType: string): Option<string> {
    if documentType == INSPECTION_NOTICE then Some("WORK_ENVIRONMENT_INSPECTION_NOTICE")
    else if documentType == RECURRING_CERTIFICATE then Some("WORK_EQUIPMENT_INSPECTION_FAILED")
    else None
  }

  predicate IsCfar(s: string) {
    |s| == 8 && forall i :: 0 <= i < 8 ==> Text.IsDigit(s[i])
  }

  predicate IsMissing(s: string) {
    Text.EqualFold(s, "saknas")
  }

  /** Values that fail validation are dropped, never guessed. */
  function ToEvent(d: Document, eventType: string): NewEvent {
    var number := OrganisationNumber.Canonical(d.organisationNumber);
    var cfar := Text.Trim(d.workplaceCfar);
    NewEvent(
      eventType, d.documentDate, d.caseTitle,
      if d.organisationNumber != "" && number.Some? then number.value else "",
      d.organisationName,
      if IsCfar(cfar) then cfar else "",
      if IsMissing(Text.Trim(d.workplaceName)) then "" else d.workplaceName,
      "", "", "", d.caseUrl)
  }

  /** Values that the mapping drops although the row has one. */
  datatype Note = InvalidOrganisationNumber | InvalidWorkplaceCfar

  function Notes(d: Document): set<Note> {
    var cfar := Text.Trim(d.workplaceCfar);
    (if d.organisationNumber != "" && OrganisationNumber.Canonical(d.organisationNumber).None?
     then {InvalidOrganisationNumber} else {})
    + (if cfar == "" || IsMissing(cfar) || IsCfar(cfar) then {} else {InvalidWorkplaceCfar})
  }

  /** A dropped value is always reported: the event has none, the row has one, and the
      row does not say that it is missing. */
  lemma NotesReportDrops(d: Document, eventType: string)
    ensures var e, cfar := ToEvent(d, eventType), Text.Trim(d.workplaceCfar);
            && (InvalidOrganisationNumber in Notes(d) <==> d.organisationNumber != "" && e.organisationNumber == "")
            && (InvalidWorkplaceCfar in Notes(d) <==> cfar != "" && !IsMissing(cfar) && e.workplaceCfar == "")
  {
    if OrganisationNumber.Canonical(d.organisationNumber).Some? {
      OrganisationNumber.CanonicalIsIdempotent(d.organisationNumber);
    }
  }

  /** What an event of the diary says, column by column: the case title and the names
      verbatim, the date of the document, the organisation number in its canonical form
      and the workplace number if they are valid, and no property. */
  lemma EventColumns(d: Document, eventType: string)
    ensures var e, cfar := ToEvent(d, eventType), Text.Trim(d.workplaceCfar);
            var number := OrganisationNumber.Canonical(d.organisationNumber);
            && e.eventType == eventType && e.occurredOn == d.documentDate && e.title == d.caseTitle
            && e.organisationName == d.organisationName && e.sourceUrl == d.caseUrl
            && e.municipalityCode == "" && e.designation == "" && e.address == ""
            && e.organisationNumber == (if number.Some? then number.value else "")
            && e.workplaceCfar ==
               (if |cfar| == 8 && (forall i :: 0 <= i < 8 ==> '0' <= cfar[i] <= '9') then cfar else "")
            && e.workplaceName ==
               (if Text.Folded(Text.Trim(d.workplaceName)) == "saknas" then "" else d.workplaceName)
  {
    SmallPhrases();
    Text.FoldedPrefix(Text.Trim(d.workplaceName), "saknas");
  }

  lemma SmallPhrases()
    ensures Text.IsSmall("saknas") && Text.IsSmall("inkommande")
    ensures Text.Folded("Inkommande") == "inkommande" && Text.EqualFold("Inkommande", "inkommande")
  {
  }

  // ----- feeds -----

  /** One selection of the diary and its acceptance rule. */
  datatype Feed = Feed(
    name: string,
    subjectArea: string,
    documentType: string,
    documentTypeName: string,
    eventType: string,
    onePerCase: bool,
    accept: Document -> bool)
  {
    predicate FullyConfigured() {
      name != "" && subjectArea != "" && documentType != "" && documentTypeName != "" && eventType != ""
    }

    /** The event type is the one the document type stands for. */
    predicate Known() {
      EventTypeOf(documentTypeName) == Some(eventType)
    }
  }

  /** The certificate came in to the authority, for a recurring-inspection case. */
  predicate AcceptRecurringInspectionFailure(d: Document) {
    && Text.EqualFold(Text.Trim(d.origin), "Inkommande")
    && Text.HasPrefixLower(Text.Trim(d.caseTitle), "\U{E5}terkommande besiktning")
  }

  /** Exactly incoming documents of cases titled as recurring inspections, in any case
      and with any white space around. */
  lemma AcceptedIff(d: Document)
    ensures AcceptRecurringInspectionFailure(d) <==>
            && Text.Folded(Text.Trim(d.origin)) == "inkommande"
            && Text.StartsWith(Text.Lowered(Text.Trim(d.caseTitle)), "\U{E5}terkommande besiktning")
  {
    Text.LoweredPrefix(Text.Trim(d.caseTitle), "\U{E5}terkommande besiktning");
    SmallPhrases();
    Text.FoldedPrefix(Text.Trim(d.origin), "inkommande");
  }

  const INSPECTION_NOTICES := Feed(
    "inspection-notices", "6.1", "6.1-23", INSPECTION_NOTICE,
    "WORK_ENVIRONMENT_INSPECTION_NOTICE", false, _ => true)

  const RECURRING_INSPECTION_FAILURES := Feed(
    "recurring-inspection-failures", "6.1", "6.1-49", RECURRING_CERTIFICATE,
    "WORK_EQUIPMENT_INSPECTION_FAILED", true, d => AcceptRecurringInspectionFailure(d))

  lemma FeedsAreKnown()
    ensures INSPECTION_NOTICES.FullyConfigured() && INSPECTION_NOTICES.Known()
    ensures RECURRING_INSPECTION_FAILURES.FullyConfigured() && RECURRING_INSPECTION_FAILURES.Known()
    ensures INSPECTION_NOTICES.eventType == "WORK_ENVIRONMENT_INSPECTION_NOTICE" && !INSPECTION_NOTICES.onePerCase
    ensures INSPECTION_NOTICES.documentTypeName == "Inspektionsmeddelande"
    ensures RECURRING_INSPECTION_FAILURES.eventType == "WORK_EQUIPMENT_INSPECTION_FAILED"
    ensures RECURRING_INSPECTION_FAILURES.documentTypeName == "Intyg \U{E5}terkommande besiktning"
    ensures RECURRING_INSPECTION_FAILURES.onePerCase
    ensures forall d :: INSPECTION_NOTICES.accept(d)
    ensures forall d :: RECURRING_INSPECTION_FAILURES.accept(d) <==> AcceptRecurringInspectionFailure(d)
  {
    assert INSPECTION_NOTICE[1] != RECURRING_CERTIFICATE[1] || INSPECTION_NOTICE[2] != RECURRING_CERTIFICATE[2];
  }

  // ----- the order of the documents of a case -----

  /** The running number after the last dash; 0 when malformed. */
  function DocumentSuffix(number: string): int {
    if number == "" then 0
    else if number[|number| - 1] == '-' then 0
    else AfterDash(number, |number| - 1)
  }

  /** Reads number[from..] once the dash in front of it is found. */
  function AfterDash(number: string, from: nat): int
    requires from < |number| && forall i :: from <= i < |number| ==> number[i] != '-'
  {
    if from == 0 then 0
    else if number[from - 1] == '-' then
      var n := Text.Atoi(number[from..]);
      if n.Some? then n.value else 0
    else AfterDash(number, from - 1)
  }

  /** By document date, then by running number. */
  predicate DocumentBefore(a: Document, b: Document) {
    if a.documentDate != b.documentDate then a.documentDate < b.documentDate
    else DocumentSuffix(a.documentNumber) < DocumentSuffix(b.documentNumber)
  }

  lemma {:induction false} SuffixOfNumber(prefix: string, rest: string, from: nat)
    requires '-' !in rest && from < |rest|
    ensures forall i :: |prefix| + 1 + from <= i < |prefix + "-" + rest| ==> (prefix + "-" + rest)[i] != '-'
    ensures AfterDash(prefix + "-" + rest, |prefix| + 1 + from) ==
            if Text.Atoi(rest).Some? then Text.Atoi(rest).value else 0
    decreases from
  {
    var number := prefix + "-" + rest;
    forall i | |prefix| + 1 <= i < |number| ensures number[i] != '-' {
      assert number[i] == rest[i - |prefix| - 1];
    }
    if from == 0 {
      assert number[|prefix|] == '-' && number[|prefix| + 1..] == rest;
    } else {
      SuffixOfNumber(prefix, rest, from - 1);
    }
  }

  /** The suffix is the number after the last dash, and 0 without a dash or if what
      follows it is no number. */
  lemma {:induction false} SuffixOfDocumentNumber(prefix: string, rest: string)
    requires '-' !in rest
    ensures DocumentSuffix(prefix + "-" + rest) == if Text.Atoi(rest).Some? then Text.Atoi(rest).value else 0
    ensures DocumentSuffix(rest) == 0
  {
    if rest == "" {
      assert prefix + "-" + rest == prefix + "-";
    } else {
      SuffixOfNumber(prefix, rest, |rest| - 1);
      NoDash(rest, |rest| - 1);
    }
  }

  lemma {:induction false} NoDash(number: string, from: nat)
    requires from < |number| && '-' !in number
    ensures AfterDash(number, from) == 0
    decreases from
  {
    if from > 0 {
      NoDash(number, from - 1);
    }
  }

  /** So documents of one case are ordered as their numbers are counted. */
  lemma {:induction false} SuffixOfCounted(prefix: string, n: nat)
    requires n < 0x8000_0000_0000_0000
    ensures DocumentSuffix(prefix + "-" + Text.Print(n)) == n
  {
    SuffixOfDocumentNumber(prefix, Text.Print(n));
    Text.NumberOfPrint(n);
  }
}
