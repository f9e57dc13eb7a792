/** Stockholm's case pages and the failure rule
    (internal/source/stockholm/document.go and the pure part of ingest.go). */
module Stockholm {
  import opened Wrappers
  import opened PublicEvent
  import Text

  const MUNICIPALITY_CODE := "0180"
  const CATEGORY_INCOMING := "Skrivelse In"
  const EVENT_TYPE := "MOTORISED_BUILDING_EQUIPMENT_INSPECTION_FAILED"

  datatype Document = Document(description: string, category: string, timestamp: string, fileName: Option<string>)

  /** One parsed case page. `otherFields` stands for the columns nothing is derived
      from; they are part of the payload. */
  datatype Case = Case(
    recNo: RecNo,
    propertyDesignation: string,
    address: string,
    closedOn: string,
    documents: seq<Document>,
    archived: bool,
    caseUrl: string,
    otherFields: string)

  const FAILED_TEMPLATES: seq<string> := [
    "intyg \U{E5}terkommande besiktning, ej godk\U{E4}n",
    "intyg f\U{F6}rsta besiktning, ej godk\U{E4}n",
    "intyg revisionsbesiktning, ej godk\U{E4}n",
    "intyg besiktning, ej godk\U{E4}n",
    "intyg ombesiktning, ej godk\U{E4}n"]

  /** An incoming document whose description starts with a failure template,
      ignoring case and white space. */
  predicate IsFailedCertificate(d: Document) {
    && Text.EqualFold(Text.Collapse(d.category), CATEGORY_INCOMING)
    && var s := Text.Collapse(d.description);
       exists t :: t in FAILED_TEMPLATES && (Text.HasPrefixFold(s, t + "d") || Text.HasPrefixFold(s, t + "t"))
  }

  // ----- which documents are failed certificates -----

  /** The category as the rule sees it: collapsed and in small letters. */
  function CategoryOf(d: Document): string {
    Text.Folded(Text.Collapse(d.category))
  }

  function WordingOf(d: Document): string {
    Text.Folded(Text.Collapse(d.description))
  }

  /** Starts with a kind of inspection that is not approved, in either form of the word. */
  predicate NotApproved(s: string, kind: string) {
    Text.StartsWith(s, kind + ", ej godk\U{E4}nd") || Text.StartsWith(s, kind + ", ej godk\U{E4}nt")
  }

  lemma {:induction false} SmallWords()
    ensures Text.IsSmall("intyg ") && Text.IsSmall("besiktning") && Text.IsSmall(", ej godk\U{E4}n")
    ensures Text.IsSmall("d") && Text.IsSmall("t") && Text.IsSmall("skrivelse in")
  {
  }

  lemma {:induction false} SmallKinds()
    ensures Text.IsSmall("om") && Text.IsSmall("revisions") && Text.IsSmall("f\U{F6}rsta ")
    ensures Text.IsSmall("\U{E5}terkommande ")
  {
  }

  lemma {:induction false} KindFolds(s: string, kind: string, template: string)
    requires Text.IsSmall(kind) && template == "intyg " + kind + "besiktning" + ", ej godk\U{E4}n"
    ensures Text.HasPrefixFold(s, template + "d") || Text.HasPrefixFold(s, template + "t") <==>
            NotApproved(Text.Folded(s), "intyg " + kind + "besiktning")
  {
    SmallWords();
    Text.FoldedPrefix(s, template + "d");
    Text.FoldedPrefix(s, template + "t");
    var whole := "intyg " + kind + "besiktning";
    assert ", ej godk\U{E4}n" + "d" == ", ej godk\U{E4}nd" && ", ej godk\U{E4}n" + "t" == ", ej godk\U{E4}nt";
    assert template + "d" == whole + ", ej godk\U{E4}nd" && template + "t" == whole + ", ej godk\U{E4}nt";
  }

  /** The template with this number matches. */
  predicate Matches(s: string, i: nat)
    requires i < |FAILED_TEMPLATES|
  {
    Text.HasPrefixFold(s, FAILED_TEMPLATES[i] + "d") || Text.HasPrefixFold(s, FAILED_TEMPLATES[i] + "t")
  }

  lemma {:induction false} PlainKind(s: string)
    ensures Matches(s, 3) <==> NotApproved(Text.Folded(s), "intyg besiktning")
  {
    SmallKinds();
    assert "intyg " + "" + "besiktning" == "intyg besiktning";
    KindFolds(s, "", FAILED_TEMPLATES[3]);
  }

  lemma {:induction false} RepeatedKind(s: string)
    ensures Matches(s, 4) <==> NotApproved(Text.Folded(s), "intyg ombesiktning")
  {
    SmallKinds();
    assert "intyg " + "om" + "besiktning" == "intyg ombesiktning";
    KindFolds(s, "om", FAILED_TEMPLATES[4]);
  }

  lemma {:induction false} RevisionKind(s: string)
    ensures Matches(s, 2) <==> NotApproved(Text.Folded(s), "intyg revisionsbesiktning")
  {
    SmallKinds();
    assert "intyg " + "revisions" + "besiktning" == "intyg revisionsbesiktning";
    KindFolds(s, "revisions", FAILED_TEMPLATES[2]);
  }

  lemma {:induction false} FirstKind(s: string)
    ensures Matches(s, 1) <==> NotApproved(Text.Folded(s), "intyg f\U{F6}rsta besiktning")
  {
    SmallKinds();
    assert "intyg " + "f\U{F6}rsta " + "besiktning" == "intyg f\U{F6}rsta besiktning";
    KindFolds(s, "f\U{F6}rsta ", FAILED_TEMPLATES[1]);
  }

  lemma {:induction false} RecurringKind(s: string)
    ensures Matches(s, 0) <==> NotApproved(Text.Folded(s), "intyg \U{E5}terkommande besiktning")
  {
    SmallKinds();
    assert "intyg " + "\U{E5}terkommande " + "besiktning" == "intyg \U{E5}terkommande besiktning";
    KindFolds(s, "\U{E5}terkommande ", FAILED_TEMPLATES[0]);
  }

  lemma CategoryFolds(s: string)
    ensures Text.EqualFold(s, CATEGORY_INCOMING) <==> Text.Folded(s) == "skrivelse in"
  {
    SmallWords();
    assert Text.Folded(CATEGORY_INCOMING) == "skrivelse in";
    Text.FoldedPrefix(s, "skrivelse in");
  }

  /** Exactly the incoming certificates of the five kinds of inspection that say they are
      not approved, in any case and spacing. */
  lemma FailedIff(d: Document)
    ensures IsFailedCertificate(d) <==>
            && CategoryOf(d) == "skrivelse in"
            && var s := WordingOf(d);
               || NotApproved(s, "intyg besiktning") || NotApproved(s, "intyg ombesiktning")
               || NotApproved(s, "intyg revisionsbesiktning")
               || NotApproved(s, "intyg f\U{F6}rsta besiktning")
               || NotApproved(s, "intyg \U{E5}terkommande besiktning")
  {
    var s := Text.Collapse(d.description);
    CategoryFolds(Text.Collapse(d.category));
    PlainKind(s);
    RepeatedKind(s);
    RevisionKind(s);
    FirstKind(s);
    RecurringKind(s);
    SomeTemplate(s);
  }

  lemma SomeTemplate(s: string)
    ensures (exists t :: t in FAILED_TEMPLATES
                         && (Text.HasPrefixFold(s, t + "d") || Text.HasPrefixFold(s, t + "t"))) <==>
            Matches(s, 0) || Matches(s, 1) || Matches(s, 2) || Matches(s, 3) || Matches(s, 4)
  {
    if i :| 0 <= i < 5 && Matches(s, i) {
      assert FAILED_TEMPLATES[i] in FAILED_TEMPLATES;
    }
  }

  /** Somewhere in the text. */
  predicate Mentions(s: string, phrase: string) {
    exists i :: 0 <= i <= |s| && Text.StartsWith(s[i..], phrase)
  }

  /** No document of the case mentions "ej godkän": all certificates are approved, fully
      or partly. */
  predicate MentionsNoFailure(c: Case) {
    forall i :: 0 <= i < |c.documents| ==> !Mentions(WordingOf(c.documents[i]), "ej godk\U{E4}n")
  }

  /** In particular no document is one whose description does not say "ej godkän":
      neither an approved nor a partly approved one. */
  lemma ApprovedIsNotFailed(d: Document)
    requires !Mentions(WordingOf(d), "ej godk\U{E4}n")
    ensures !IsFailedCertificate(d)
  {
    FailedIff(d);
    var s := WordingOf(d);
    NotApprovedSays(s, "intyg besiktning");
    NotApprovedSays(s, "intyg ombesiktning");
    NotApprovedSays(s, "intyg revisionsbesiktning");
    NotApprovedSays(s, "intyg f\U{F6}rsta besiktning");
    NotApprovedSays(s, "intyg \U{E5}terkommande besiktning");
  }

  lemma NotApprovedSays(s: string, kind: string)
    ensures NotApproved(s, kind) ==> Mentions(s, "ej godk\U{E4}n")
  {
    if NotApproved(s, kind) {
      assert ", " + "ej godk\U{E4}n" + "d" == ", ej godk\U{E4}nd";
      assert ", " + "ej godk\U{E4}n" + "t" == ", ej godk\U{E4}nt";
      PhraseWithin(s, kind, ", ", "ej godk\U{E4}n", "d");
      PhraseWithin(s, kind, ", ", "ej godk\U{E4}n", "t");
    }
  }

  lemma PhraseWithin(s: string, a: string, b: string, phrase: string, c: string)
    ensures Text.StartsWith(s, a + (b + phrase + c)) ==> Mentions(s, phrase)
  {
    if Text.StartsWith(s, a + (b + phrase + c)) {
      var i := |a| + |b|;
      assert (a + (b + phrase + c))[i..i + |phrase|] == phrase;
      assert s[i..][..|phrase|] == s[..|a + (b + phrase + c)|][i..i + |phrase|];
    }
  }

  function EventID(recNo: RecNo, d: Document): EventKey {
    Certificate(recNo, Text.Trim(d.timestamp), Text.Collapse(d.category), Text.Collapse(d.description))
  }

  function ToEvent(c: Case, d: Document): Option<NewEvent> {
    var day := Text.TimestampDate(d.timestamp);
    if day.None? || c.propertyDesignation == "" then None
    else Some(NewEvent(EVENT_TYPE, day.value, d.description, "", "", "", "",
                       MUNICIPALITY_CODE, c.propertyDesignation, c.address, c.caseUrl))
  }

  /** Documents have one identifier exactly if they are of one case and agree in
      timestamp, category and description, up to white space. */
  lemma SameEventIff(recNo: RecNo, d: Document, other: RecNo, o: Document)
    ensures EventID(recNo, d) == EventID(other, o) <==>
            && recNo == other && Text.Trim(d.timestamp) == Text.Trim(o.timestamp)
            && Text.Collapse(d.category) == Text.Collapse(o.category)
            && Text.Collapse(d.description) == Text.Collapse(o.description)
  {
  }

  /** What an event of a case says: the description verbatim, the date of the timestamp,
      the property in Stockholm with its address, the page of the case, and no
      organisation or workplace. None without a date or a property. */
  lemma EventColumns(c: Case, d: Document)
    ensures ToEvent(c, d).None? <==> Text.TimestampDate(d.timestamp).None? || c.propertyDesignation == ""
    ensures ToEvent(c, d).Some? ==>
              var e := ToEvent(c, d).value;
              && e.eventType == "MOTORISED_BUILDING_EQUIPMENT_INSPECTION_FAILED" && e.title == d.description
              && Some(e.occurredOn) == Text.TimestampDate(d.timestamp) && e.sourceUrl == c.caseUrl
              && e.municipalityCode == "0180" && e.designation == c.propertyDesignation && e.address == c.address
              && e.organisationNumber == "" && e.organisationName == "" && e.workplaceCfar == ""
              && e.workplaceName == ""
  {
  }
}
