/** The legal case record: its enumerations, the field bounds checked when a
    case is created, the timeline entry appended when a saved case changes
    status, and the derived `nextHearing` and `ageInDays` values. Dates are
    milliseconds since the epoch. */
module CaseModel {
  import opened Wrappers
  import opened Text
  import opened Schema
  import opened SchemaPaths

  // ---------------------------------------------------------------------------
  // Enumerations
  // ---------------------------------------------------------------------------

  datatype CaseStatus = Draft | Active | Pending | Resolved | Closed | Archived {
    function Name(): string {
      match this
      case Draft => "draft"
      case Active => "active"
      case Pending => "pending"
      case Resolved => "resolved"
      case Closed => "closed"
      case Archived => "archived"
    }
  }

  const Statuses: seq<CaseStatus> := [Draft, Active, Pending, Resolved, Closed, Archived]

  datatype CaseCategory =
    | DomesticViolence | WomenRights | LaborRights | PropertyDispute | ConsumerProtection
    | CriminalLaw | FamilyLaw | ConstitutionalRights | CasteDiscrimination | Other
  {
    function Name(): string {
      match this
      case DomesticViolence => "domestic_violence"
      case WomenRights => "women_rights"
      case LaborRights => "labor_rights"
      case PropertyDispute => "property_dispute"
      case ConsumerProtection => "consumer_protection"
      case CriminalLaw => "criminal_law"
      case FamilyLaw => "family_law"
      case ConstitutionalRights => "constitutional_rights"
      case CasteDiscrimination => "caste_discrimination"
      case Other => "other"
    }
  }

  const CaseCategories: seq<CaseCategory> := [
    DomesticViolence, WomenRights, LaborRights, PropertyDispute, ConsumerProtection,
    CriminalLaw, FamilyLaw, ConstitutionalRights, CasteDiscrimination, Other]

  datatype CaseLanguage = HindiLanguage | EnglishLanguage | HinglishLanguage {
    function Name(): string {
      match this
      case HindiLanguage => "hindi"
      case EnglishLanguage => "english"
      case HinglishLanguage => "hinglish"
    }
  }

  const CaseLanguages: seq<CaseLanguage> := [HindiLanguage, EnglishLanguage, HinglishLanguage]

  datatype Priority = Low | Medium | High | Urgent {
    function Name(): string {
      match this
      case Low => "low"
      case Medium => "medium"
      case High => "high"
      case Urgent => "urgent"
    }
  }

  const Priorities: seq<Priority> := [Low, Medium, High, Urgent]

  /** The enumeration value with the given stored name, if any. */
  function ParseStatus(s: string): (r: Option<CaseStatus>)
    ensures r.Some? ==> r.value.Name() == s
    ensures r.None? ==> forall v :: v in Statuses ==> v.Name() != s
  {
    if s == "draft" then Some(Draft)
    else if s == "active" then Some(Active)
    else if s == "pending" then Some(Pending)
    else if s == "resolved" then Some(Resolved)
    else if s == "closed" then Some(Closed)
    else if s == "archived" then Some(Archived)
    else None
  }

  function ParseCategory(s: string): (r: Option<CaseCategory>)
    ensures r.Some? ==> r.value.Name() == s
    ensures r.None? ==> forall v :: v in CaseCategories ==> v.Name() != s
  {
    if s == "domestic_violence" then Some(DomesticViolence)
    else if s == "women_rights" then Some(WomenRights)
    else if s == "labor_rights" then Some(LaborRights)
    else if s == "property_dispute" then Some(PropertyDispute)
    else if s == "consumer_protection" then Some(ConsumerProtection)
    else if s == "criminal_law" then Some(CriminalLaw)
    else if s == "family_law" then Some(FamilyLaw)
    else if s == "constitutional_rights" then Some(ConstitutionalRights)
    else if s == "caste_discrimination" then Some(CasteDiscrimination)
    else if s == "other" then Some(Other)
    else None
  }

  function ParseLanguage(s: string): (r: Option<CaseLanguage>)
    ensures r.Some? ==> r.value.Name() == s
    ensures r.None? ==> forall v :: v in CaseLanguages ==> v.Name() != s
  {
    if s == "hindi" then Some(HindiLanguage)
    else if s == "english" then Some(EnglishLanguage)
    else if s == "hinglish" then Some(HinglishLanguage)
    else None
  }

  function ParsePriority(s: string): (r: Option<Priority>)
    ensures r.Some? ==> r.value.Name() == s
    ensures r.None? ==> forall v :: v in Priorities ==> v.Name() != s
  {
    if s == "low" then Some(Low)
    else if s == "medium" then Some(Medium)
    else if s == "high" then Some(High)
    else if s == "urgent" then Some(Urgent)
    else None
  }

  /** Every stored name parses back to its value. */
  lemma EnumRoundTrips(st: CaseStatus, c: CaseCategory, l: CaseLanguage, p: Priority)
    ensures ParseStatus(st.Name()) == Some(st)
    ensures ParseCategory(c.Name()) == Some(c)
    ensures ParseLanguage(l.Name()) == Some(l)
    ensures ParsePriority(p.Name()) == Some(p)
  {
    StatusRoundTrip(st);
    CategoryRoundTrip(c);
  }

  lemma StatusRoundTrip(st: CaseStatus)
    ensures ParseStatus(st.Name()) == Some(st)
  {
    match st
    case Draft =>
    case Active =>
    case Pending =>
    case Resolved =>
    case Closed =>
    case Archived =>
  }

  lemma CategoryRoundTrip(c: CaseCategory)
    ensures ParseCategory(c.Name()) == Some(c)
  {
    match c
    case DomesticViolence =>
    case WomenRights =>
    case LaborRights =>
    case PropertyDispute =>
    case ConsumerProtection =>
    case CriminalLaw =>
    case FamilyLaw =>
    case ConstitutionalRights =>
    case CasteDiscrimination =>
    case Other =>
  }

  // ---------------------------------------------------------------------------
  // Records
  // ---------------------------------------------------------------------------

  datatype TimelineEntry = TimelineEntry(event: string, description: string, date: int)

  /** A hearing; a hearing without a date is never upcoming. */
  datatype Hearing = Hearing(date: Option<int>, court: string)

  /** A document as a case keeps it: its name, its type and when it was
      added. The schema's `url` and `size` are never set by the modelled
      handlers and are not represented. */
  datatype CaseDocument = CaseDocument(name: string, docType: string, uploadedAt: int)

  datatype CaseRecord = CaseRecord(
    title: string,
    description: string,
    originalQuery: string,
    language: CaseLanguage,
    category: CaseCategory,
    subcategory: Option<string>,
    priority: Priority,
    status: CaseStatus,
    urgencyLevel: int,
    satisfaction: Option<int>,
    documents: seq<CaseDocument>,
    timeline: seq<TimelineEntry>,
    hearings: seq<Hearing>,
    createdAt: int)

  /** The fields of a case as submitted; `None` is a field left unset. */
  datatype CaseInput = CaseInput(
    title: Option<string>,
    description: Option<string>,
    originalQuery: Option<string>,
    language: Option<string>,
    category: Option<string>,
    subcategory: Option<string>,
    priority: Option<string>,
    status: Option<string>,
    urgencyLevel: Option<int>,
    satisfaction: Option<int>)

  const TitleMax := 200
  const DescriptionMax := 5000

  /** The title as stored: trimmed on assignment. */
  function StoredTitle(input: CaseInput): Option<string> {
    match input.title
    case Some(t) => Some(Trim(t))
    case None => None
  }

  /** The schema checks, in field order. */
  function ValidationErrors(input: CaseInput): seq<FieldError> {
    RequiredError("title", StoredTitle(input), "Case title is required")
    + LengthError("title", StoredTitle(input), TitleMax, "Title cannot exceed 200 characters")
    + RequiredError("description", input.description, "Case description is required")
    + LengthError("description", input.description, DescriptionMax, "Description cannot exceed 5000 characters")
    + RequiredError("originalQuery", input.originalQuery, "Path `originalQuery` is required.")
    + RequiredEnumError("language", input.language, "Path `language` is required.", ParseLanguage)
    + RequiredEnumError("category", input.category, "Path `category` is required.", ParseCategory)
    + EnumError("priority", input.priority, ParsePriority)
    + EnumError("status", input.status, ParseStatus)
    + RangeError("urgencyLevel", IntValue(input.urgencyLevel), 1.0, 10.0)
    + RangeError("resolution.satisfaction", IntValue(input.satisfaction), 1.0, 5.0)
  }

  /** Every schema constraint holds. */
  predicate Valid(input: CaseInput) {
    && Present(StoredTitle(input)) && |StoredTitle(input).value| <= TitleMax
    && Present(input.description) && |input.description.value| <= DescriptionMax
    && Present(input.originalQuery)
    && Present(input.language) && ParseLanguage(input.language.value).Some?
    && Present(input.category) && ParseCategory(input.category.value).Some?
    && (input.priority.Some? ==> ParsePriority(input.priority.value).Some?)
    && (input.status.Some? ==> ParseStatus(input.status.value).Some?)
    && (input.urgencyLevel.Some? ==> 1 <= input.urgencyLevel.value <= 10)
    && (input.satisfaction.Some? ==> 1 <= input.satisfaction.value <= 5)
  }

  /** The checks report nothing exactly when every constraint holds. */
  lemma NoErrorsIffValid(input: CaseInput)
    ensures ValidationErrors(input) == [] <==> Valid(input)
  {
  }

  /** `Case.create(fields)`: the stored record, with the defaults filled in
      (priority medium, status active, urgency 5), or the schema errors. */
  function Create(input: CaseInput, now: int): (r: Result<CaseRecord, seq<FieldError>>)
    ensures r.Success? <==> Valid(input)
    ensures r.Failure? ==> r.error == ValidationErrors(input) && r.error != []
    ensures r.Success? ==>
      && r.value.title == Trim(input.title.value)
      && |r.value.title| <= TitleMax
      && r.value.description == input.description.value
      && r.value.originalQuery == input.originalQuery.value
      && r.value.language.Name() == input.language.value
      && r.value.category.Name() == input.category.value
      && r.value.subcategory == input.subcategory
      && r.value.priority == (if input.priority.Some? then ParsePriority(input.priority.value).value else Medium)
      && r.value.status == (if input.status.Some? then ParseStatus(input.status.value).value else Active)
      && 1 <= r.value.urgencyLevel <= 10
      && r.value.urgencyLevel == input.urgencyLevel.GetOr(5)
      && r.value.satisfaction == input.satisfaction
      && r.value.documents == [] && r.value.timeline == [] && r.value.hearings == []
      && r.value.createdAt == now
  {
    NoErrorsIffValid(input);
    if !Valid(input) then Failure(ValidationErrors(input))
    else
      Success(CaseRecord(
        Trim(input.title.value),
        input.description.value,
        input.originalQuery.value,
        ParseLanguage(input.language.value).value,
        ParseCategory(input.category.value).value,
        input.subcategory,
        if input.priority.Some? then ParsePriority(input.priority.value).value else Medium,
        if input.status.Some? then ParseStatus(input.status.value).value else Active,
        input.urgencyLevel.GetOr(5),
        input.satisfaction,
        [], [], [], now))
  }

  // ---------------------------------------------------------------------------
  // The `aiAnalysis` and `documents` declarations
  // ---------------------------------------------------------------------------

  /** The `type` entry of `aiAnalysis.biasDetection` and of a document, as
      written: the constructor `String`. */
  const TypeAsWritten: Decl := Ctor("String")

  /** The same entry declared as a field: `{ type: String }`. */
  const TypeAsField: Decl := ObjectDecl([("type", Ctor("String"))])

  /** `aiAnalysis`, with the given `type` entry in `biasDetection`. */
  function AiAnalysisDecl(typeEntry: Decl): Decl {
    ObjectDecl([
      ("detectedIssues", ArrayDecl(Ctor("String"))),
      ("suggestedLaws", ArrayDecl(ObjectDecl([
        ("section", Ctor("String")), ("description", Ctor("String")), ("relevance", Ctor("String"))]))),
      ("biasDetection", ObjectDecl([
        ("detected", Ctor("Boolean")), ("type", typeEntry),
        ("confidence", Ctor("String")), ("explanation", Ctor("String"))])),
      ("confidence", Ctor("String")),
      ("recommendedActions", ArrayDecl(Ctor("String"))),
      ("processedAt", Ctor("Date"))])
  }

  /** `documents`, with the given `type` entry in each element. */
  function DocumentsDecl(typeEntry: Decl): Decl {
    ArrayDecl(ObjectDecl([
      ("name", Ctor("String")), ("type", typeEntry), ("url", Ctor("String")),
      ("uploadedAt", ObjectDecl([("type", Ctor("Date")), ("default", OptionValue)])),
      ("size", Ctor("Number"))]))
  }

  const LawPath: PathType :=
    NestedPath([("section", StringPath), ("description", StringPath), ("relevance", StringPath)])

  const BiasPath: PathType :=
    NestedPath([("detected", BooleanPath), ("type", StringPath), ("confidence", StringPath), ("explanation", StringPath)])

  /** The `aiAnalysis` path with the given `biasDetection` path. */
  function AiAnalysisPath(bias: PathType): PathType {
    NestedPath([
      ("detectedIssues", ArrayPath(StringPath)),
      ("suggestedLaws", ArrayPath(LawPath)),
      ("biasDetection", bias),
      ("confidence", StringPath),
      ("recommendedActions", ArrayPath(StringPath)),
      ("processedAt", DatePath)])
  }

  const DocumentPath: PathType :=
    NestedPath([("name", StringPath), ("type", StringPath), ("url", StringPath),
                ("uploadedAt", DatePath), ("size", NumberPath)])

  lemma LawDeclPath()
    ensures Interpret(ObjectDecl([("section", Ctor("String")), ("description", Ctor("String")),
                                  ("relevance", Ctor("String"))])) == LawPath
  {
    var d := ObjectDecl([("section", Ctor("String")), ("description", Ctor("String")), ("relevance", Ctor("String"))]);
    assert IndexOf(d.entries, "type").None?;
    var f := InterpretEntries(d, 0);
    assert f[0] == ("section", StringPath) && f[1] == ("description", StringPath) && f[2] == ("relevance", StringPath);
    assert f == LawPath.fields;
  }

  /** `aiAnalysis` is nested whatever its `biasDetection` entry declares. */
  lemma AiAnalysisDeclPath(typeEntry: Decl)
    ensures Interpret(AiAnalysisDecl(typeEntry)) == AiAnalysisPath(Interpret(AiAnalysisDecl(typeEntry).entries[2].1))
  {
    var d := AiAnalysisDecl(typeEntry);
    assert IndexOf(d.entries, "type").None?;
    var f := InterpretEntries(d, 0);
    LawDeclPath();
    assert f[0] == ("detectedIssues", ArrayPath(StringPath));
    assert f[1] == ("suggestedLaws", ArrayPath(LawPath));
    assert f[3] == ("confidence", StringPath);
    assert f[4] == ("recommendedActions", ArrayPath(StringPath));
    assert f[5] == ("processedAt", DatePath);
    assert f == AiAnalysisPath(Interpret(d.entries[2].1)).fields;
  }

  /** As written, the `type: String` entry makes `biasDetection` one String
      path and every document a String: the other entries are options. */
  lemma AsWrittenPaths()
    ensures Interpret(AiAnalysisDecl(TypeAsWritten)) == AiAnalysisPath(StringPath)
    ensures Interpret(DocumentsDecl(TypeAsWritten)) == ArrayPath(StringPath)
  {
    AiAnalysisDeclPath(TypeAsWritten);
    var biasEntries := AiAnalysisDecl(TypeAsWritten).entries[2].1.entries;
    TypeKeyIgnoresOptions(TypeAsWritten, biasEntries[..1], biasEntries[2..]);
    assert biasEntries == biasEntries[..1] + [("type", TypeAsWritten)] + biasEntries[2..];
    var docEntries := DocumentsDecl(TypeAsWritten).elem.entries;
    TypeKeyIgnoresOptions(TypeAsWritten, docEntries[..1], docEntries[2..]);
    assert docEntries == docEntries[..1] + [("type", TypeAsWritten)] + docEntries[2..];
  }

  /** With `type` declared as a field, both are nested paths that keep every
      declared field. */
  lemma IntendedPaths()
    ensures Interpret(AiAnalysisDecl(TypeAsField)) == AiAnalysisPath(BiasPath)
    ensures Interpret(DocumentsDecl(TypeAsField)) == ArrayPath(DocumentPath)
  {
    AiAnalysisDeclPath(TypeAsField);
    IntendedBiasPath();
    IntendedDocumentPath();
  }

  lemma IntendedBiasPath()
    ensures Interpret(AiAnalysisDecl(TypeAsField).entries[2].1) == BiasPath
  {
    var bias := AiAnalysisDecl(TypeAsField).entries[2].1;
    assert TypeIsField(bias.entries);
    var b := InterpretEntries(bias, 0);
    assert b[1] == ("type", StringPath) by {
      assert IndexOf(TypeAsField.entries, "type") == Some(0);
    }
    assert b[0] == ("detected", BooleanPath);
    assert b[2] == ("confidence", StringPath);
    assert b[3] == ("explanation", StringPath);
    assert b == BiasPath.fields;
  }

  lemma IntendedDocumentPath()
    ensures Interpret(DocumentsDecl(TypeAsField)) == ArrayPath(DocumentPath)
  {
    var doc := DocumentsDecl(TypeAsField).elem;
    assert TypeIsField(doc.entries);
    var f := InterpretEntries(doc, 0);
    assert f[1] == ("type", StringPath) by {
      assert IndexOf(TypeAsField.entries, "type") == Some(0);
    }
    assert f[3] == ("uploadedAt", DatePath) by {
      assert IndexOf(doc.entries[3].1.entries, "type") == Some(0);
    }
    assert f[0] == ("name", StringPath);
    assert f[2] == ("url", StringPath);
    assert f[4] == ("size", NumberPath);
    assert f == DocumentPath.fields;
  }

  /** A stored document as a value. */
  function DocumentValue(d: CaseDocument): JsValue {
    JsObject(map["name" := JsString(d.name), "type" := JsString(d.docType), "uploadedAt" := JsDate(d.uploadedAt)])
  }

  /** The object an update pushes for `d`, which carries the document's text
      as `content` besides the stored fields. */
  function PushedDocument(d: CaseDocument, content: string): JsValue {
    JsObject(DocumentValue(d).fields["content" := JsString(content)])
  }

  /** The document path declares no `content`, so strict mode drops the
      text: of the pushed object the case keeps exactly `d`. */
  lemma StrictDropsContent(d: CaseDocument, content: string)
    ensures "content" in PushedDocument(d, content).fields
    ensures Strict(DocumentPath, PushedDocument(d, content)) == DocumentValue(d)
    ensures "content" !in Strict(DocumentPath, PushedDocument(d, content)).fields
  {
    var kept := Strict(DocumentPath, PushedDocument(d, content));
    assert FieldType(DocumentPath, "content").None?;
    assert FieldType(DocumentPath, "name").Some?;
    assert FieldType(DocumentPath, "type").Some?;
    assert FieldType(DocumentPath, "uploadedAt").Some?;
    assert kept.fields.Keys == DocumentValue(d).fields.Keys;
    assert kept.fields == DocumentValue(d).fields;
  }

  /** Pushing a document casts it as one element of the `documents` array:
      as written the element path is a String and the object is rejected;
      with `type` declared as a field it is accepted. */
  lemma PushedDocumentCasts(d: CaseDocument, content: string)
    ensures !Castable(Interpret(DocumentsDecl(TypeAsWritten)), JsArray([PushedDocument(d, content)]))
    ensures Castable(Interpret(DocumentsDecl(TypeAsField)), JsArray([PushedDocument(d, content)]))
  {
    AsWrittenPaths();
    StringRejectsPlainObject(PushedDocument(d, content).fields);
    IntendedDocumentPath();
    DocumentValueCasts(d, content);
  }

  lemma DocumentValueCasts(d: CaseDocument, content: string)
    ensures Castable(ArrayPath(DocumentPath), JsArray([PushedDocument(d, content)]))
  {
    var v := PushedDocument(d, content);
    var fs := DocumentPath.fields;
    forall i | 0 <= i < |fs| && fs[i].0 in v.fields
      ensures Castable(fs[i].1, v.fields[fs[i].0])
    {
      if fs[i].0 == "uploadedAt" {
        assert i == 3;
      }
    }
    assert Castable(DocumentPath, v);
    assert JsArray([v]).items[0] == v;
  }

  // ---------------------------------------------------------------------------
  // The save hook
  // ---------------------------------------------------------------------------

  function StatusChangeEntry(status: CaseStatus, now: int): TimelineEntry {
    TimelineEntry("Status Changed", "Case status changed to " + status.Name(), now)
  }

  /** The `pre('save')` hook. `stored` is the version last saved, `None` for a
      new case; the status counts as modified when it differs from the stored
      one. */
  function Save(stored: Option<CaseRecord>, current: CaseRecord, now: int): (r: CaseRecord)
    ensures r == current.(timeline := r.timeline)
    ensures current.timeline <= r.timeline
    ensures stored.Some? && stored.value.status != current.status ==>
              r.timeline == current.timeline + [StatusChangeEntry(current.status, now)]
    ensures stored.None? || stored.value.status == current.status ==> r == current
  {
    if stored.Some? && stored.value.status != current.status then
      current.(timeline := current.timeline + [StatusChangeEntry(current.status, now)])
    else current
  }

  /** A sequence of saves, each against the previous version, appends one entry
      per status change and keeps every earlier entry. */
  lemma {:induction false} SavesLogEveryChange(first: CaseRecord, statuses: seq<CaseStatus>, times: seq<int>)
    requires |times| == |statuses|
    ensures var r := SaveAll(first, statuses, times);
      && first.timeline <= r.timeline
      && |r.timeline| == |first.timeline| + Changes(first.status, statuses)
    decreases |statuses|
  {
    if |statuses| > 0 {
      var next := Save(Some(first), first.(status := statuses[0]), times[0]);
      SavesLogEveryChange(next, statuses[1..], times[1..]);
    }
  }

  /** Saves the case once per given status, in order. */
  function SaveAll(c: CaseRecord, statuses: seq<CaseStatus>, times: seq<int>): CaseRecord
    requires |times| == |statuses|
    decreases |statuses|
  {
    if |statuses| == 0 then c
    else SaveAll(Save(Some(c), c.(status := statuses[0]), times[0]), statuses[1..], times[1..])
  }

  /** How many times the status changes along the sequence. */
  function Changes(from: CaseStatus, statuses: seq<CaseStatus>): nat
    decreases |statuses|
  {
    if |statuses| == 0 then 0
    else (if statuses[0] != from then 1 else 0) + Changes(statuses[0], statuses[1..])
  }

  // ---------------------------------------------------------------------------
  // Derived values
  // ---------------------------------------------------------------------------

  const DayMillis := 1000 * 60 * 60 * 24

  /** `ageInDays`: whole days elapsed since creation, rounded down. */
  function AgeInDays(createdAt: int, now: int): (r: int)
    ensures r * DayMillis <= now - createdAt < (r + 1) * DayMillis
  {
    (now - createdAt) / DayMillis
  }

  predicate Upcoming(h: Hearing, now: int) {
    h.date.Some? && h.date.value > now
  }

  /** `nextHearing`: among the hearings dated strictly after now, the earliest;
      of several with that date, the first listed, as the stable sort keeps
      them in order. */
  method NextHearing(hearings: seq<Hearing>, now: int) returns (next: Option<Hearing>)
    ensures next.None? <==> forall k :: 0 <= k < |hearings| ==> !Upcoming(hearings[k], now)
    ensures next.Some? ==>
      exists k :: 0 <= k < |hearings| && hearings[k] == next.value
        && Upcoming(hearings[k], now)
        && (forall j :: 0 <= j < |hearings| && Upcoming(hearings[j], now) ==> hearings[k].date.value <= hearings[j].date.value)
        && (forall j :: 0 <= j < k && Upcoming(hearings[j], now) ==> hearings[j].date.value > hearings[k].date.value)
  {
    var best: Option<nat> := None;
    var i := 0;
    while i < |hearings|
      invariant 0 <= i <= |hearings|
      invariant best.None? <==> forall k :: 0 <= k < i ==> !Upcoming(hearings[k], now)
      invariant best.Some? ==> best.value < i && Upcoming(hearings[best.value], now)
      invariant best.Some? ==> forall j :: 0 <= j < i && Upcoming(hearings[j], now) ==>
                  hearings[best.value].date.value <= hearings[j].date.value
      invariant best.Some? ==> forall j :: 0 <= j < best.value && Upcoming(hearings[j], now) ==>
                  hearings[j].date.value > hearings[best.value].date.value
    {
      if Upcoming(hearings[i], now)
        && (best.None? || hearings[i].date.value < hearings[best.value].date.value)
      {
        best := Some(i);
      }
      i := i + 1;
    }
    if best.Some? {
      next := Some(hearings[best.value]);
    } else {
      next := None;
    }
  }
}
