/** The `/analyze`, `/generate-document` and `/translate` handlers: request
    validation, the order in which the analysis stages run and feed each
    other, the result and case record they assemble, and the document a
    generated draft leaves on its case. The language model and the case store
    are oracles given as parameters; the clock is the `now` parameter. */
module AiRoute {
  import opened Wrappers
  import opened Text
  import opened BiasDetection
  import opened LegalKnowledge
  import opened AIService
  import opened CaseModel
  import opened SchemaPaths

  // ---------------------------------------------------------------------------
  // POST /analyze
  // ---------------------------------------------------------------------------

  datatype AnalyzeRequest = AnalyzeRequest(query: Option<string>, language: Option<string>)

  const QueryMax := 5000

  /** The validation messages of the request, query checks first. */
  function AnalyzeErrors(req: AnalyzeRequest): (r: seq<string>)
    ensures r == [] <==>
      && req.query.Some? && 0 < |req.query.value| <= QueryMax
      && req.language.Some? && req.language.value in ["hindi", "english", "hinglish"]
  {
    (if req.query.None? || |req.query.value| == 0 then ["Query is required"] else [])
    + (if req.query.Some? && |req.query.value| > QueryMax then ["Query cannot exceed 5000 characters"] else [])
    + (if req.language.None? || req.language.value !in ["hindi", "english", "hinglish"]
       then ["Language must be hindi, english, or hinglish"] else [])
  }

  /** The model and store calls the handler makes, as oracles. `clean` and
      `classify` receive the text and the language; `recommend` receives the
      classification, the laws and the bias result; `insert` stores a case
      and returns its id, or fails. */
  datatype Oracles = Oracles(
    clean: (string, string) -> Option<string>,
    classify: (string, string) -> Option<LegalAnalysis>,
    recommend: (LegalAnalysis, seq<Law>, BiasResult) -> Option<seq<string>>,
    insert: CaseRecord -> Option<nat>)

  datatype AnalysisResult = AnalysisResult(
    cleanedQuery: string,
    originalQuery: string,
    language: string,
    detectedIssues: seq<string>,
    category: string,
    subcategory: Option<string>,
    suggestedLaws: seq<Law>,
    biasDetection: BiasResult,
    recommendedActions: seq<string>,
    confidence: string,
    processedAt: int)

  datatype AnalyzeResponse =
    | AnalyzeRejected(errors: seq<string>)
    | AnalyzeFailed
    | Analyzed(analysis: AnalysisResult, caseId: nat, saved: CaseRecord)

  /** The analysis stages, in order: clean, classify the cleaned text, score
      bias on the cleaned text, look up laws for the classification,
      recommend, aggregate confidence. */
  function RunStages(query: string, language: string, o: Oracles, now: int): (r: AnalysisResult)
    ensures r.originalQuery == query && r.language == language && r.processedAt == now
    ensures r.cleanedQuery == CleanQuery(query, o.clean(query, language))
    ensures var c := AnalyzeLegalIssues(o.classify(r.cleanedQuery, language));
      && r.detectedIssues == c.detectedIssues
      && r.category == c.category
      && r.subcategory == c.subcategory
      && r.biasDetection == DetectBias(Standard, r.cleanedQuery, language)
      && r.suggestedLaws == FindRelevantLaws(Database, c.detectedIssues, c.category)
      && r.recommendedActions == GenerateRecommendations(o.recommend(c, r.suggestedLaws, r.biasDetection))
      && r.confidence == ConfidenceLabel(CalculateConfidence(c, r.suggestedLaws, r.biasDetection))
  {
    var cleaned := CleanQuery(query, o.clean(query, language));
    var analysis := AnalyzeLegalIssues(o.classify(cleaned, language));
    var bias := DetectBias(Standard, cleaned, language);
    var laws := FindRelevantLaws(Database, analysis.detectedIssues, analysis.category);
    var recommendations := GenerateRecommendations(o.recommend(analysis, laws, bias));
    var confidence := ConfidenceLabel(CalculateConfidence(analysis, laws, bias));
    AnalysisResult(cleaned, query, language, analysis.detectedIssues, analysis.category,
      analysis.subcategory, laws, bias, recommendations, confidence, now)
  }

  /** `suggestedTitle || 'Legal Query'`: a missing or empty title is replaced. */
  function CaseTitle(suggested: Option<string>): (r: string)
    ensures |r| > 0
    ensures suggested.Some? && suggested.value != "" ==> r == suggested.value
  {
    if suggested.Some? && suggested.value != "" then suggested.value else "Legal Query"
  }

  /** The case the handler stores for an analysis. */
  function CaseFields(query: string, language: string, title: Option<string>, result: AnalysisResult): CaseInput {
    CaseInput(Some(CaseTitle(title)), Some(result.cleanedQuery), Some(query), Some(language),
      Some(result.category), result.subcategory, None, Some("draft"), None, None)
  }

  /** The storing half of `POST /analyze`: the case for an analysis is
      validated and inserted; either step can fail the request. */
  function StoreAnalysis(query: string, language: string, result: AnalysisResult,
                         title: Option<string>, insert: CaseRecord -> Option<nat>, now: int): (r: AnalyzeResponse)
    ensures !r.AnalyzeRejected?
    ensures r.Analyzed? <==> Create(CaseFields(query, language, title, result), now).Success?
                              && insert(Create(CaseFields(query, language, title, result), now).value).Some?
    ensures r.Analyzed? ==>
      && r.analysis == result
      && r.saved.status == Draft
      && r.saved.description == result.cleanedQuery
      && r.saved.originalQuery == query
      && r.saved.language.Name() == language
      && r.saved.category.Name() == result.category
      && r.saved.subcategory == result.subcategory
      && r.saved.title == Trim(CaseTitle(title))
      && insert(r.saved) == Some(r.caseId)
  {
    match Create(CaseFields(query, language, title, result), now)
    case Failure(_) => AnalyzeFailed
    case Success(saved) =>
      match insert(saved)
      case None => AnalyzeFailed
      case Some(id) => Analyzed(result, id, saved)
  }

  /** `POST /analyze` once the stored analysis is accepted by its schema
      path, that is with `biasDetection.type` declared as a field;
      `AnalyzeUnder` adds the cast, and `AnalyzeAsWrittenFails` shows what
      the schema as written does instead. */
  function Analyze(req: AnalyzeRequest, o: Oracles, now: int): (r: AnalyzeResponse)
    ensures r.AnalyzeRejected? <==> AnalyzeErrors(req) != []
    ensures r.AnalyzeRejected? ==> r.errors == AnalyzeErrors(req)
    ensures r.Analyzed? ==>
      && req.query.Some? && req.language.Some?
      && r.analysis == RunStages(req.query.value, req.language.value, o, now)
      && r.saved.status == Draft
      && r.saved.description == r.analysis.cleanedQuery
      && r.saved.originalQuery == req.query.value
      && r.saved.language.Name() == req.language.value
      && r.saved.category.Name() == r.analysis.category
      && r.saved.subcategory == r.analysis.subcategory
      && r.saved.title == Trim(CaseTitle(AnalyzeLegalIssues(o.classify(r.analysis.cleanedQuery, req.language.value)).suggestedTitle))
      && o.insert(r.saved) == Some(r.caseId)
  {
    var errors := AnalyzeErrors(req);
    if errors != [] then AnalyzeRejected(errors)
    else
      var query, language := req.query.value, req.language.value;
      var result := RunStages(query, language, o, now);
      var classification := AnalyzeLegalIssues(o.classify(result.cleanedQuery, language));
      StoreAnalysis(query, language, result, classification.suggestedTitle, o.insert, now)
  }

  /** When the cleaning call fails, the bias scorer sees the query exactly as
      submitted. */
  lemma BiasOfOriginalWhenCleaningFails(req: AnalyzeRequest, o: Oracles, now: int)
    requires AnalyzeErrors(req) == []
    requires o.clean(req.query.value, req.language.value).None?
    ensures RunStages(req.query.value, req.language.value, o, now).biasDetection
              == DetectBias(Standard, req.query.value, req.language.value)
  {
  }

  /** A classification whose category is not one of the case categories makes
      the stored case invalid, and the request fails. */
  lemma UnknownCategoryFails(req: AnalyzeRequest, o: Oracles, now: int)
    requires AnalyzeErrors(req) == []
    requires ParseCategory(AnalyzeLegalIssues(o.classify(
               CleanQuery(req.query.value, o.clean(req.query.value, req.language.value)), req.language.value)).category).None?
    ensures Analyze(req, o, now) == AnalyzeFailed
  {
  }

  lemma DefaultTitleTrimmed()
    ensures Trim("Legal Query") == "Legal Query"
  {
    assert IsTrimmed("Legal Query");
    TrimOfTrimmed("Legal Query");
  }

  /** When every model call fails, a valid request is still analysed and stored
      (if the store accepts it): under category "other", titled "Legal Query",
      with the submitted query as description, and bias is scored on the query
      as submitted. */
  lemma AllModelCallsFail(req: AnalyzeRequest, o: Oracles, now: int)
    requires AnalyzeErrors(req) == []
    requires o.clean(req.query.value, req.language.value).None?
    requires o.classify(req.query.value, req.language.value).None?
    requires forall rec :: o.insert(rec).Some?
    ensures var r := Analyze(req, o, now);
      && r.Analyzed?
      && r.saved.category == Other
      && r.saved.title == "Legal Query"
      && r.saved.description == req.query.value
      && r.analysis.detectedIssues == ["General Legal Issue"]
      && r.analysis.biasDetection == DetectBias(Standard, req.query.value, req.language.value)
  {
    var query, language := req.query.value, req.language.value;
    var result := RunStages(query, language, o, now);
    assert result.cleanedQuery == query;
    var classification := AnalyzeLegalIssues(o.classify(result.cleanedQuery, language));
    DefaultAnalysisFields();
    assert classification == DefaultAnalysis;
    StoreFallback(query, language, result, o.insert, now);
  }

  /** The fallback classification's case is valid, so it is stored whenever
      the store accepts it. */
  lemma StoreFallback(query: string, language: string, result: AnalysisResult,
                      insert: CaseRecord -> Option<nat>, now: int)
    requires 0 < |query| <= QueryMax && language in ["hindi", "english", "hinglish"]
    requires result.cleanedQuery == query && result.category == "other"
    requires forall rec :: insert(rec).Some?
    ensures var r := StoreAnalysis(query, language, result, Some("Legal Query"), insert, now);
      && r.Analyzed? && r.saved.category == Other && r.saved.title == "Legal Query"
      && r.saved.description == query
  {
    FallbackCaseValid(query, language, result.subcategory, now);
    assert CaseFields(query, language, Some("Legal Query"), result) == FallbackCase(query, language, result.subcategory);
  }

  /** The case stored for the fallback classification. */
  function FallbackCase(query: string, language: string, subcategory: Option<string>): CaseInput {
    CaseInput(Some("Legal Query"), Some(query), Some(query), Some(language), Some("other"),
      subcategory, None, Some("draft"), None, None)
  }

  lemma FallbackCaseValid(query: string, language: string, subcategory: Option<string>, now: int)
    requires 0 < |query| <= QueryMax && language in ["hindi", "english", "hinglish"]
    ensures Valid(FallbackCase(query, language, subcategory))
    ensures var c := Create(FallbackCase(query, language, subcategory), now);
      c.Success? && c.value.category == Other && c.value.title == "Legal Query" && c.value.description == query
  {
    DefaultTitleTrimmed();
    EnumRoundTrips(Draft, Other, HindiLanguage, Medium);
    assert ParseLanguage(language).Some?;
  }

  // ---------------------------------------------------------------------------
  // The stored analysis against the declared `aiAnalysis` path
  // ---------------------------------------------------------------------------

  function StringsValue(s: seq<string>): (r: JsValue)
    ensures r.JsArray? && |r.items| == |s| && forall i :: 0 <= i < |s| ==> r.items[i] == JsString(s[i])
  {
    JsArray(seq(|s|, i requires 0 <= i < |s| => JsString(s[i])))
  }

  /** A law as the analysis lists it, its relevance a percentage string
      ("95%") whether it comes from the table or from an issue's score. */
  function LawValue(l: Law): JsValue {
    JsObject(map["section" := JsString(l.section), "description" := JsString(l.description),
                 "relevance" := JsString(PercentString(l.relevance)), "details" := JsString(l.details)])
  }

  /** The bias result as the scorer returns it: `type` is `null` when no bias
      was found. The `details` object is not represented: no declared path
      receives it, so it never takes part in a cast. */
  function BiasValue(b: BiasResult): JsValue {
    JsObject(map["detected" := JsBool(b.detected),
                 "type" := (if b.biasType.Some? then JsString(b.biasType.value) else JsNull),
                 "confidence" := JsString(b.ConfidenceLabel()),
                 "explanation" := JsString(b.explanation)])
  }

  /** The analysis object the handler stores as `aiAnalysis`; an absent
      subcategory is an absent key. */
  function AnalysisValue(a: AnalysisResult): JsValue {
    var fields := map[
      "cleanedQuery" := JsString(a.cleanedQuery),
      "originalQuery" := JsString(a.originalQuery),
      "language" := JsString(a.language),
      "detectedIssues" := StringsValue(a.detectedIssues),
      "category" := JsString(a.category),
      "suggestedLaws" := JsArray(seq(|a.suggestedLaws|, i requires 0 <= i < |a.suggestedLaws| => LawValue(a.suggestedLaws[i]))),
      "biasDetection" := BiasValue(a.biasDetection),
      "recommendedActions" := StringsValue(a.recommendedActions),
      "confidence" := JsString(a.confidence),
      "processedAt" := JsDate(a.processedAt)];
    JsObject(if a.subcategory.Some? then fields["subcategory" := JsString(a.subcategory.value)] else fields)
  }

  /** The declared fields of the stored analysis object. */
  lemma AnalysisValueFields(a: AnalysisResult)
    ensures var v := AnalysisValue(a);
      && v.JsObject?
      && v.fields["detectedIssues"] == StringsValue(a.detectedIssues)
      && v.fields["suggestedLaws"].JsArray?
      && |v.fields["suggestedLaws"].items| == |a.suggestedLaws|
      && (forall i :: 0 <= i < |a.suggestedLaws| ==> v.fields["suggestedLaws"].items[i] == LawValue(a.suggestedLaws[i]))
      && v.fields["biasDetection"] == BiasValue(a.biasDetection)
      && v.fields["confidence"] == JsString(a.confidence)
      && v.fields["recommendedActions"] == StringsValue(a.recommendedActions)
      && v.fields["processedAt"] == JsDate(a.processedAt)
  {
  }

  /** `POST /analyze` when the case schema declares `aiAnalysis` as the path
      type `aiAnalysis`: building the case casts the analysis object, and a
      value the path rejects fails the create. */
  function AnalyzeUnder(aiAnalysis: PathType, req: AnalyzeRequest, o: Oracles, now: int): (r: AnalyzeResponse)
    ensures r.AnalyzeRejected? <==> AnalyzeErrors(req) != []
    ensures r.Analyzed? ==> Castable(aiAnalysis, AnalysisValue(r.analysis)) && r == Analyze(req, o, now)
    ensures AnalyzeErrors(req) == [] && !Castable(aiAnalysis, AnalysisValue(RunStages(req.query.value, req.language.value, o, now)))
            ==> r == AnalyzeFailed
  {
    var errors := AnalyzeErrors(req);
    if errors != [] then AnalyzeRejected(errors)
    else
      var result := RunStages(req.query.value, req.language.value, o, now);
      if !Castable(aiAnalysis, AnalysisValue(result)) then AnalyzeFailed else Analyze(req, o, now)
  }

  /** As written, no analysis is ever stored: the bias result is an object,
      `aiAnalysis.biasDetection` is a String path, and every request that
      passes validation fails. */
  lemma AnalyzeAsWrittenFails(req: AnalyzeRequest, o: Oracles, now: int)
    requires AnalyzeErrors(req) == []
    ensures AnalyzeUnder(Interpret(AiAnalysisDecl(TypeAsWritten)), req, o, now) == AnalyzeFailed
  {
    AnalysisRejectedAsWritten(RunStages(req.query.value, req.language.value, o, now));
  }

  lemma AnalysisRejectedAsWritten(a: AnalysisResult)
    ensures !Castable(Interpret(AiAnalysisDecl(TypeAsWritten)), AnalysisValue(a))
  {
    AsWrittenPaths();
    AnalysisValueFields(a);
    var v := AnalysisValue(a);
    StringRejectsPlainObject(BiasValue(a.biasDetection).fields);
    NestedRejectsBadField(AiAnalysisPath(StringPath).fields, v.fields, "biasDetection", StringPath);
  }

  /** With `type` declared as a field of `biasDetection`, every analysis
      casts and the route is `Analyze`. */
  lemma AnalyzeIntendedAgrees(req: AnalyzeRequest, o: Oracles, now: int)
    ensures AnalyzeUnder(Interpret(AiAnalysisDecl(TypeAsField)), req, o, now) == Analyze(req, o, now)
  {
    IntendedPaths();
    if AnalyzeErrors(req) == [] {
      AnalysisCasts(RunStages(req.query.value, req.language.value, o, now));
    }
  }

  lemma AnalysisCasts(a: AnalysisResult)
    ensures Castable(AiAnalysisPath(BiasPath), AnalysisValue(a))
  {
    AnalysisValueFields(a);
    var v := AnalysisValue(a);
    var fs := AiAnalysisPath(BiasPath).fields;
    LawsCast(a);
    BiasCasts(a.biasDetection);
    StringsCast(a.detectedIssues);
    StringsCast(a.recommendedActions);
    forall i | 0 <= i < |fs| && fs[i].0 in v.fields
      ensures Castable(fs[i].1, v.fields[fs[i].0])
    {
      assert i == 0 || i == 1 || i == 2 || i == 3 || i == 4 || i == 5;
    }
  }

  lemma LawsCast(a: AnalysisResult)
    ensures Castable(ArrayPath(LawPath), AnalysisValue(a).fields["suggestedLaws"])
  {
    AnalysisValueFields(a);
    var laws := AnalysisValue(a).fields["suggestedLaws"];
    forall i | 0 <= i < |laws.items| ensures Castable(LawPath, laws.items[i]) {
      assert laws.items[i] == LawValue(a.suggestedLaws[i]);
    }
  }

  lemma BiasCasts(b: BiasResult)
    ensures Castable(BiasPath, BiasValue(b))
  {
  }

  lemma StringsCast(s: seq<string>)
    ensures Castable(ArrayPath(StringPath), StringsValue(s))
  {
  }

  // ---------------------------------------------------------------------------
  // POST /generate-document
  // ---------------------------------------------------------------------------

  /** The request body's `data`: an object (its fields) or any other JSON value. */
  datatype Payload = ObjectPayload(fields: map<string, string>) | OtherPayload

  datatype DocumentRequest = DocumentRequest(docType: Option<string>, data: Option<Payload>, caseId: Option<string>)

  function DocumentErrors(req: DocumentRequest): (r: seq<string>)
    ensures r == [] <==>
      req.docType.Some? && ParseDocType(req.docType.value).Some? && req.data.Some? && req.data.value.ObjectPayload?
  {
    (if req.docType.None? || ParseDocType(req.docType.value).None?
     then ["Document type must be fir, rti, notice, or complaint"] else [])
    + (if req.data.None? || !req.data.value.ObjectPayload? then ["Document data is required"] else [])
  }

  datatype DocumentResponse =
    | DocumentRejected(errors: seq<string>)
    | DocumentFailed
    | DocumentGenerated(docType: string, content: string, generatedAt: int)

  /** The document a generated draft leaves on its case. The update also
      sends the text, which the case does not keep (`GeneratedTextNotStored`). */
  function GeneratedDocument(docType: string, now: nat): CaseDocument {
    CaseDocument(ToUpper(docType) + "_" + NatToString(now) + ".txt", "generated", now)
  }

  /** `POST /generate-document` over a store of cases by id, once a pushed
      document is accepted by the `documents` path, that is with a
      document's `type` declared as a field (see `GenerateDocumentUnder`).
      The update pushes onto the case's documents directly, so the save hook
      does not run; an id with no case changes nothing. */
  function GenerateDocumentRoute(req: DocumentRequest, render: (DocType, map<string, string>) -> string,
                                 cases: map<string, CaseRecord>, now: nat)
    : (r: (DocumentResponse, map<string, CaseRecord>))
    ensures r.0.DocumentRejected? <==> DocumentErrors(req) != []
    ensures !r.0.DocumentGenerated? ==> r.1 == cases
    ensures r.0.DocumentGenerated? ==>
      && r.0.content == render(ParseDocType(req.docType.value).value, req.data.value.fields)
      && r.1.Keys == cases.Keys
      && (forall id :: id in cases && (req.caseId != Some(id) || id == "") ==> r.1[id] == cases[id])
      && (req.caseId.Some? && req.caseId.value in cases && req.caseId.value != "" ==>
            var before := cases[req.caseId.value];
            r.1[req.caseId.value] == before.(documents := before.documents
              + [GeneratedDocument(req.docType.value, now)]))
  {
    var errors := DocumentErrors(req);
    if errors != [] then (DocumentRejected(errors), cases)
    else
      var docType := req.docType.value;
      match GenerateDocument(docType, req.data.value.fields, render)
      case Failure(_) => (DocumentFailed, cases)
      case Success(content) =>
        var updated :=
          if req.caseId.Some? && req.caseId.value != "" && req.caseId.value in cases then
            var before := cases[req.caseId.value];
            cases[req.caseId.value := before.(documents := before.documents + [GeneratedDocument(docType, now)])]
          else cases;
        (DocumentGenerated(docType, content, now), updated)
  }

  /** A request that passes validation always produces its document. */
  lemma ValidDocumentRequestSucceeds(req: DocumentRequest, render: (DocType, map<string, string>) -> string,
                                     cases: map<string, CaseRecord>, now: nat)
    requires DocumentErrors(req) == []
    ensures GenerateDocumentRoute(req, render, cases, now).0.DocumentGenerated?
  {
  }

  /** A case's documents grow by exactly one per generated draft. */
  lemma OneDocumentPerDraft(req: DocumentRequest, render: (DocType, map<string, string>) -> string,
                            cases: map<string, CaseRecord>, now: nat)
    requires DocumentErrors(req) == []
    requires req.caseId.Some? && req.caseId.value in cases && req.caseId.value != ""
    ensures var after := GenerateDocumentRoute(req, render, cases, now).1;
      |after[req.caseId.value].documents| == |cases[req.caseId.value].documents| + 1
      && after[req.caseId.value].timeline == cases[req.caseId.value].timeline
  {
  }

  /** `POST /generate-document` when the case schema declares `documents` as
      the path type `documents`: the update casts the pushed document, and a
      value the path rejects fails the request before anything is written.
      The cast happens whether or not a case has the id. */
  function GenerateDocumentUnder(documents: PathType, req: DocumentRequest,
                                 render: (DocType, map<string, string>) -> string,
                                 cases: map<string, CaseRecord>, now: nat)
    : (r: (DocumentResponse, map<string, CaseRecord>))
    ensures r.0.DocumentRejected? <==> DocumentErrors(req) != []
    ensures !r.0.DocumentGenerated? ==> r.1 == cases
    ensures r.0.DocumentGenerated? ==>
      && r == GenerateDocumentRoute(req, render, cases, now)
      && (req.caseId.Some? && req.caseId.value != "" ==>
            Castable(documents, JsArray([PushedDocument(GeneratedDocument(req.docType.value, now), r.0.content)])))
  {
    var errors := DocumentErrors(req);
    if errors != [] then (DocumentRejected(errors), cases)
    else
      var docType := req.docType.value;
      match GenerateDocument(docType, req.data.value.fields, render)
      case Failure(_) => (DocumentFailed, cases)
      case Success(content) =>
        if req.caseId.Some? && req.caseId.value != ""
           && !Castable(documents, JsArray([PushedDocument(GeneratedDocument(docType, now), content)]))
        then (DocumentFailed, cases)
        else GenerateDocumentRoute(req, render, cases, now)
  }

  /** As written, a request naming a case always fails and no case changes:
      a document element is a String path and the pushed document is an
      object. */
  lemma GenerateDocumentAsWrittenFails(req: DocumentRequest, render: (DocType, map<string, string>) -> string,
                                       cases: map<string, CaseRecord>, now: nat)
    requires DocumentErrors(req) == []
    requires req.caseId.Some? && req.caseId.value != ""
    ensures GenerateDocumentUnder(Interpret(DocumentsDecl(TypeAsWritten)), req, render, cases, now) == (DocumentFailed, cases)
  {
    ValidDocumentRequestSucceeds(req, render, cases, now);
    var content := GenerateDocumentRoute(req, render, cases, now).0.content;
    PushedDocumentCasts(GeneratedDocument(req.docType.value, now), content);
  }

  /** As written, a request without a case id still produces its document. */
  lemma GenerateDocumentAsWrittenWithoutCase(req: DocumentRequest, render: (DocType, map<string, string>) -> string,
                                             cases: map<string, CaseRecord>, now: nat)
    requires req.caseId.None? || req.caseId.value == ""
    ensures GenerateDocumentUnder(Interpret(DocumentsDecl(TypeAsWritten)), req, render, cases, now)
              == GenerateDocumentRoute(req, render, cases, now)
  {
  }

  /** With `type` declared as a field, every pushed document casts and the
      route is `GenerateDocumentRoute`. */
  lemma GenerateDocumentIntendedAgrees(req: DocumentRequest, render: (DocType, map<string, string>) -> string,
                                       cases: map<string, CaseRecord>, now: nat)
    ensures GenerateDocumentUnder(Interpret(DocumentsDecl(TypeAsField)), req, render, cases, now)
              == GenerateDocumentRoute(req, render, cases, now)
  {
    if DocumentErrors(req) == [] {
      var r := GenerateDocument(req.docType.value, req.data.value.fields, render);
      if r.Success? {
        PushedDocumentCasts(GeneratedDocument(req.docType.value, now), r.value);
      }
    }
  }

  /** The generated text is returned but not kept: the case gains what
      strict mode keeps of the pushed object, which has no `content`. */
  lemma GeneratedTextNotStored(req: DocumentRequest, render: (DocType, map<string, string>) -> string,
                               cases: map<string, CaseRecord>, now: nat)
    requires DocumentErrors(req) == []
    requires req.caseId.Some? && req.caseId.value in cases && req.caseId.value != ""
    ensures var r := GenerateDocumentRoute(req, render, cases, now);
      var docs := r.1[req.caseId.value].documents;
      var pushed := PushedDocument(GeneratedDocument(req.docType.value, now), r.0.content);
      && |docs| > 0
      && DocumentValue(docs[|docs| - 1]) == Strict(DocumentPath, pushed)
      && "content" in pushed.fields
      && "content" !in DocumentValue(docs[|docs| - 1]).fields
  {
    var r := GenerateDocumentRoute(req, render, cases, now);
    var docs := r.1[req.caseId.value].documents;
    assert docs[|docs| - 1] == GeneratedDocument(req.docType.value, now);
    StrictDropsContent(GeneratedDocument(req.docType.value, now), r.0.content);
  }

  // ---------------------------------------------------------------------------
  // POST /translate
  // ---------------------------------------------------------------------------

  datatype TranslateRequest = TranslateRequest(text: Option<string>, from: Option<string>, to: Option<string>)

  function TranslateErrors(req: TranslateRequest): (r: seq<string>)
    ensures r == [] <==>
      && req.text.Some? && |req.text.value| > 0
      && req.from.Some? && req.from.value in ["hindi", "english", "auto"]
      && req.to.Some? && req.to.value in ["hindi", "english"]
  {
    (if req.text.None? || |req.text.value| == 0 then ["Text is required"] else [])
    + (if req.from.None? || req.from.value !in ["hindi", "english", "auto"]
       then ["Source language must be hindi, english, or auto"] else [])
    + (if req.to.None? || req.to.value !in ["hindi", "english"]
       then ["Target language must be hindi or english"] else [])
  }

  datatype TranslateResponse =
    | TranslateRejected(errors: seq<string>)
    | TranslateFailed
    | Translated(original: string, translated: string, from: string, to: string)

  /** `POST /translate`; a failed model call is a server error. */
  function Translate(req: TranslateRequest, translate: (string, string, string) -> Option<string>): (r: TranslateResponse)
    ensures r.TranslateRejected? <==> TranslateErrors(req) != []
    ensures r.Translated? ==>
      && req.text == Some(r.original) && req.from == Some(r.from) && req.to == Some(r.to)
      && translate(r.original, r.from, r.to).Some?
      && r.translated == Trim(translate(r.original, r.from, r.to).value) && IsTrimmed(r.translated)
    ensures r.TranslateFailed? ==> translate(req.text.value, req.from.value, req.to.value).None?
  {
    var errors := TranslateErrors(req);
    if errors != [] then TranslateRejected(errors)
    else
      var text, from, to := req.text.value, req.from.value, req.to.value;
      match TranslateText(translate(text, from, to))
      case None => TranslateFailed
      case Some(t) => Translated(text, t, from, to)
  }
}
