/** The language-model stages of the analysis pipeline and the confidence
    aggregate. Each model call is an oracle: its reply is `Some` when the call
    and the parsing of its answer succeed and `None` when either throws; only
    what the service does with the reply, and its fallback, is modelled.
    Confidences are held in tenths of a percent. */
module AIService {
  import opened Wrappers
  import opened Text
  import opened Numeric
  import opened BiasDetection
  import opened LegalKnowledge

  /** The classification the model returns. */
  datatype LegalAnalysis = LegalAnalysis(
    detectedIssues: seq<string>,
    category: string,
    subcategory: Option<string>,
    urgencyLevel: Option<int>,
    suggestedTitle: Option<string>,
    keyTerms: seq<string>)

  const DefaultAnalysis: LegalAnalysis :=
    LegalAnalysis(["General Legal Issue"], "other", Some("general"), Some(5), Some("Legal Query"), [])

  lemma DefaultAnalysisFields()
    ensures DefaultAnalysis.category == "other"
    ensures DefaultAnalysis.detectedIssues == ["General Legal Issue"]
    ensures DefaultAnalysis.suggestedTitle == Some("Legal Query")
  {
  }

  const DefaultRecommendations: seq<string> := [
    "Consult with a qualified lawyer",
    "Gather all relevant documents",
    "File a complaint with appropriate authorities",
    "Seek legal aid if needed"]

  /** `cleanQuery`: the model's answer, trimmed, or the query itself when the
      call fails. */
  function CleanQuery(query: string, reply: Option<string>): (r: string)
    ensures reply.None? ==> r == query
    ensures reply.Some? ==> r == Trim(reply.value) && IsTrimmed(r) && |r| <= |reply.value|
  {
    match reply
    case Some(answer) => Trim(answer)
    case None => query
  }

  /** An answer that is already trimmed is used verbatim, so cleaning the
      cleaned query again changes nothing. */
  lemma CleanQueryKeepsTrimmedReply(query: string, answer: string)
    ensures IsTrimmed(answer) ==> CleanQuery(query, Some(answer)) == answer
    ensures CleanQuery(query, Some(CleanQuery(query, Some(answer)))) == CleanQuery(query, Some(answer))
  {
    TrimOfTrimmed(Trim(answer));
    if IsTrimmed(answer) {
      TrimOfTrimmed(answer);
    }
  }

  /** `analyzeLegalIssues`: the parsed answer, or the fixed default analysis. */
  function AnalyzeLegalIssues(reply: Option<LegalAnalysis>): (r: LegalAnalysis)
    ensures reply.None? ==>
      && r.detectedIssues == ["General Legal Issue"] && r.category == "other"
      && r.subcategory == Some("general") && r.urgencyLevel == Some(5)
      && r.suggestedTitle == Some("Legal Query") && r.keyTerms == []
    ensures reply.Some? ==> r == reply.value
  {
    reply.GetOr(DefaultAnalysis)
  }

  /** `generateRecommendations`: the parsed answer, or four fixed steps. */
  function GenerateRecommendations(reply: Option<seq<string>>): (r: seq<string>)
    ensures reply.None? ==> r == DefaultRecommendations
    ensures reply.Some? ==> r == reply.value
  {
    reply.GetOr(DefaultRecommendations)
  }

  /** The bias term, in tenths: the percentage parsed back out of the bias
      result's "NN%" label, divided by ten, at most 5. */
  function BiasBonus(bias: BiasResult): (b: nat)
    ensures b <= 50
    ensures !bias.detected ==> b == 0
    ensures bias.detected ==> b == Min(bias.confidence, 50)
  {
    if bias.detected && bias.ConfidenceLabel() != "" then
      PercentRoundTrip(bias.confidence);
      var parsed := ParseIntPrefix(RemoveFirst(bias.ConfidenceLabel(), '%'));
      Min(parsed.value, 50)
    else 0
  }

  /** `calculateConfidence`, in tenths: 50 base, 20 for any issue, 15 for any
      law, 10 for a category other than "other", plus the bias term, capped at 95. */
  function CalculateConfidence(analysis: LegalAnalysis, laws: seq<Law>, bias: BiasResult): (r: nat)
    ensures 500 <= r <= 950
  {
    var issues := if |analysis.detectedIssues| > 0 then 200 else 0;
    var found := if |laws| > 0 then 150 else 0;
    var specific := if analysis.category != "other" then 100 else 0;
    Min(500 + issues + found + specific + BiasBonus(bias), 950)
  }

  /** The confidence string of the API, e.g. "84.5%". */
  function ConfidenceLabel(tenths: nat): string {
    TenthsToString(tenths) + "%"
  }

  /** Each factor can only raise the confidence. */
  lemma ConfidenceMonotone(a1: LegalAnalysis, l1: seq<Law>, b1: BiasResult,
                           a2: LegalAnalysis, l2: seq<Law>, b2: BiasResult)
    requires |a1.detectedIssues| > 0 ==> |a2.detectedIssues| > 0
    requires |l1| > 0 ==> |l2| > 0
    requires a1.category != "other" ==> a2.category != "other"
    requires b1.detected ==> b2.detected && b1.confidence <= b2.confidence
    ensures CalculateConfidence(a1, l1, b1) <= CalculateConfidence(a2, l2, b2)
  {
  }

  /** With no factor present the confidence is the 50% base; with every factor
      present and a bias confidence of at least 50% it reaches the 95% cap. */
  lemma ConfidenceExtremes(a: LegalAnalysis, l: seq<Law>, b: BiasResult)
    ensures (|a.detectedIssues| == 0 && |l| == 0 && a.category == "other" && !b.detected)
      ==> CalculateConfidence(a, l, b) == 500
    ensures (|a.detectedIssues| > 0 && |l| > 0 && a.category != "other" && b.detected && b.confidence >= 50)
      ==> CalculateConfidence(a, l, b) == 950
  {
  }

  /** A bias found by the scorer adds between 4.5 and 5 points. */
  lemma DetectedBiasBonus(lex: Lexicon, query: string, language: string)
    requires DetectBias(lex, query, language).detected
    ensures 45 <= BiasBonus(DetectBias(lex, query, language)) <= 50
  {
  }

  // ---------------------------------------------------------------------------
  // generateDocument and translateText
  // ---------------------------------------------------------------------------

  datatype DocType = Fir | Rti | Notice | Complaint {
    function Name(): string {
      match this
      case Fir => "fir"
      case Rti => "rti"
      case Notice => "notice"
      case Complaint => "complaint"
    }
  }

  function ParseDocType(s: string): (r: Option<DocType>)
    ensures r.Some? ==> r.value.Name() == s
  {
    if s == "fir" then Some(Fir)
    else if s == "rti" then Some(Rti)
    else if s == "notice" then Some(Notice)
    else if s == "complaint" then Some(Complaint)
    else None
  }

  /** The type names are exactly the four accepted strings. */
  lemma DocTypeRoundTrip(d: DocType, s: string)
    ensures ParseDocType(d.Name()) == Some(d)
    ensures ParseDocType(s).Some? <==> s in ["fir", "rti", "notice", "complaint"]
  {
  }

  /** `generateDocument(type, data)`: the template for the type applied to the
      data, or an error for any other type. `render` stands for the templates. */
  function GenerateDocument<D>(docType: string, data: D, render: (DocType, D) -> string): (r: Result<string, string>)
    ensures r.Success? <==> ParseDocType(docType).Some?
    ensures r.Success? ==> r.value == render(ParseDocType(docType).value, data)
    ensures r.Failure? ==> r.error == "Unknown document type: " + docType
  {
    match ParseDocType(docType)
    case Some(d) => Success(render(d, data))
    case None => Failure("Unknown document type: " + docType)
  }

  /** `translateText`: the model's answer, trimmed; a failed call is passed on
      to the caller (`None`), there is no fallback. */
  function TranslateText(reply: Option<string>): (r: Option<string>)
    ensures r.Some? <==> reply.Some?
    ensures r.Some? ==> r.value == Trim(reply.value) && IsTrimmed(r.value)
  {
    match reply
    case Some(answer) => Some(Trim(answer))
    case None => None
  }
}
