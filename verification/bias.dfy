/** The bias scorer of the legal-query backend: case-insensitive substring
    matching of a query against five ordered keyword categories and a list of
    discrimination keywords, per-category severity, a primary category chosen
    by a max-reduce, a capped confidence, and table-driven explanation texts.
    Severities are held in tenths (0..10 stands for 0.0..1.0). */
module BiasDetection {
  import opened Wrappers
  import opened Text
  import opened Numeric

  // ---------------------------------------------------------------------------
  // The lexicon
  // ---------------------------------------------------------------------------

  datatype BiasCategory = Gender | Caste | Religion | Economic | Regional {

    /** Position in the lexicon's declaration order. */
    function Order(): nat {
      match this
      case Gender => 0
      case Caste => 1
      case Religion => 2
      case Economic => 3
      case Regional => 4
    }

    function Name(): string {
      match this
      case Gender => "gender"
      case Caste => "caste"
      case Religion => "religion"
      case Economic => "economic"
      case Regional => "regional"
    }
  }

  /** The categories in declaration order; the scan visits them in this order. */
  const Categories: seq<BiasCategory> := [Gender, Caste, Religion, Economic, Regional]

  function Patterns(c: BiasCategory): seq<string> {
    match c
    case Gender => [
      "औरत", "महिला", "लड़की", "बहू", "पत्नी", "woman", "girl", "wife", "female",
      "मर्द", "आदमी", "लड़का", "पति", "man", "male", "husband", "boy"]
    case Caste => [
      "जाति", "दलित", "ब्राह्मण", "क्षत्रिय", "वैश्य", "शूद्र", "अनुसूचित",
      "caste", "dalit", "brahmin", "kshatriya", "vaishya", "shudra", "scheduled"]
    case Religion => [
      "हिंदू", "मुस्लिम", "सिख", "ईसाई", "बौद्ध", "जैन",
      "hindu", "muslim", "sikh", "christian", "buddhist", "jain"]
    case Economic => [
      "गरीब", "अमीर", "पैसा", "धन", "संपत्ति", "poor", "rich", "money", "wealth", "property"]
    case Regional => [
      "उत्तर", "दक्षिण", "पूर्व", "पश्चिम", "गांव", "शहर",
      "north", "south", "east", "west", "village", "city", "rural", "urban"]
  }

  const DiscriminationKeywords: seq<string> := [
    "भेदभाव", "अन्याय", "अत्याचार", "उत्पीड़न", "शोषण",
    "discrimination", "injustice", "oppression", "harassment", "exploitation",
    "unfair", "biased", "prejudice", "stereotype"]

  /** Words that raise the severity of every detected category. */
  const SeverityIndicators: seq<string> := [
    "मारना", "पीटना", "हिंसा", "धमकी", "beating", "violence", "threat", "abuse"]

  /** The service's tables: the category patterns, the discrimination keywords
      and the severity indicators. The scorer is stated for any lexicon;
      `Standard` holds the tables the service is built with. */
  datatype Lexicon = Lexicon(
    patterns: BiasCategory -> seq<string>,
    discrimination: seq<string>,
    indicators: seq<string>)

  const Standard: Lexicon := Lexicon(Patterns, DiscriminationKeywords, SeverityIndicators)

  /** A lexicon entry occurs in an already lower-cased query. */
  predicate Matches(queryLower: string, pattern: string) {
    Contains(queryLower, ToLower(pattern))
  }

  /** The lexicon entries that occur in the lower-cased query, in lexicon
      order; the entry is lower-cased before the comparison. */
  function FoundIn(patterns: seq<string>, queryLower: string): (r: seq<string>)
    ensures |r| <= |patterns|
    ensures forall p :: p in r <==> p in patterns && Matches(queryLower, p)
  {
    if |patterns| == 0 then []
    else
      var rest := FoundIn(patterns[1..], queryLower);
      assert patterns == [patterns[0]] + patterns[1..];
      if Matches(queryLower, patterns[0]) then [patterns[0]] + rest else rest
  }

  /** The scan is a filter: the matching entries in lexicon order, each as
      often as the lexicon lists it. */
  lemma {:induction false} FoundInIsFilter(patterns: seq<string>, queryLower: string)
    ensures forall p :: multiset(FoundIn(patterns, queryLower))[p] == if Matches(queryLower, p) then multiset(patterns)[p] else 0
    ensures IsSubsequence(FoundIn(patterns, queryLower), patterns)
  {
    if |patterns| > 0 {
      FoundInIsFilter(patterns[1..], queryLower);
      assert patterns == [patterns[0]] + patterns[1..];
      var rest := FoundIn(patterns[1..], queryLower);
      if Matches(queryLower, patterns[0]) {
        assert FoundIn(patterns, queryLower) == [patterns[0]] + rest;
        assert ([patterns[0]] + rest)[1..] == rest;
      } else {
        assert FoundIn(patterns, queryLower) == rest;
      }
    }
  }

  /** No entry is listed twice. */
  predicate NoRepeats(s: seq<string>) {
    forall i, j :: 0 <= i < j < |s| ==> s[i] != s[j]
  }

  lemma {:induction false} NoRepeatsMultiplicity(s: seq<string>, p: string)
    requires NoRepeats(s)
    ensures multiset(s)[p] <= 1
  {
    if |s| > 0 {
      assert s == [s[0]] + s[1..];
      NoRepeatsMultiplicity(s[1..], p);
      if s[0] == p {
        assert p !in s[1..];
      }
    }
  }

  /** Over a list without repeats, the scan reports each matching entry once. */
  lemma FoundInOnce(patterns: seq<string>, queryLower: string, p: string)
    requires NoRepeats(patterns)
    ensures multiset(FoundIn(patterns, queryLower))[p] == if p in patterns && Matches(queryLower, p) then 1 else 0
  {
    FoundInIsFilter(patterns, queryLower);
    NoRepeatsMultiplicity(patterns, p);
  }

  /** The service's tables list no entry twice. */
  lemma StandardPatternsHaveNoRepeats(c: BiasCategory)
    ensures NoRepeats(Standard.patterns(c))
  {
    match c
    case Gender => GenderNoRepeats();
    case Caste => CasteNoRepeats();
    case Religion => ReligionNoRepeats();
    case Economic => EconomicNoRepeats();
    case Regional => RegionalNoRepeats();
  }

  lemma GenderNoRepeats()
    ensures NoRepeats(Patterns(Gender))
  {
  }

  lemma CasteNoRepeats()
    ensures NoRepeats(Patterns(Caste))
  {
  }

  lemma ReligionNoRepeats()
    ensures NoRepeats(Patterns(Religion))
  {
  }

  lemma EconomicNoRepeats()
    ensures NoRepeats(Patterns(Economic))
  {
  }

  lemma RegionalNoRepeats()
    ensures NoRepeats(Patterns(Regional))
  {
  }

  lemma StandardKeywordsHaveNoRepeats()
    ensures NoRepeats(Standard.discrimination)
  {
  }

  lemma StandardIndicatorsHaveNoRepeats()
    ensures NoRepeats(Standard.indicators)
  {
  }

  // ---------------------------------------------------------------------------
  // Severity and confidence
  // ---------------------------------------------------------------------------

  /** Number of distinct severity indicators in the query. */
  function IndicatorCount(lex: Lexicon, queryLower: string): nat {
    |FoundIn(lex.indicators, ToLower(queryLower))|
  }

  /** `calculateSeverity` in tenths: 0.2 per pattern found, 0.3 more when more
      than two were found, 0.2 per severity indicator, capped at 1.0. */
  function Severity(patternCount: nat, indicatorCount: nat): (r: nat)
    ensures r <= 10
  {
    Min(10, 2 * patternCount + (if patternCount > 2 then 3 else 0) + 2 * indicatorCount)
  }

  /** More patterns or more indicators never lower the severity. */
  lemma SeverityMonotone(k1: nat, i1: nat, k2: nat, i2: nat)
    requires k1 <= k2 && i1 <= i2
    ensures Severity(k1, i1) <= Severity(k2, i2)
  {
  }

  /** `calculateConfidence` of the scorer, in percent. */
  function BiasConfidence(categoryCount: nat, keywordCount: nat): (r: nat)
    ensures r <= 95
    ensures categoryCount + keywordCount > 0 ==> r >= 45
    ensures categoryCount + keywordCount == 0 ==> r == 30
  {
    Min(95, 30 + 15 * categoryCount + 10 * keywordCount
            + (if categoryCount > 1 then 20 else 0)
            + (if keywordCount > 0 then 15 else 0))
  }

  // ---------------------------------------------------------------------------
  // Category scan and primary choice
  // ---------------------------------------------------------------------------

  datatype DetectedBias = DetectedBias(category: BiasCategory, patterns: seq<string>, severity: nat)

  predicate InDeclarationOrder(cats: seq<BiasCategory>) {
    forall i, j :: 0 <= i < j < |cats| ==> cats[i].Order() < cats[j].Order()
  }

  function CategoriesOf(d: seq<DetectedBias>): (r: seq<BiasCategory>)
    ensures |r| == |d|
    ensures forall i :: 0 <= i < |d| ==> r[i] == d[i].category
  {
    seq(|d|, i requires 0 <= i < |d| => d[i].category)
  }

  /** The record pushed for category `c`: the patterns found and their severity. */
  function Entry(lex: Lexicon, c: BiasCategory, queryLower: string): DetectedBias {
    var found := FoundIn(lex.patterns(c), queryLower);
    DetectedBias(c, found, Severity(|found|, IndicatorCount(lex, queryLower)))
  }

  /** The loop over the lexicon: one entry per category with at least one
      pattern in the query, in the order the categories are visited. */
  function DetectCategories(lex: Lexicon, cats: seq<BiasCategory>, queryLower: string): (r: seq<DetectedBias>)
    requires InDeclarationOrder(cats)
    ensures |r| <= |cats|
    ensures forall e :: e in r ==> e.category in cats && e == Entry(lex, e.category, queryLower) && |e.patterns| > 0
    ensures forall c :: c in cats ==> (c in CategoriesOf(r) <==> |FoundIn(lex.patterns(c), queryLower)| > 0)
    ensures InDeclarationOrder(CategoriesOf(r))
  {
    if |cats| == 0 then []
    else
      var c := cats[0];
      var rest := DetectCategories(lex, cats[1..], queryLower);
      assert cats == [c] + cats[1..];
      var found := FoundIn(lex.patterns(c), queryLower);
      if |found| > 0 then
        var r := [Entry(lex, c, queryLower)] + rest;
        assert CategoriesOf(r) == [c] + CategoriesOf(rest);
        assert forall e :: e in rest ==> e.category in cats[1..];
        HeadPrecedes(cats, CategoriesOf(rest));
        ConsInOrder(c, CategoriesOf(rest));
        r
      else rest
  }

  lemma HeadPrecedes(cats: seq<BiasCategory>, later: seq<BiasCategory>)
    requires |cats| > 0 && InDeclarationOrder(cats)
    requires forall x :: x in later ==> x in cats[1..]
    ensures forall x :: x in later ==> cats[0].Order() < x.Order()
  {
    forall x | x in later
      ensures cats[0].Order() < x.Order()
    {
      var j :| 0 <= j < |cats| - 1 && cats[1..][j] == x;
      assert cats[j + 1] == x;
    }
  }

  lemma ConsInOrder(c: BiasCategory, rest: seq<BiasCategory>)
    requires InDeclarationOrder(rest)
    requires forall x :: x in rest ==> c.Order() < x.Order()
    ensures InDeclarationOrder([c] + rest)
  {
    var r := [c] + rest;
    forall i, j | 0 <= i < j < |r|
      ensures r[i].Order() < r[j].Order()
    {
      assert r[j] == rest[j - 1];
      assert rest[j - 1] in rest;
      if i > 0 {
        assert r[i] == rest[i - 1];
      }
    }
  }

  lemma CategoriesInOrder()
    ensures InDeclarationOrder(Categories)
  {
  }

  /** The fold `reduce((prev, cur) => prev.severity > cur.severity ? prev : cur)`
      over `d[i..]`, with `best` the index the fold has kept so far. */
  function ReduceFrom(d: seq<DetectedBias>, best: nat, i: nat): (k: nat)
    requires best < i <= |d|
    requires forall j :: 0 <= j < i ==> d[j].severity <= d[best].severity
    requires forall j :: best < j < i ==> d[j].severity < d[best].severity
    ensures k < |d|
    ensures forall j :: 0 <= j < |d| ==> d[j].severity <= d[k].severity
    ensures forall j :: k < j < |d| ==> d[j].severity < d[k].severity
    decreases |d| - i
  {
    if i == |d| then best
    else ReduceFrom(d, if d[best].severity > d[i].severity then best else i, i + 1)
  }

  /** Index of the primary bias: a most severe entry, and the LAST one of
      those in declaration order, because the fold keeps the current entry
      on ties. */
  function PrimaryIndex(d: seq<DetectedBias>): (k: nat)
    requires |d| > 0
    ensures k < |d|
    ensures forall j :: 0 <= j < |d| ==> d[j].severity <= d[k].severity
    ensures forall j :: k < j < |d| ==> d[j].severity < d[k].severity
  {
    ReduceFrom(d, 0, 1)
  }

  // ---------------------------------------------------------------------------
  // Labels and explanation tables
  // ---------------------------------------------------------------------------

  /** `formatBiasType`: the six known type names get a capitalised label,
      everything else is reported as "General". */
  function FormatBiasType(t: string): string {
    if t == "gender" then "Gender"
    else if t == "caste" then "Caste"
    else if t == "religion" then "Religion"
    else if t == "economic" then "Economic"
    else if t == "regional" then "Regional"
    else "General"
  }

  datatype Lang = Hindi | English

  /** Only the exact string "hindi" selects the Hindi tables. */
  function LangOf(language: string): Lang {
    if language == "hindi" then Hindi else English
  }

  function CategoryExplanation(lang: Lang, c: BiasCategory): string {
    match (lang, c)
    case (Hindi, Gender) => "लिंग आधारित भेदभाव की संभावना का पता चला है।"
    case (Hindi, Caste) => "जाति आधारित भेदभाव की संभावना का पता चला है।"
    case (Hindi, Religion) => "धर्म आधारित भेदभाव की संभावना का पता चला है।"
    case (Hindi, Economic) => "आर्थिक स्थिति के आधार पर भेदभाव की संभावना है।"
    case (Hindi, Regional) => "क्षेत्रीय या भाषाई भेदभाव की संभावना है।"
    case (English, Gender) => "Potential gender-based discrimination detected."
    case (English, Caste) => "Potential caste-based discrimination detected."
    case (English, Religion) => "Potential religion-based discrimination detected."
    case (English, Economic) => "Potential economic status-based discrimination detected."
    case (English, Regional) => "Potential regional or linguistic discrimination detected."
  }

  function KeywordExplanation(lang: Lang): string {
    if lang == Hindi then "भेदभाव संबंधी शब्दों का उपयोग मिला है।"
    else "Discrimination-related keywords found in the query."
  }

  function FallbackExplanation(lang: Lang): string {
    if lang == Hindi then "संभावित पूर्वाग्रह का पता चला है।"
    else "Potential bias patterns detected in the query."
  }

  const NoBiasExplanation: string := "No bias patterns detected in the query."

  /** `generateExplanation`: the text for the FIRST detected category in
      declaration order, else the keyword text, else a generic text. */
  function GenerateExplanation(d: seq<DetectedBias>, keywords: seq<string>, language: string): (r: string)
    ensures |d| > 0 ==> r == CategoryExplanation(LangOf(language), d[0].category)
    ensures |d| == 0 && |keywords| > 0 ==> r == KeywordExplanation(LangOf(language))
  {
    var lang := LangOf(language);
    if |d| > 0 then CategoryExplanation(lang, d[0].category)
    else if |keywords| > 0 then KeywordExplanation(lang)
    else FallbackExplanation(lang)
  }

  // ---------------------------------------------------------------------------
  // detectBias
  // ---------------------------------------------------------------------------

  datatype BiasDetails = BiasDetails(biasTypes: seq<string>, discriminationKeywords: seq<string>, severity: nat)

  datatype BiasResult = BiasResult(
    detected: bool,
    biasType: Option<string>,
    confidence: nat,
    explanation: string,
    details: Option<BiasDetails>)
  {
    /** The confidence as the API reports it, e.g. "45%". */
    function ConfidenceLabel(): string {
      PercentString(confidence)
    }
  }

  const NoBias: BiasResult := BiasResult(false, None, 0, NoBiasExplanation, None)

  function TypeNames(d: seq<DetectedBias>): (r: seq<string>)
    ensures |r| == |d|
    ensures forall i :: 0 <= i < |d| ==> r[i] == d[i].category.Name()
  {
    seq(|d|, i requires 0 <= i < |d| => d[i].category.Name())
  }

  /** Some pattern of some category occurs in the lower-cased query. */
  predicate AnyCategoryMatch(lex: Lexicon, queryLower: string) {
    exists c: BiasCategory, p :: p in lex.patterns(c) && Matches(queryLower, p)
  }

  predicate AnyKeywordMatch(lex: Lexicon, queryLower: string) {
    exists p :: p in lex.discrimination && Matches(queryLower, p)
  }

  /** The categories detected in a query, in declaration order. */
  function Detected(lex: Lexicon, query: string): seq<DetectedBias> {
    CategoriesInOrder();
    DetectCategories(lex, Categories, ToLower(query))
  }

  /** `detectBias(query, language)` of a service built with the lexicon `lex`. */
  function DetectBias(lex: Lexicon, query: string, language: string): (r: BiasResult)
    ensures r.detected <==> AnyCategoryMatch(lex, ToLower(query)) || AnyKeywordMatch(lex, ToLower(query))
    ensures !r.detected ==> r == NoBias
    ensures r.detected ==>
      && 45 <= r.confidence <= 95
      && r.confidence == BiasConfidence(|Detected(lex, query)|, |FoundIn(lex.discrimination, ToLower(query))|)
      && r.biasType.Some?
      && r.details.Some?
      && r.details.value.severity <= 10
      && r.details.value.biasTypes == TypeNames(Detected(lex, query))
      && r.details.value.discriminationKeywords == FoundIn(lex.discrimination, ToLower(query))
      && r.explanation == GenerateExplanation(Detected(lex, query), r.details.value.discriminationKeywords, language)
  {
    var q := ToLower(query);
    var d := Detected(lex, query);
    var keywords := FoundIn(lex.discrimination, q);
    AnyCategoryMatchIff(lex, q);
    AnyKeywordMatchIff(lex, q);
    if |d| == 0 && |keywords| == 0 then NoBias
    else
      var primaryType, primarySeverity :=
        if |d| > 0 then d[PrimaryIndex(d)].category.Name() else "general",
        if |d| > 0 then d[PrimaryIndex(d)].severity else 5;
      assert primarySeverity <= 10 by {
        if |d| > 0 { assert d[PrimaryIndex(d)] in d; }
      }
      BiasResult(
        true,
        Some(FormatBiasType(primaryType)),
        BiasConfidence(|d|, |keywords|),
        GenerateExplanation(d, keywords, language),
        Some(BiasDetails(TypeNames(d), keywords, primarySeverity)))
  }

  lemma AnyKeywordMatchIff(lex: Lexicon, q: string)
    ensures AnyKeywordMatch(lex, q) <==> |FoundIn(lex.discrimination, q)| > 0
  {
    var found := FoundIn(lex.discrimination, q);
    if |found| > 0 {
      assert found[0] in found;
    }
  }

  lemma AnyCategoryMatchIff(lex: Lexicon, q: string)
    ensures InDeclarationOrder(Categories)
    ensures AnyCategoryMatch(lex, q) <==> |DetectCategories(lex, Categories, q)| > 0
  {
    CategoriesInOrder();
    if AnyCategoryMatch(lex, q) {
      MatchIsDetected(lex, q);
    }
    if |DetectCategories(lex, Categories, q)| > 0 {
      DetectedIsMatch(lex, q);
    }
  }

  lemma CategoryListed(c: BiasCategory)
    ensures c in Categories
  {
  }

  lemma MatchIsDetected(lex: Lexicon, q: string)
    requires InDeclarationOrder(Categories)
    requires AnyCategoryMatch(lex, q)
    ensures |DetectCategories(lex, Categories, q)| > 0
  {
    var d := DetectCategories(lex, Categories, q);
    var c: BiasCategory, p :| p in lex.patterns(c) && Matches(q, p);
    assert p in FoundIn(lex.patterns(c), q);
    CategoryListed(c);
    assert c in CategoriesOf(d);
  }

  lemma DetectedIsMatch(lex: Lexicon, q: string)
    requires InDeclarationOrder(Categories)
    requires |DetectCategories(lex, Categories, q)| > 0
    ensures AnyCategoryMatch(lex, q)
  {
    var d := DetectCategories(lex, Categories, q);
    var e := d[0];
    assert e in d;
    var p := e.patterns[0];
    assert p in FoundIn(lex.patterns(e.category), q);
    assert p in lex.patterns(e.category) && Matches(q, p);
  }


  // ---------------------------------------------------------------------------
  // Properties of the scorer
  // ---------------------------------------------------------------------------

  lemma NamesDistinct(c1: BiasCategory, c2: BiasCategory)
    ensures c1.Name() == c2.Name() ==> c1 == c2
  {
    if c1.Name() == c2.Name() {
      assert c1.Name()[0] == c2.Name()[0] && c1.Name()[2] == c2.Name()[2];
    }
  }

  /** A category is reported iff one of its patterns occurs in the lower-cased query. */
  lemma CategoryReportedIff(lex: Lexicon, query: string, language: string, c: BiasCategory)
    ensures var r := DetectBias(lex, query, language);
      (r.detected && c.Name() in r.details.value.biasTypes)
      <==> exists p :: p in lex.patterns(c) && Matches(ToLower(query), p)
  {
    var q := ToLower(query);
    var r := DetectBias(lex, query, language);
    var d := Detected(lex, query);
    CategoryListed(c);
    if exists p :: p in lex.patterns(c) && Matches(q, p) {
      var p :| p in lex.patterns(c) && Matches(q, p);
      assert p in FoundIn(lex.patterns(c), q);
      assert c in CategoriesOf(d);
      var i :| 0 <= i < |d| && CategoriesOf(d)[i] == c;
      assert TypeNames(d)[i] == c.Name();
      assert AnyCategoryMatch(lex, q);
    }
    if r.detected && c.Name() in r.details.value.biasTypes {
      var i :| 0 <= i < |d| && TypeNames(d)[i] == c.Name();
      NamesDistinct(d[i].category, c);
      assert d[i] in d;
      var p := d[i].patterns[0];
      assert p in FoundIn(lex.patterns(c), q);
    }
  }

  /** The reported type and severity are those of a most severe category, and of
      the last such category in declaration order: ties go to the later one. */
  lemma PrimaryIsLastMostSevere(lex: Lexicon, query: string, language: string)
    requires |Detected(lex, query)| > 0
    ensures var d := Detected(lex, query);
      var r := DetectBias(lex, query, language);
      exists k :: 0 <= k < |d|
        && r.biasType == Some(FormatBiasType(d[k].category.Name()))
        && r.details.Some? && r.details.value.severity == d[k].severity
        && (forall j :: 0 <= j < |d| ==> d[j].severity <= d[k].severity)
        && (forall j :: k < j < |d| ==> d[j].severity < d[k].severity)
  {
    var d := Detected(lex, query);
    var k := PrimaryIndex(d);
    assert d[k].category.Name() == d[PrimaryIndex(d)].category.Name();
  }

  /** When only discrimination keywords occur, the type is "General" with severity 0.5. */
  lemma GeneralWhenOnlyKeywords(lex: Lexicon, query: string, language: string)
    requires !AnyCategoryMatch(lex, ToLower(query))
    requires AnyKeywordMatch(lex, ToLower(query))
    ensures var r := DetectBias(lex, query, language);
      && r.detected
      && r.biasType == Some("General")
      && r.details.Some? && r.details.value.severity == 5 && r.details.value.biasTypes == []
      && r.explanation == KeywordExplanation(LangOf(language))
  {
    AnyCategoryMatchIff(lex, ToLower(query));
  }

  /** The reported label of every category is its capitalised name. */
  lemma FormatKnownTypes()
    ensures FormatBiasType(Gender.Name()) == "Gender"
    ensures FormatBiasType(Caste.Name()) == "Caste"
    ensures FormatBiasType(Religion.Name()) == "Religion"
    ensures FormatBiasType(Economic.Name()) == "Economic"
    ensures FormatBiasType(Regional.Name()) == "Regional"
    ensures FormatBiasType("general") == "General"
  {
  }

  /** The count per category is the number of distinct patterns found, not the
      number of occurrences: the single word "woman" matches both "woman" and
      "man" of the gender list. */
  lemma WomanMatchesTwoGenderPatterns()
    ensures "woman" in FoundIn(Standard.patterns(Gender), "woman")
    ensures "man" in FoundIn(Standard.patterns(Gender), "woman")
  {
    assert ToLower("woman") == "woman";
    assert ToLower("man") == "man";
    assert IsPrefix("woman", "woman"[0..]);
    assert IsPrefix("man", "woman"[2..]);
  }

  // ---------------------------------------------------------------------------
  // getBiasPreventionSuggestions
  // ---------------------------------------------------------------------------

  const EnglishGender: seq<string> := [
        "Ensure equal treatment regardless of gender",
        "Document any gender-based discrimination",
        "Contact women's rights organizations",
        "File complaint under relevant women protection laws"]
  const EnglishCaste: seq<string> := [
        "Document caste-based discrimination incidents",
        "File complaint under SC/ST Prevention of Atrocities Act",
        "Contact Dalit rights organizations",
        "Seek legal aid for caste discrimination cases"]
  const EnglishReligion: seq<string> := [
        "Document religious discrimination",
        "Contact minority rights organizations",
        "File complaint under relevant constitutional provisions",
        "Seek legal counsel for religious freedom cases"]
  const EnglishEconomic: seq<string> := [
        "Document economic discrimination",
        "Seek legal aid services",
        "Contact poverty alleviation programs",
        "File complaint with appropriate authorities"]
  const EnglishRegional: seq<string> := [
        "Document linguistic or regional discrimination",
        "Contact regional rights organizations",
        "File complaint under language rights provisions",
        "Seek local community support"]
  const HindiGender: seq<string> := [
        "लिंग के आधार पर समान व्यवहार सुनिश्चित करें",
        "लिंग आधारित भेदभाव का दस्तावेजीकरण करें",
        "महिला अधिकार संगठनों से संपर्क करें",
        "महिला सुरक्षा कानूनों के तहत शिकायत दर्ज करें"]
  const HindiCaste: seq<string> := [
        "जाति आधारित भेदभाव की घटनाओं का दस्तावेजीकरण करें",
        "अनुसूचित जाति/जनजाति अत्याचार निवारण अधिनियम के तहत शिकायत दर्ज करें",
        "दलित अधिकार संगठनों से संपर्क करें",
        "जाति भेदभाव के मामलों के लिए कानूनी सहायता लें"]
  const HindiReligion: seq<string> := [
        "धार्मिक भेदभाव का दस्तावेजीकरण करें",
        "अल्पसंख्यक अधिकार संगठनों से संपर्क करें",
        "संबंधित संवैधानिक प्रावधानों के तहत शिकायत दर्ज करें",
        "धार्मिक स्वतंत्रता के मामलों के लिए कानूनी सलाह लें"]

  /** The suggestion table; the Hindi table has entries for gender, caste and religion only. */
  function SuggestionEntry(lang: Lang, biasType: string): Option<seq<string>> {
    match lang
    case English =>
      if biasType == "gender" then Some(EnglishGender)
      else if biasType == "caste" then Some(EnglishCaste)
      else if biasType == "religion" then Some(EnglishReligion)
      else if biasType == "economic" then Some(EnglishEconomic)
      else if biasType == "regional" then Some(EnglishRegional)
      else None
    case Hindi =>
      if biasType == "gender" then Some(HindiGender)
      else if biasType == "caste" then Some(HindiCaste)
      else if biasType == "religion" then Some(HindiReligion)
      else None
  }

  /** `getBiasPreventionSuggestions(biasType, language)`: the entry for the type
      in the chosen language, or that language's gender list when there is none. */
  function PreventionSuggestions(biasType: string, language: string): (r: seq<string>)
    ensures |r| == 4
  {
    var lang := LangOf(language);
    match SuggestionEntry(lang, biasType)
    case Some(list) => list
    case None => if lang == Hindi then HindiGender else EnglishGender
  }

  /** Types without an entry fall back to the gender list of the same language:
      in Hindi that includes economic and regional; the capitalised labels that
      `formatBiasType` produces never have an entry. */
  lemma SuggestionFallback(biasType: string, language: string)
    requires SuggestionEntry(LangOf(language), biasType).None?
    ensures PreventionSuggestions(biasType, language) == PreventionSuggestions("gender", language)
  {
  }

  lemma SuggestionFallbackCases()
    ensures SuggestionEntry(Hindi, "economic").None?
    ensures SuggestionEntry(Hindi, "regional").None?
    ensures SuggestionEntry(English, "Gender").None?
    ensures SuggestionEntry(English, "economic").Some?
  {
  }
}
