# NyaayAI legal-query backend — a Dafny model

This project models the deterministic core of the NyaayAI backend. That backend is an Express/MongoDB
service: it takes a citizen's legal question, cleans and classifies it with a language model, and
scores it for social bias. It then looks up statutes from a built-in table of Indian law, aggregates
a confidence figure, and files the result as a draft case. The model covers:

- **Bias scorer** (`bias.dfy`, module `BiasDetection`):
  - case-insensitive pattern matching over five ordered categories and a discrimination-keyword list;
  - severity and confidence arithmetic, in tenths and whole percent;
  - the max-reduce choice of the primary bias;
  - the explanation, label and prevention-suggestion tables.
- **Legal knowledge base** (`knowledge.dfy`, module `LegalKnowledge`):
  - the statute table;
  - `findRelevantLaws`: union by section, relevance scoring, stable descending sort, cut to 5;
  - `searchLaws`: filter, score, sort, cut to 10, with the search-relevance formula, both as written and with the score corrected;
  - the legal-aid lookup.
- **Analysis service** (`ai_service.dfy`, module `AIService`): the fallbacks of the three model
  calls, the confidence aggregation, and the document-type dispatch.
- **`/analyze`, `/generate-document` and `/translate` handlers** (`ai_route.dfy`, module `AiRoute`):
  - request validation;
  - the stage order;
  - the result and the draft case assembled from it;
  - the document appended to a case;
  - how the case schema's declarations of the stored analysis and of a document become path types, and which values those paths accept (`schema_paths.dfy`, module `SchemaPaths`, applied in `case_model.dfy`). As written, neither handler can store what it builds (see Findings).
- **Dual-store coordinator** (`database.dfy`, module `DatabaseService`):
  - MongoDB is the primary store and Firestore the replica, each an abstract map;
  - create, read with fallback, update, sync and health check;
  - on a create the primary stores the document its model built from the input, while the replica receives the input as sent;
  - each store call can fail through a `Faults` parameter.
- **Model rules**:
  - `Case` enums, bounds, the save hook and the `nextHearing`/`ageInDays` virtuals (`case_model.dfy`);
  - `User` lock-out, phone/username/password validators and `fullName` (`user_model.dfy`);
  - `Lawyer` and `NGO` success rates and field bounds (`lawyer_model.dfy`, `ngo_model.dfy`).
  - The checks these models share are in `schema.dfy`.
- **Support modules**:
  - `wrappers.dfy`: `Option` and `Result`.
  - `text.dfy`: JavaScript string behaviour, i.e. ASCII `toLowerCase`, `includes`, `split(' ')`, `trim`, `parseInt` and number rendering.
  - `numeric.dfy`: round-half-up percentages.
  - `sorting.dfy`: a stable descending sort (equal keys keep their order), and its top-n.

Modelling conventions:

- **Oracles and inputs as parameters.**
  - The language model and the case store are oracles returning `Option`s.
  - The clock is a `now` parameter (milliseconds).
  - Fresh document ids are parameters.
  - Store failures are the `Faults(primary, replica)` parameter.
- **Numbers.**
  - Fractional values that the source computes in floating point are scaled integers: bias severity in tenths, pipeline confidence in tenths, bias confidence in percent.
  - Search relevance and ratings are exact `real`s.
  - `Math.round` is round-half-up on exact rationals.
- **Validation.**
  - A schema check yields the errors of one field path.
  - `required` is checked first, and a path reports at most its first failing check.
  - Checks other than `required` skip an unset field.

Where the code and its design description disagree, the model follows the code:

- A replica write is awaited, and its failure makes `createUser`/`createCase` throw. This happens even after the primary write succeeded. It is not fire-and-forget.
- When the primary read fails and the replica read also fails or is disabled, `getUserCases` rethrows the primary's error. When the primary returns nothing and the replica fails, it throws the replica's error. No separate "unavailable" error exists.
- `syncToFirebase` adds a new replica document on every call. It is not an idempotent upsert.
- When two bias categories tie on severity, the reduce keeps the later one in declaration order, not the first.
- A category's count is the number of distinct patterns found, not the number of occurrences.
- The classification stage is not retried.
- The status-change timeline entry names only the new status.
- The design files every analysis as a draft case and attaches generated drafts to their case. As the case schema is written, both writes fail (see Findings). The handlers are modelled with the corrected schema, and their as-written outcome is proved alongside.
- The generate-document handler pushes the drafted text as a document's `content`, but the document schema declares no `content` path and the schema is strict, so the case keeps only the document's name, type and upload time; the text reaches the caller only in the response.

## Model

| member | source | states |
|---|---|---|
| BiasDetection.FoundIn | backend/services/biasDetectionService.js:41-58 | the patterns found are exactly the listed ones that occur in the lower-cased query |
| BiasDetection.FoundInIsFilter | backend/services/biasDetectionService.js:41-58 | the scan is the order-preserving filter: every matching pattern as often as the lexicon lists it, in lexicon order |
| BiasDetection.FoundInOnce | backend/services/biasDetectionService.js:41-58 | over a list without repeats each matching pattern is found exactly once, so a count is the number of distinct patterns found |
| BiasDetection.StandardPatternsHaveNoRepeats | backend/services/biasDetectionService.js:6-25 | no category's pattern list repeats an entry |
| BiasDetection.StandardKeywordsHaveNoRepeats | backend/services/biasDetectionService.js:28-32 | the discrimination keyword list repeats no entry |
| BiasDetection.StandardIndicatorsHaveNoRepeats | backend/services/biasDetectionService.js:115-117 | the severity indicator list repeats no entry |
| BiasDetection.Severity | backend/services/biasDetectionService.js:106-126 | a category's severity never exceeds 1.0 (10 tenths) |
| BiasDetection.SeverityMonotone | backend/services/biasDetectionService.js:106-126 | more patterns or more severity indicators never lower the severity |
| BiasDetection.BiasConfidence | backend/services/biasDetectionService.js:128-148 | the scorer's confidence is at most 95, at least 45 once anything matched, and 30 when nothing did |
| BiasDetection.DetectCategories | backend/services/biasDetectionService.js:41-53 | a category is listed iff one of its patterns occurs; listed categories keep declaration order and carry their own scores |
| BiasDetection.CategoriesInOrder | backend/services/biasDetectionService.js:6-33 | the five categories are declared gender, caste, religion, economic, regional |
| BiasDetection.PrimaryIndex | backend/services/biasDetectionService.js:72-74 | the reduce lands on a most severe category, and no later category is as severe |
| BiasDetection.GenerateExplanation | backend/services/biasDetectionService.js:150-186 | the explanation is that of the first detected category, else the keyword text, in Hindi only for 'hindi' |
| BiasDetection.TypeNames | backend/services/biasDetectionService.js:88 | the reported type list names every detected category, in order |
| BiasDetection.DetectBias | backend/services/biasDetectionService.js:35-104 | bias is detected iff a category pattern or discrimination keyword occurs; otherwise the fixed no-bias result; when detected, confidence in [45,95] and equal to the score of the number of matched categories and keywords, severity ≤ 1.0, types, keywords and explanation as found |
| BiasDetection.AnyKeywordMatchIff | backend/services/biasDetectionService.js:56-58 | some discrimination keyword occurs iff the keyword list found is non-empty |
| BiasDetection.AnyCategoryMatchIff | backend/services/biasDetectionService.js:41-53 | some category pattern occurs iff some category is detected |
| BiasDetection.MatchIsDetected | backend/services/biasDetectionService.js:41-53 | a pattern occurrence makes its category detected |
| BiasDetection.DetectedIsMatch | backend/services/biasDetectionService.js:41-53 | a detected category has a pattern that occurs |
| BiasDetection.NamesDistinct | backend/services/biasDetectionService.js:6-33 | no two categories share a name |
| BiasDetection.CategoryReportedIff | backend/services/biasDetectionService.js:41-53 | a category appears in the reported types iff one of its patterns occurs in the lower-cased query |
| BiasDetection.PrimaryIsLastMostSevere | backend/services/biasDetectionService.js:72-92 | the reported type and severity belong to a most severe category, the last one of equal severity |
| BiasDetection.GeneralWhenOnlyKeywords | backend/services/biasDetectionService.js:72-92 | with only discrimination keywords, the type is 'General' with severity 0.5 and the keyword explanation |
| BiasDetection.FormatKnownTypes | backend/services/biasDetectionService.js:188-199 | each known type gets its capitalised label |
| BiasDetection.WomanMatchesTwoGenderPatterns | backend/services/biasDetectionService.js:41-53 | "woman" counts both the 'woman' and the 'man' pattern |
| BiasDetection.PreventionSuggestions | backend/services/biasDetectionService.js:202-260 | every suggestion list has four entries |
| BiasDetection.SuggestionFallback | backend/services/biasDetectionService.js:258-259 | a type without an entry gets the gender list of the same language |
| BiasDetection.SuggestionFallbackCases | backend/services/biasDetectionService.js:204-257 | the Hindi table lacks economic and regional; capitalised labels have no entry |
| LegalKnowledge.Lookup | backend/services/legalKnowledgeService.js:220-222 | a category's statutes are found iff the table has that category, and they are its list |
| LegalKnowledge.AbsentCategories | backend/services/legalKnowledgeService.js:6-161 | 'family_law' and 'other' are not in the table |
| LegalKnowledge.MatchingWords | backend/services/legalKnowledgeService.js:263-268 | the counted words are exactly the issue words longer than the limit that occur in the law text |
| LegalKnowledge.MatchingWordsIsFilter | backend/services/legalKnowledgeService.js:264-269 | each counted word occurs as often as the issue repeats it (zero times when it is too short or absent from the law text), so repeats score once each |
| LegalKnowledge.MatchingWordsKeepOrder | backend/services/legalKnowledgeService.js:264-267 | the counted words keep their order in the issue |
| LegalKnowledge.CalculateRelevance | backend/services/legalKnowledgeService.js:257-278 | relevance lies in [50,95] and is at least 70 when the law text contains the whole issue |
| LegalKnowledge.RelevantScoresAtLeast70 | backend/services/legalKnowledgeService.js:225-243 | a law that qualifies through an issue match scores at least 70 |
| LegalKnowledge.AddLaw | backend/services/legalKnowledgeService.js:229-241 | a matching law is added once, rescored, unless its section is already present; nothing else changes |
| LegalKnowledge.AddLawKeepsUnique | backend/services/legalKnowledgeService.js:236 | adding a law never creates two laws with the same section |
| LegalKnowledge.AddFromLawsFacts | backend/services/legalKnowledgeService.js:225-243 | the scan over one category adds only matching laws and covers every matching one |
| LegalKnowledge.AddFromTableFacts | backend/services/legalKnowledgeService.js:225-243 | the scan over the whole table adds only matching laws and covers every matching one |
| LegalKnowledge.AddIssueMatchesFacts | backend/services/legalKnowledgeService.js:224-244 | the scan over all issues adds only laws matching some issue, each rescored, and covers every match |
| LegalKnowledge.Candidates | backend/services/legalKnowledgeService.js:218-244 | the category's statutes come first, unchanged |
| LegalKnowledge.CandidatesFacts | backend/services/legalKnowledgeService.js:218-244 | candidates are the category's statutes followed by issue matches, each with relevance ≥ 70 |
| LegalKnowledge.FindRelevantLaws | backend/services/legalKnowledgeService.js:215-255 | at most 5 laws, sorted by descending relevance, drawn from the candidates, none outranked by a candidate left out; of equally relevant candidates the earliest are kept, in collection order |
| LegalKnowledge.FindRelevantLawsUnique | backend/services/legalKnowledgeService.js:236 | no two returned laws share a section when the category's own list has none |
| LegalKnowledge.DatabaseCategoriesUnique | backend/services/legalKnowledgeService.js:6-161 | within each category of the table, sections are distinct |
| LegalKnowledge.StandardFindRelevantLawsUnique | backend/services/legalKnowledgeService.js:215-255 | over the built-in table, no two returned laws share a section |
| LegalKnowledge.DatabaseRelevances | backend/services/legalKnowledgeService.js:6-161 | every stored relevance is between 80 and 95 |
| LegalKnowledge.RelevanceRange | backend/services/legalKnowledgeService.js:215-255 | returned relevances lie in [70,95] when stored ones do |
| LegalKnowledge.StandardRelevanceRange | backend/services/legalKnowledgeService.js:215-255 | over the built-in table, returned relevances lie in [70,95] |
| LegalKnowledge.LongWords | backend/services/legalKnowledgeService.js:331 | the query words counted are exactly those longer than two characters |
| LegalKnowledge.LongWordsIsFilter | backend/services/legalKnowledgeService.js:331-333 | each query word longer than two characters is kept as often as the query repeats it and in query order, so the ratio's denominator counts repeats |
| LegalKnowledge.MatchingWithinLong | backend/services/legalKnowledgeService.js:331-332 | matched words never outnumber the counted ones |
| LegalKnowledge.WordTerm | backend/services/legalKnowledgeService.js:331-333 | the word term exists iff the query has a word longer than two characters, and then lies in [0,30] |
| LegalKnowledge.Ratio30 | backend/services/legalKnowledgeService.js:333 | the word share scaled to 30 lies in [0,30] |
| LegalKnowledge.SearchRelevanceAsWritten | backend/services/legalKnowledgeService.js:319-341 | the score is undefined (NaN) exactly when the query has no word longer than two characters, and a defined score lies in [0,95] |
| LegalKnowledge.SearchRelevance | backend/services/legalKnowledgeService.js:319-341 | search relevance always lies in [0,95] |
| LegalKnowledge.SearchRelevanceAgrees | backend/services/legalKnowledgeService.js:319-341 | wherever the source's score is defined, the corrected score equals it |
| LegalKnowledge.SectionMatchScoresAtLeast70 | backend/services/legalKnowledgeService.js:325-340 | with the corrected score, a query contained in the section scores at least 70 |
| LegalKnowledge.SearchRelevanceNaNWitness | backend/services/legalKnowledgeService.js:319-341 | "of" is a hit for a statute of the table, yet its source score is NaN |
| LegalKnowledge.ShortQueryInSection | backend/services/legalKnowledgeService.js:319-341 | any section with "of" at positions 9-10 makes "of" a hit with an undefined source score |
| LegalKnowledge.HitsIn | backend/services/legalKnowledgeService.js:294-306 | a category's hits are exactly its laws containing the query, tagged with the category and scored |
| LegalKnowledge.SearchCandidates | backend/services/legalKnowledgeService.js:293-307 | the hits are exactly the matching laws of the searched categories |
| LegalKnowledge.HitsInAppend | backend/services/legalKnowledgeService.js:296-304 | hits follow the order of the laws: the hits of two runs of laws are the first run's hits then the second's |
| LegalKnowledge.HitsInKeepOrder | backend/services/legalKnowledgeService.js:296-304 | a category's hits are a subsequence of its laws' hits, in the laws' order |
| LegalKnowledge.SearchCandidatesAppend | backend/services/legalKnowledgeService.js:294-306 | the search goes category by category: the hits over two runs of categories are the first run's hits then the second's |
| LegalKnowledge.CategoriesToSearch | backend/services/legalKnowledgeService.js:289-291 | a given category is searched alone; none or an empty one means every category |
| LegalKnowledge.SearchLaws | backend/services/legalKnowledgeService.js:284-317 | the search with the corrected score: at most 10 hits, sorted by descending relevance, none outranked by a hit left out, equal scores keeping the earliest hits in table order |
| LegalKnowledge.SearchLawsHits | backend/services/legalKnowledgeService.js:284-317 | with the corrected score, every returned law is a genuine hit with relevance in [0,95] |
| LegalKnowledge.CandidatesScored | backend/services/legalKnowledgeService.js:293-307 | every candidate hit is a law of a searched category containing the query, scored in [0,95] by the corrected score |
| LegalKnowledge.RawHitsIn | backend/services/legalKnowledgeService.js:295-305 | a hit's score as written is "NaN%" exactly when the query has no word longer than two characters |
| LegalKnowledge.RawCandidates | backend/services/legalKnowledgeService.js:293-307 | the hits of a search are all "NaN%" or all numbers, according to the query alone |
| LegalKnowledge.RawTop | backend/services/legalKnowledgeService.js:309-311 | the top ten of all-"NaN%" hits is the first ten unmoved; of numbered hits, ten numbered hits |
| LegalKnowledge.SearchLawsAsWritten | backend/services/legalKnowledgeService.js:284-317 | the search as written: with no word longer than two characters every hit is "NaN%" and the first ten hits come back in table order; otherwise every hit carries a number |
| LegalKnowledge.RawHitsInCorrected | backend/services/legalKnowledgeService.js:295-305 | for a query with a scored word, the hits as written are the corrected hits of a category |
| LegalKnowledge.RawCandidatesCorrected | backend/services/legalKnowledgeService.js:293-307 | for a query with a scored word, the candidates as written are the corrected candidates |
| LegalKnowledge.SearchLawsAsWrittenAgrees | backend/services/legalKnowledgeService.js:284-317 | whenever the query has a word longer than two characters, the search as written returns exactly the corrected search's hits and scores |
| LegalKnowledge.OfSearchKeepsTableOrder | backend/services/legalKnowledgeService.js:309-311 | the query "of" returns the first ten hits in table order, each "NaN%" |
| LegalKnowledge.GetLegalAidInfo | backend/services/legalKnowledgeService.js:374-403 | the national record is returned exactly for states other than delhi, mumbai and bangalore, in any case |
| LegalKnowledge.LegalAidIgnoresCase | backend/services/legalKnowledgeService.js:374-403 | the lookup ignores letter case |
| Sorting.SortDesc | backend/services/legalKnowledgeService.js:246 | the sort is a permutation in descending key order and stable: the elements of each key keep their original order |
| Sorting.InsertKeepsTies | backend/services/legalKnowledgeService.js:246 | an inserted element goes in front of the elements sharing its key, behind none of them |
| Sorting.TopByKey | backend/services/legalKnowledgeService.js:246-249 | sort-then-slice keeps min(n, size) elements, descending, from the input, none outranked by one dropped; the kept elements of each key are the earliest of that key in the input |
| Sorting.AllTiedTopIsPrefix | backend/services/legalKnowledgeService.js:309-311 | when every key ties, sort-then-slice returns the first n elements unmoved |
| Sorting.TopByKeyMap | backend/services/legalKnowledgeService.js:309-311 | sort-then-slice commutes with a map that carries the key over |
| Sorting.TopByKeyDistinct | backend/services/legalKnowledgeService.js:246-249 | sorting and cutting keep distinctness |
| AIService.DefaultAnalysisFields | backend/services/aiService.js:68-79 | the fallback classification is "General Legal Issue", category 'other', title 'Legal Query' |
| AIService.CleanQuery | backend/services/aiService.js:11-35 | a failed call gives back the original query; otherwise the result is exactly the reply with JavaScript `trim` applied |
| AIService.CleanQueryKeepsTrimmedReply | backend/services/aiService.js:29 | an already trimmed reply is used verbatim, and cleaning a cleaned reply changes nothing |
| AIService.AnalyzeLegalIssues | backend/services/aiService.js:37-80 | a failed call gives the fixed default classification; a reply is used as is |
| AIService.GenerateRecommendations | backend/services/aiService.js:82-115 | a failed call gives the four fixed recommendations in order |
| AIService.BiasBonus | backend/services/aiService.js:336-339 | the bias bonus is 0 without detected bias, else the bias confidence capped at 5.0 points |
| AIService.CalculateConfidence | backend/services/aiService.js:317-342 | the aggregated confidence lies in [50,95] |
| AIService.ConfidenceMonotone | backend/services/aiService.js:317-342 | more issues, laws, a specific category or a stronger detected bias never lower the confidence |
| AIService.ConfidenceExtremes | backend/services/aiService.js:317-342 | nothing found gives exactly 50; everything found with a strong bias gives 95 |
| AIService.DetectedBiasBonus | backend/services/aiService.js:336-339 | a detected bias always adds between 4.5 and 5.0 points |
| AIService.ParseDocType | backend/services/aiService.js:119-129 | a parsed document type names the string it came from |
| AIService.DocTypeRoundTrip | backend/services/aiService.js:119-129 | the four types round-trip through their names, and nothing else parses |
| AIService.GenerateDocument | backend/services/aiService.js:117-136 | generation succeeds iff the type is one of the four, rendering that type's template, else fails with the type named |
| AIService.TranslateText | backend/services/aiService.js:292-315 | a translation exists iff the call succeeds, and it is exactly the reply with JavaScript `trim` applied |
| AiRoute.AnalyzeErrors | backend/routes/ai.js:15-33 | no error iff the query is non-empty and at most 5000 characters and the language is hindi, english or hinglish |
| AiRoute.RunStages | backend/routes/ai.js:40-81 | the stages run clean, classify the cleaned query, bias on the cleaned query, laws, recommend, confidence; the result carries each output |
| AiRoute.CaseTitle | backend/routes/ai.js:86 | an empty or missing suggested title becomes 'Legal Query' |
| AiRoute.StoreAnalysis | backend/routes/ai.js:84-105 | with the analysis accepted by its schema path (the corrected schema), the request succeeds iff the case validates and inserts; the saved case is a draft with the cleaned query as description and the classification's fields |
| AiRoute.Analyze | backend/routes/ai.js:15-113 | with the corrected schema: rejected iff validation fails; when it succeeds, the analysis is the staged result and the stored draft case carries its fields |
| AiRoute.BiasOfOriginalWhenCleaningFails | backend/services/aiService.js:31-34 | when cleaning fails, bias is scored on the original query |
| AiRoute.UnknownCategoryFails | backend/routes/ai.js:96 | a classification category outside the case enum fails the request |
| AiRoute.DefaultTitleTrimmed | backend/routes/ai.js:86 | the default title is stored unchanged |
| AiRoute.AllModelCallsFail | backend/routes/ai.js:40-105 | with the corrected schema and every model call failing, the request still stores a draft case titled 'Legal Query' in category 'other' |
| AiRoute.StoreFallback | backend/routes/ai.js:84-105 | with the corrected schema, the fallback classification stores a valid 'Legal Query' case |
| AiRoute.FallbackCaseValid | backend/models/Case.js:9-55 | the fallback case passes the Case schema's field checks, which leave out the stored analysis |
| AiRoute.DocumentErrors | backend/routes/ai.js:120-136 | no error iff the type is fir, rti, notice or complaint and the data is an object |
| AiRoute.GenerateDocumentRoute | backend/routes/ai.js:120-178 | with the corrected schema: rejected iff validation fails; cases change only on success with a known case id, where one document is appended carrying the drafted type's upper-cased name with the time, type 'generated' and the time; the drafted text is returned but not stored |
| AiRoute.ValidDocumentRequestSucceeds | backend/routes/ai.js:137-170 | with the corrected schema, a valid request always produces a document |
| AiRoute.OneDocumentPerDraft | backend/routes/ai.js:146-158 | with the corrected schema, the targeted case gains exactly one document, and its timeline is unchanged |
| AiRoute.AnalyzeUnder | backend/routes/ai.js:69-114 | for a declared `aiAnalysis` path: a valid request whose analysis object the path rejects fails; a success means the path accepted it, and the outcome is then the corrected route's |
| AiRoute.AnalyzeAsWrittenFails | backend/routes/ai.js:69-114 | with the schema as written, every request that passes validation fails, so no analysis is ever stored |
| AiRoute.AnalysisRejectedAsWritten | backend/models/Case.js:63-68 | the object the bias scorer returns is rejected by `biasDetection` as written, so the whole analysis is |
| AiRoute.AnalyzeIntendedAgrees | backend/routes/ai.js:69-105 | with `biasDetection.type` declared as a field, the route with the cast is exactly the corrected route |
| AiRoute.AnalysisCasts | backend/models/Case.js:56-72 | with that declaration, every analysis the handler can build casts |
| AiRoute.GenerateDocumentUnder | backend/routes/ai.js:137-178 | for a declared `documents` path: rejected iff validation fails; failures change nothing; a success is the corrected route's, and its pushed document casts |
| AiRoute.GenerateDocumentAsWrittenFails | backend/routes/ai.js:146-178 | with the schema as written, a valid request with a case id fails and no case changes, whether or not a case has that id |
| AiRoute.GenerateDocumentAsWrittenWithoutCase | backend/routes/ai.js:144-168 | with the schema as written, a request without a case id still produces its document |
| AiRoute.GenerateDocumentIntendedAgrees | backend/routes/ai.js:146-168 | with a document's `type` declared as a field, the route with the cast is exactly the corrected route |
| AiRoute.TranslateErrors | backend/routes/ai.js:183-193 | no error iff the text is non-empty, from is hindi/english/auto and to is hindi/english |
| AiRoute.Translate | backend/routes/ai.js:183-226 | rejected iff validation fails; a translation is the oracle's trimmed reply; failure iff the oracle fails |
| CaseModel.ParseStatus | backend/models/Case.js:51-55 | a parsed status names its string; an unparsed string names no status |
| CaseModel.ParseCategory | backend/models/Case.js:29-44 | a parsed category names its string; an unparsed string names no category |
| CaseModel.ParseLanguage | backend/models/Case.js:24-28 | a parsed language names its string; an unparsed string names no language |
| CaseModel.ParsePriority | backend/models/Case.js:46-50 | a parsed priority names its string; an unparsed string names no priority |
| CaseModel.EnumRoundTrips | backend/models/Case.js:24-55 | every enum value round-trips through its name |
| CaseModel.NoErrorsIffValid | backend/models/Case.js:9-131 | the schema reports nothing iff every bound holds |
| CaseModel.Create | backend/models/Case.js:3-131 | creation succeeds iff valid, with the trimmed title ≤ 200, the defaults medium/active/urgency 5 and an empty timeline; otherwise the errors |
| CaseModel.AsWrittenPaths | backend/models/Case.js:56-87 | as written, `aiAnalysis` is nested but its `biasDetection` is one String path, and `documents` is an array of String |
| CaseModel.IntendedPaths | backend/models/Case.js:56-87 | with `type` declared as a field, `biasDetection` and each document are nested paths that keep every declared field |
| CaseModel.StrictDropsContent | backend/models/Case.js:81-87 | the document path declares no `content`: of a pushed document carrying text, strict mode keeps exactly the name, type and upload time |
| AiRoute.GeneratedTextNotStored | backend/routes/ai.js:147-168 | the document a draft leaves on its case is what strict mode keeps of the pushed object, which carries the text under `content` while the stored document does not |
| CaseModel.PushedDocumentCasts | backend/models/Case.js:81-87 | the pushed document is rejected as one element of `documents` as written and accepted with `type` declared as a field |
| SchemaPaths.TypeKeyIgnoresOptions | backend/models/Case.js:81-87 | an object literal whose `type` entry names a type declares that type, whatever its other entries |
| SchemaPaths.StringRejectsPlainObject | backend/models/Case.js:63-68 | a plain object casts neither to a String path nor, alone or in an array, to an array of String |
| SchemaPaths.NestedRejectsBadField | backend/models/Case.js:56-72 | one declared field whose value its type rejects fails the whole nested object |
| SchemaPaths.NestedCastByField | backend/models/Case.js:56-72 | a key the nested path does not declare never fails the cast |
| CaseModel.Save | backend/models/Case.js:174-183 | saving an existing case whose status changed appends one 'Status Changed' entry naming the new status; otherwise nothing changes |
| CaseModel.SavesLogEveryChange | backend/models/Case.js:174-183 | a run of saves appends one entry per status change, keeping earlier entries |
| CaseModel.AgeInDays | backend/models/Case.js:155-157 | the age is the floor of the elapsed days |
| CaseModel.NextHearing | backend/models/Case.js:160-165 | none iff no hearing is after now; else the earliest such hearing, the first listed among equals |
| DatabaseService.Create | backend/services/databaseService.js:13-75 | succeeds iff no enabled store fails; a primary failure leaves the stores untouched; the primary stores the document its model built, and the replica document holds the input as sent, tagged with the primary id and source 'mongodb' |
| DatabaseService.CreateKeepsInvariants | backend/services/databaseService.js:45-75 | after any create, every replica document naming a primary id names a document the primary holds, and every id keeps its store's shape |
| DatabaseService.CreateLinkedIff | backend/services/databaseService.js:45-75 | after a create through both healthy stores the replica mirrors the primary exactly iff the primary stored the input unchanged |
| DatabaseService.ReplicaDownFailsCreate | backend/services/databaseService.js:70-74 | a replica failure fails the create after the primary was written |
| DatabaseService.GetUserCases | backend/services/databaseService.js:77-109 | a non-empty primary result wins; an empty one falls to the replica; a primary error is answered by the replica or rethrown |
| DatabaseService.ReadComesFromAStore | backend/services/databaseService.js:77-109 | a read result always comes from one of the store reads |
| DatabaseService.EmptyPrimaryRethrowsReplicaError | backend/services/databaseService.js:82-94 | an empty primary with a failing replica throws the replica's error |
| DatabaseService.PrimaryUpdate | backend/services/databaseService.js:115-118 | the primary patches the document if present and returns it, else returns nothing |
| DatabaseService.UpdateCaseAsWritten | backend/services/databaseService.js:111-134 | the source's update: the replica document is addressed by the primary id and must exist |
| DatabaseService.UpdateAfterCreateAsWritten | backend/config/firebase.js:63-109 | with both stores on, updating a freshly created case throws from the replica after patching the primary |
| DatabaseService.PatchCopies | backend/config/firebase.js:97-109 | replica documents copying the case are patched, every other one is kept |
| DatabaseService.UpdateCase | backend/services/databaseService.js:111-134 | the update succeeds iff no enabled store fails, returns the primary result, and patches the replica copies |
| DatabaseService.UpdateKeepsReferenced | backend/services/databaseService.js:111-134 | any corrected update, whichever calls fail, keeps every replica copy naming a document the primary holds |
| DatabaseService.UpdateKeepsLinked | backend/services/databaseService.js:111-134 | a corrected update keeps every replica copy mirroring its primary document |
| DatabaseService.UpdateAfterCreate | backend/services/databaseService.js:45-134 | with the corrected update, create then update succeeds and patches both the stored document and the replica's copy of the input; the stores mirror each other afterwards when those two were equal |
| DatabaseService.CreateKeepsLinkedOnly | backend/services/databaseService.js:45-75 | a create of a record the primary stores unchanged keeps every replica copy mirroring its primary document, whichever calls fail |
| DatabaseService.SyncedDoc | backend/services/databaseService.js:144-149 | a synced document carries the data, the primary id, source 'mongodb' and the sync time |
| DatabaseService.SyncToFirebase | backend/services/databaseService.js:137-158 | sync never fails; it adds one tagged replica document for 'users' or 'cases' and is a no-op otherwise or when the replica is off or fails |
| DatabaseService.SyncKeepsLinked | backend/services/databaseService.js:137-158 | syncing a primary document keeps the replica mirroring the primary |
| DatabaseService.SyncKeepsReferenced | backend/services/databaseService.js:137-158 | syncing a document the primary holds keeps every replica copy naming a document the primary holds |
| DatabaseService.SyncIsNotUpsert | backend/config/firebase.js:63-71 | syncing the same document twice leaves two replica copies |
| DatabaseService.HealthCheck | backend/services/databaseService.js:161-191 | each flag is true iff its store is enabled and its probe succeeds |
| DatabaseService.HealthFlagsIndependent | backend/services/databaseService.js:161-191 | one probe's outcome never affects the other flag |
| DatabaseService.HealthyPrimaryDownReplica | backend/services/databaseService.js:161-191 | a report of a healthy primary and a failing replica means a create fails after writing the primary |
| UserModel.IncLoginAttempts | backend/models/User.js:130-147 | an expired lock restarts the count at 1; otherwise the count rises by one, and the fifth failure while unlocked locks for two hours |
| UserModel.ResetLoginAttempts | backend/models/User.js:150-154 | after a reset the account is unlocked with no attempts |
| UserModel.LockedFailuresKeepLock | backend/models/User.js:142 | failures while locked count but never extend the lock |
| UserModel.FailuresFromClean | backend/models/User.js:130-147 | from a clean account, four failures leave it unlocked and the fifth locks it until two hours after that failure |
| UserModel.FailuresCount | backend/models/User.js:130-147 | each failure below the limit adds one and sets no lock |
| UserModel.LockEndingNow | backend/models/User.js:111-137 | a lock ending exactly now is neither active nor expired, so a failure then still counts up |
| UserModel.ResetRestartsCount | backend/models/User.js:130-154 | the first failure after a reset counts as one |
| UserModel.MatchPhone | backend/models/User.js:37-40 | the matcher accepts exactly an optional '+', a digit 1-9, then at most 15 digits |
| UserModel.PhoneExamples | backend/models/User.js:39 | "+" and "0123" are rejected, 16 digits after '+' accepted, 17 digits rejected |
| UserModel.BoundedRequired | backend/models/User.js:5-25 | a required string passes iff present and within its length bounds, with at most one error |
| UserModel.UserErrorsIffValid | backend/models/User.js:5-40 | the account checks report nothing iff username 3-30, password ≥ 6, names ≤ 50 and phone valid |
| UserModel.FullName | backend/models/User.js:106-108 | the full name is trimmed and no longer than both parts and a space |
| UserModel.FullNameParts | backend/models/User.js:106-108 | the full name is "first last", or the one part present, or empty |
| UserModel.TrimOfPadded | backend/models/User.js:106-108 | trimming strips exactly the surrounding white space |
| LawyerModel.CalculatedSuccessRate | backend/models/Lawyer.js:176-179 | the rate is 0 with no decided case, else 100·won/(won+lost) rounded half up |
| LawyerModel.SuccessRateBounds | backend/models/Lawyer.js:176-179 | the rate lies in [0,100]; 100 when nothing lost, 0 when nothing won |
| LawyerModel.SuccessRateRisesWithWins | backend/models/Lawyer.js:176-179 | one more win never lowers the rate |
| LawyerModel.PreSave | backend/models/Lawyer.js:189-194 | the hook copies the calculated rate into the statistics only when they were modified, changing nothing else |
| LawyerModel.PreSaveIdempotent | backend/models/Lawyer.js:189-194 | a second save changes nothing more, and after a copying save the stored rate agrees |
| LawyerModel.LawyerErrorsIffValid | backend/models/Lawyer.js:9-143 | the profile checks report nothing iff the id is present, experience ≥ 0, rating in [0,5] and reviews in [1,5] |
| NgoModel.ParseRegistrationType | backend/models/NGO.js:15-19 | a parsed registration type names its string |
| NgoModel.SuccessRate | backend/models/NGO.js:171-175 | the rate is 0 with no handled case, else 100·successful/handled rounded half up |
| NgoModel.SuccessRateBounds | backend/models/NGO.js:171-175 | the rate is never negative and at most 100 while successes do not exceed cases handled |
| NgoModel.SuccessRateAbove100 | backend/models/NGO.js:119-124 | three successes over two handled cases give 150 |
| NgoModel.NgoErrorsIffValid | backend/models/NGO.js:4-128 | the profile checks report nothing iff every bound holds; statistics are never checked |
| Schema.RequiredEnumError | backend/models/Case.js:24-44 | an unset or empty enum field reports `required` alone; a present value outside the enum reports only that; nothing iff present and in the enum |
| Schema.RangeError | backend/models/Case.js:112-117 | a number passes iff unset or within its bounds, with at most one error |
| Schema.ReviewErrorsIffValid | backend/models/Lawyer.js:124-135 | review checks report nothing iff every rated review lies in [1,5] |
| Numeric.RoundedPercentBounds | backend/models/Lawyer.js:176-179 | a rounded share lies in [0,100], 0 for none and 100 for all |
| Text.Trim | backend/models/User.js:107 | the result is trimmed and is what remains after removing the leading and trailing white space |
| Text.PercentRoundTrip | backend/services/aiService.js:337 | a percent string parses back to its number |

## Left out

- The language-model calls are oracles returning `Option`, so their prompts and request bodies are not modelled. This covers cleaning, classification, recommendations and translation.
- Document template bodies (`backend/services/aiService.js:138-290`) are left out. They are bulk text and depend on locale date formatting; the renderer is a parameter.
- The MongoDB and Firestore drivers are abstract maps. `populate`, sorting, and the `createdAt`/`updatedAt` stamps are left out. The `Case.find` query and its user filter are left out too; `getUserCases` takes their outcomes as parameters.
- A replica write with an undefined `mongoId` may be rejected by Firestore. That rejection is covered only by the replica fault parameter.
- The other route files, the authentication and database middleware, JWT and bcrypt, the seed script, the server and the whole UI are left out. They are I/O, cryptography or presentation.
- `findByIdAndUpdate` bypasses the Case save hook. The timeline model applies to `save` only.
- The source computes in floating point; the model uses exact rationals or scaled integers.
  - `Math.round` can differ from exact round-half-up on ratios just below .5.
  - Confidence strings are rendered from tenths.
- `toLowerCase` is ASCII-only and lengths count characters, not UTF-16 code units. Devanagari text has no case, so matching is unaffected, but surrogate pairs would count differently.
- JavaScript's prototype keys (`"constructor"` and the like) are treated as absent. In the source they would look up a non-array in `legalDatabase` and the template and suggestion tables, and `getLegalAidInfo("constructor")` would return a function from `legalAidContacts` instead of the national record.
- Mongoose casting is modelled only for the stored analysis and the pushed document of a case (`schema_paths.dfy`). Strict mode's dropping of undeclared keys is modelled (`SchemaPaths.Strict`) only at the top level of a value, and is applied only to the pushed document, whose `content` the document path does not declare. Elsewhere, a string for a number, an ObjectId cast error or a non-string body field is not modelled. express-validator is modelled only through its accept/reject outcome.
- SchemaPaths.Castable: a string is accepted by a Number or Date path only when it is empty (Number) or all digits. Mongoose also accepts signs, decimals, exponents and date strings. Neither handler sends a string to such a path.
- AIService.AnalyzeLegalIssues: assumes that a reply which parses is a classification with the declared fields of the declared types. The source returns whatever `JSON.parse` yields. A reply without `detectedIssues`, such as `{"category":"labor_rights"}`, bypasses the fallback, and `calculateConfidence` then throws at `backend/services/aiService.js:321`. `/analyze` answers 500 for such a reply, which the model does not represent.
- AiRoute.StoreAnalysis: states the outcome with the corrected `biasDetection` declaration. As written, the create always fails (AiRoute.AnalyzeAsWrittenFails).
- AiRoute.Analyze: states the corrected route. As written, every valid request answers 500 (AiRoute.AnalyzeAsWrittenFails).
- AiRoute.AllModelCallsFail: holds for the corrected route only. As written, the fallback analysis is not stored either.
- AiRoute.StoreFallback: holds for the corrected route only, for the same reason.
- AiRoute.FallbackCaseValid: covers the field checks only. The stored analysis object that makes the source's create fail is handled by AiRoute.AnalyzeUnder.
- AiRoute.GenerateDocumentRoute: states the corrected route. As written, a request with a case id answers 500 (AiRoute.GenerateDocumentAsWrittenFails). In addition, a case id that is not a well-formed ObjectId makes the update throw a cast error (500), while the model's store is keyed by any string and treats such an id as absent.
- AiRoute.ValidDocumentRequestSucceeds: holds for the corrected route. As written, it holds only without a case id (AiRoute.GenerateDocumentAsWrittenWithoutCase).
- AiRoute.OneDocumentPerDraft: holds for the corrected route. As written, no case ever gains a generated document.
- `getLegalCategories` and `getEmergencyContacts` return static data and carry no rules.
- The `try`/`catch` in `detectBias` is left out. The modelled computation cannot throw.
- The email regex, the role and preferred-language enums, and the other profile fields of User, Lawyer and NGO are not modelled beyond the bounds listed in the table.
- BiasDetection.PreventionSuggestions: the `/analyze` handler never calls it with the capitalised labels that `formatBiasType` produces. The model only shows that such labels fall back to the gender list.
- LawyerModel.SuccessRateBounds: states the bounds for non-negative counts only. The schema allows negative counts, and then the rate can leave [0,100].
- LegalKnowledge.SearchLaws: uses the corrected score. The search as the source computes it is LegalKnowledge.SearchLawsAsWritten (see Findings); the two agree whenever the query has a word longer than two characters.
- LegalKnowledge.SearchLawsHits: the [0,95] bound is for the corrected score. As written, a query with no word longer than two characters gives every hit the relevance "NaN%".
- DatabaseService.Create: the document the primary stores is a parameter. The model hooks that build it (trimming, defaults, the bcrypt password hash) are not composed with the coordinator; bcrypt is not modelled at all.
- DatabaseService.GetUserCases: the two replica reads, fallback and rescue, are independent parameters. The model does not require them to return the same data.

## Findings

| source | as written | input that shows it | evidently intended | confidence | as-written member | corrected member |
|---|---|---|---|---|---|---|
| backend/services/legalKnowledgeService.js:331-333 | the word term divides matched words by query words longer than two characters, with no guard for zero | query "of" against the statute "Transfer of Property Act, 1882", whose section contains it; no word is longer than two characters, so 0/0 gives NaN and the score is NaN; every hit of that search is then "NaN%", the sort sees only ties, and the first ten hits come back in table order | an empty word list contributes 0 to the score | not executed; high (0/0 is NaN in JavaScript, and `Math.min(95, NaN)` is NaN) | LegalKnowledge.SearchRelevanceAsWritten, LegalKnowledge.SearchRelevanceNaNWitness, LegalKnowledge.SearchLawsAsWritten, LegalKnowledge.OfSearchKeepsTableOrder | LegalKnowledge.SearchRelevance, LegalKnowledge.SearchRelevanceAgrees, LegalKnowledge.SearchLaws, LegalKnowledge.SearchLawsAsWrittenAgrees, LegalKnowledge.SectionMatchScoresAtLeast70, LegalKnowledge.CandidatesScored |
| backend/services/databaseService.js:111-134, backend/config/firebase.js:63-109 | `updateCase` addresses the Firestore document by the MongoDB id, but `createCase` stored that document under a Firestore auto-id with the MongoDB id only in `mongoId` | with both stores enabled and no faults, create a case, then update it by its MongoDB id | update the replica documents whose `mongoId` is the case id | not executed; high (Firestore `updateDoc` rejects a missing document) | DatabaseService.UpdateCaseAsWritten, DatabaseService.UpdateAfterCreateAsWritten | DatabaseService.UpdateCase, DatabaseService.UpdateAfterCreate |
| backend/models/Case.js:63-68 | `biasDetection` and each element of `documents` (lines 81-87) are object literals with a `type` entry. Mongoose reads such a literal as the declaration of a single path of that type, here String, with the other entries as options | any `/analyze` request that passes validation: the bias result is an object, the String cast rejects it, `Case.create` fails (routes/ai.js:96) and the handler answers 500. Any `/generate-document` request with a non-empty `caseId`: the pushed document is an object, the update's cast rejects it, and the handler answers 500 (routes/ai.js:147-178) | `type` is a field of the sub-document, declared `type: { type: String }` | not executed; high (Mongoose's documented type-key rule; backend/package.json, which pins the Mongoose version, is not part of this model) | CaseModel.AsWrittenPaths, AiRoute.AnalysisRejectedAsWritten, AiRoute.AnalyzeAsWrittenFails, CaseModel.PushedDocumentCasts, AiRoute.GenerateDocumentAsWrittenFails | CaseModel.IntendedPaths, AiRoute.AnalysisCasts, AiRoute.AnalyzeIntendedAgrees, AiRoute.Analyze, AiRoute.StoreAnalysis, AiRoute.AllModelCallsFail, AiRoute.StoreFallback, AiRoute.GenerateDocumentIntendedAgrees, AiRoute.GenerateDocumentRoute, AiRoute.ValidDocumentRequestSucceeds, AiRoute.OneDocumentPerDraft |
