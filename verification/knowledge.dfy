/** The static statute table of the legal knowledge service and the two
    queries over it: `findRelevantLaws` (the laws of a category plus laws
    matching the detected issues, scored and cut to five) and `searchLaws`
    (a filtered free-text search cut to ten), together with the state legal
    aid lookup. Relevance strings such as "95%" are kept as the number of
    percent; the search score, which can be fractional, is an exact `real`. */
module LegalKnowledge {
  import opened Wrappers
  import opened Text
  import opened Numeric
  import opened Sorting

  /** A statute record; `relevance` is the percentage its "NN%" string names. */
  datatype Law = Law(section: string, description: string, relevance: nat, details: string)

  /** One entry of the table: a category id and its statutes, in source order. */
  datatype CategoryLaws = CategoryLaws(id: string, laws: seq<Law>)

  /** The table, with its categories in insertion (and so iteration) order. */
  const Database: seq<CategoryLaws> := [
      CategoryLaws("domestic_violence", [
        Law("IPC Section 498A",
            "Husband or relative of husband of a woman subjecting her to cruelty",
            95,
            "Punishment for subjecting a married woman to cruelty"),
        Law("Protection of Women from Domestic Violence Act, 2005",
            "Comprehensive law to protect women from domestic violence",
            92,
            "Provides for more effective protection of the rights of women"),
        Law("IPC Section 354",
            "Assault or criminal force to woman with intent to outrage her modesty",
            85,
            "Covers physical assault and molestation")
      ]),
      CategoryLaws("women_rights", [
        Law("IPC Section 354A",
            "Sexual harassment and punishment for sexual harassment",
            90,
            "Covers workplace and other forms of sexual harassment"),
        Law("Sexual Harassment of Women at Workplace Act, 2013",
            "Prevention, prohibition and redressal of sexual harassment of women at workplace",
            95,
            "Mandatory for all workplaces with 10 or more employees"),
        Law("Dowry Prohibition Act, 1961",
            "Prohibition of dowry",
            88,
            "Makes giving and taking of dowry a criminal offense")
      ]),
      CategoryLaws("labor_rights", [
        Law("Minimum Wages Act, 1948",
            "Provides for fixing minimum rates of wages",
            95,
            "Ensures minimum wage payment to workers"),
        Law("Payment of Wages Act, 1936",
            "Regulates payment of wages to certain classes of persons",
            90,
            "Prevents unauthorized deductions from wages"),
        Law("Industrial Disputes Act, 1947",
            "Investigation and settlement of industrial disputes",
            85,
            "Covers wrongful termination and labor disputes")
      ]),
      CategoryLaws("property_dispute", [
        Law("Transfer of Property Act, 1882",
            "Transfer of property by act of parties",
            90,
            "Governs transfer of immovable property"),
        Law("Registration Act, 1908",
            "Registration of documents",
            85,
            "Mandatory registration of property documents"),
        Law("Indian Succession Act, 1925",
            "Succession and inheritance laws",
            80,
            "Covers inheritance and succession rights")
      ]),
      CategoryLaws("consumer_protection", [
        Law("Consumer Protection Act, 2019",
            "Protection of interests of consumers",
            95,
            "Comprehensive consumer protection law"),
        Law("Sale of Goods Act, 1930",
            "Sale of goods and related matters",
            85,
            "Covers defective goods and warranty issues")
      ]),
      CategoryLaws("criminal_law", [
        Law("IPC Section 420",
            "Cheating and dishonestly inducing delivery of property",
            90,
            "Covers fraud and cheating cases"),
        Law("IPC Section 379",
            "Punishment for theft",
            85,
            "Basic theft provisions"),
        Law("IPC Section 506",
            "Punishment for criminal intimidation",
            80,
            "Covers threats and intimidation")
      ]),
      CategoryLaws("caste_discrimination", [
        Law("Scheduled Castes and Scheduled Tribes (Prevention of Atrocities) Act, 1989",
            "Prevention of atrocities against SCs and STs",
            95,
            "Comprehensive law against caste-based discrimination"),
        Law("Article 15 of Constitution",
            "Prohibition of discrimination on grounds of religion, race, caste, sex or place of birth",
            90,
            "Constitutional protection against discrimination"),
        Law("Article 17 of Constitution",
            "Abolition of untouchability",
            88,
            "Constitutional abolition of untouchability")
      ]),
      CategoryLaws("constitutional_rights", [
        Law("Article 21 of Constitution",
            "Protection of life and personal liberty",
            95,
            "Fundamental right to life and liberty"),
        Law("Article 14 of Constitution",
            "Equality before law",
            90,
            "Right to equality and equal protection of laws"),
        Law("Article 19 of Constitution",
            "Protection of certain rights regarding freedom of speech etc.",
            85,
            "Fundamental freedoms including speech and expression")
      ])
    ]

  /** The laws stored under a category id, if the table has that key. */
  function Lookup(db: seq<CategoryLaws>, category: string): (r: Option<seq<Law>>)
    ensures r.Some? <==> exists k :: 0 <= k < |db| && db[k].id == category
    ensures r.Some? ==> exists k :: 0 <= k < |db| && db[k].id == category && db[k].laws == r.value
  {
    if |db| == 0 then None
    else if db[0].id == category then Some(db[0].laws)
    else
      var r := Lookup(db[1..], category);
      assert forall k :: 0 <= k < |db| - 1 ==> db[1..][k] == db[k + 1];
      r
  }

  /** The category ids of the table, in order. */
  function Ids(db: seq<CategoryLaws>): (r: seq<string>)
    ensures |r| == |db|
    ensures forall k :: 0 <= k < |db| ==> r[k] == db[k].id
  {
    if |db| == 0 then [] else [db[0].id] + Ids(db[1..])
  }

  /** Every statute of the table, category after category. */
  function AllLaws(db: seq<CategoryLaws>): seq<Law> {
    if |db| == 0 then [] else db[0].laws + AllLaws(db[1..])
  }

  /** The lower-cased text a law is searched in: section, description and details. */
  function LawText(law: Law): string {
    ToLower(law.section + " " + law.description + " " + law.details)
  }

  function Sections(laws: seq<Law>): seq<string> {
    seq(|laws|, k requires 0 <= k < |laws| => laws[k].section)
  }

  predicate HasSection(laws: seq<Law>, section: string) {
    exists k :: 0 <= k < |laws| && laws[k].section == section
  }

  // ---------------------------------------------------------------------------
  // calculateRelevance
  // ---------------------------------------------------------------------------

  /** The words longer than `minLen` characters that occur in `text`, with repeats. */
  function MatchingWords(words: seq<string>, text: string, minLen: nat): (r: seq<string>)
    ensures |r| <= |words|
    ensures forall w :: w in r <==> w in words && |w| > minLen && Contains(text, w)
  {
    if |words| == 0 then []
    else
      var rest := MatchingWords(words[1..], text, minLen);
      assert forall w :: w in words <==> w == words[0] || w in words[1..];
      if |words[0]| > minLen && Contains(text, words[0]) then [words[0]] + rest else rest
  }

  /** Word scoring counts repeats: each qualifying word occurs in the result
      as often as the issue repeats it, so it scores once per occurrence. */
  lemma {:induction false} MatchingWordsIsFilter(words: seq<string>, text: string, minLen: nat)
    ensures forall w :: multiset(MatchingWords(words, text, minLen))[w]
                          == if |w| > minLen && Contains(text, w) then multiset(words)[w] else 0
  {
    if |words| > 0 {
      MatchingWordsIsFilter(words[1..], text, minLen);
      assert words == [words[0]] + words[1..];
      assert multiset(words) == multiset([words[0]]) + multiset(words[1..]);
      var rest := MatchingWords(words[1..], text, minLen);
      if |words[0]| > minLen && Contains(text, words[0]) {
        assert MatchingWords(words, text, minLen) == [words[0]] + rest;
        assert multiset(MatchingWords(words, text, minLen)) == multiset([words[0]]) + multiset(rest);
      } else {
        assert MatchingWords(words, text, minLen) == rest;
      }
    }
  }

  /** The qualifying words keep their order in the issue. */
  lemma {:induction false} MatchingWordsKeepOrder(words: seq<string>, text: string, minLen: nat)
    ensures IsSubsequence(MatchingWords(words, text, minLen), words)
  {
    if |words| > 0 {
      MatchingWordsKeepOrder(words[1..], text, minLen);
      var rest := MatchingWords(words[1..], text, minLen);
      if |words[0]| > minLen && Contains(text, words[0]) {
        assert MatchingWords(words, text, minLen) == [words[0]] + rest;
        assert ([words[0]] + rest)[1..] == rest;
      } else {
        assert MatchingWords(words, text, minLen) == rest;
      }
    }
  }

  /** `calculateRelevance(issue, law)`: 50, plus 10 per issue word longer than
      three characters found in the law text, plus 20 when the whole issue is
      found, capped at 95. */
  function CalculateRelevance(issue: string, law: Law): (r: nat)
    ensures 50 <= r <= 95
    ensures Contains(LawText(law), ToLower(issue)) ==> r >= 70
  {
    var issueLower := ToLower(issue);
    var text := LawText(law);
    var matched := |MatchingWords(Split(issueLower), text, 3)|;
    var phrase := if Contains(text, issueLower) then 20 else 0;
    Min(50 + 10 * matched + phrase, 95)
  }

  // ---------------------------------------------------------------------------
  // findRelevantLaws
  // ---------------------------------------------------------------------------

  /** The cross-category test: the lower-cased issue occurs in the lower-cased
      section, description or details. */
  predicate IsRelevant(issueLower: string, law: Law) {
    Contains(ToLower(law.section), issueLower)
    || Contains(ToLower(law.description), issueLower)
    || Contains(ToLower(law.details), issueLower)
  }

  /** The copy of a law that the issue search adds, re-scored for the issue. */
  function Rescored(law: Law, issue: string): Law {
    law.(relevance := CalculateRelevance(issue, law))
  }

  /** `x` is what the issue search adds for `law` under `issue`. */
  predicate AddedFor(x: Law, issue: string, law: Law) {
    IsRelevant(ToLower(issue), law) && x == Rescored(law, issue)
  }

  lemma RelevantScoresAtLeast70(issue: string, law: Law)
    requires IsRelevant(ToLower(issue), law)
    ensures CalculateRelevance(issue, law) >= 70
  {
    ContainsInJoinedFields(law.section, law.description, law.details, ToLower(issue));
  }

  /** One step of the inner loop: push the re-scored law when it is relevant
      and no law with its section has been collected yet. */
  function AddLaw(acc: seq<Law>, issue: string, law: Law): (r: seq<Law>)
    ensures acc <= r && |r| <= |acc| + 1
    ensures IsRelevant(ToLower(issue), law) ==> HasSection(r, law.section)
    ensures |r| == |acc| + 1 ==> AddedFor(r[|acc|], issue, law) && !HasSection(acc, law.section)
  {
    if IsRelevant(ToLower(issue), law) && !HasSection(acc, law.section) then
      var r := acc + [Rescored(law, issue)];
      assert r[|acc|].section == law.section;
      r
    else acc
  }

  /** The collected list has unique sections. */
  ghost predicate UniqueSections(laws: seq<Law>) {
    DistinctBy(laws, (l: Law) => l.section)
  }

  lemma AddLawKeepsUnique(acc: seq<Law>, issue: string, law: Law)
    ensures UniqueSections(acc) ==> UniqueSections(AddLaw(acc, issue, law))
  {
    var r := AddLaw(acc, issue, law);
    if !UniqueSections(acc) {
    } else if |r| == |acc| + 1 {
      forall i, j | 0 <= i < j < |r|
        ensures r[i].section != r[j].section
      {
        if j == |acc| {
          assert r[i] == acc[i];
        } else {
          assert r[i] == acc[i] && r[j] == acc[j];
        }
      }
    } else {
      assert r == acc;
    }
  }

  lemma HasSectionGrows(a: seq<Law>, b: seq<Law>, section: string)
    requires a <= b
    ensures HasSection(a, section) ==> HasSection(b, section)
  {
    if HasSection(a, section) {
      var k :| 0 <= k < |a| && a[k].section == section;
      assert b[k] == a[k];
    }
  }

  /** The loop over the laws of one category. */
  function AddFromLaws(acc: seq<Law>, issue: string, laws: seq<Law>): (r: seq<Law>)
    ensures acc <= r
    decreases |laws|
  {
    if |laws| == 0 then acc
    else AddFromLaws(AddLaw(acc, issue, laws[0]), issue, laws[1..])
  }

  /** The loop over the categories of the table, for one issue. */
  function AddFromTable(acc: seq<Law>, issue: string, db: seq<CategoryLaws>): (r: seq<Law>)
    ensures acc <= r
    decreases |db|
  {
    if |db| == 0 then acc
    else AddFromTable(AddFromLaws(acc, issue, db[0].laws), issue, db[1..])
  }

  /** The loop over the detected issues. */
  function AddIssueMatches(acc: seq<Law>, issues: seq<string>, db: seq<CategoryLaws>): (r: seq<Law>)
    ensures acc <= r
    decreases |issues|
  {
    if |issues| == 0 then acc
    else AddIssueMatches(AddFromTable(acc, issues[0], db), issues[1..], db)
  }

  /** What the issue search appends is made of re-scored relevant laws of the pool. */
  ghost predicate AddedFrom(added: seq<Law>, issues: seq<string>, pool: seq<Law>) {
    forall x :: x in added ==> exists issue, law :: issue in issues && law in pool && AddedFor(x, issue, law)
  }

  /** Every relevant law's section is present after the search. */
  ghost predicate CoversRelevant(r: seq<Law>, issues: seq<string>, pool: seq<Law>) {
    forall issue, law :: issue in issues && law in pool && IsRelevant(ToLower(issue), law)
      ==> HasSection(r, law.section)
  }

  lemma AddedFromAppend(acc: seq<Law>, mid: seq<Law>, r: seq<Law>, issues: seq<string>, p1: seq<Law>, p2: seq<Law>, pool: seq<Law>)
    requires acc <= mid <= r
    requires AddedFrom(mid[|acc|..], issues, p1) && AddedFrom(r[|mid|..], issues, p2)
    requires forall law :: law in p1 || law in p2 ==> law in pool
    ensures AddedFrom(r[|acc|..], issues, pool)
  {
    forall x | x in r[|acc|..]
      ensures exists issue, law :: issue in issues && law in pool && AddedFor(x, issue, law)
    {
      var k :| |acc| <= k < |r| && r[k] == x;
      if k < |mid| {
        assert mid[|acc|..][k - |acc|] == x;
        assert x in mid[|acc|..];
        var issue, law :| issue in issues && law in p1 && AddedFor(x, issue, law);
        assert law in pool;
      } else {
        assert r[|mid|..][k - |mid|] == x;
        assert x in r[|mid|..];
        var issue, law :| issue in issues && law in p2 && AddedFor(x, issue, law);
        assert law in pool;
      }
    }
  }

  lemma {:induction false} AddFromLawsFacts(acc: seq<Law>, issue: string, laws: seq<Law>)
    ensures var r := AddFromLaws(acc, issue, laws);
      && CoversRelevant(r, [issue], laws)
      && AddedFrom(r[|acc|..], [issue], laws)
      && (UniqueSections(acc) ==> UniqueSections(r))
    decreases |laws|
  {
    var r := AddFromLaws(acc, issue, laws);
    if |laws| == 0 {
      assert r[|acc|..] == [];
    } else {
      var step := AddLaw(acc, issue, laws[0]);
      AddLawKeepsUnique(acc, issue, laws[0]);
      AddFromLawsFacts(step, issue, laws[1..]);
      assert r == AddFromLaws(step, issue, laws[1..]);
      HasSectionGrows(step, r, laws[0].section);
      assert AddedFrom(step[|acc|..], [issue], [laws[0]]) by {
        if |step| == |acc| + 1 {
          assert step[|acc|..] == [step[|acc|]];
        } else {
          assert step[|acc|..] == [];
        }
      }
      AddedFromAppend(acc, step, r, [issue], [laws[0]], laws[1..], laws);
    }
  }

  lemma {:induction false} AddFromTableFacts(acc: seq<Law>, issue: string, db: seq<CategoryLaws>)
    ensures var r := AddFromTable(acc, issue, db);
      && CoversRelevant(r, [issue], AllLaws(db))
      && AddedFrom(r[|acc|..], [issue], AllLaws(db))
      && (UniqueSections(acc) ==> UniqueSections(r))
    decreases |db|
  {
    var r := AddFromTable(acc, issue, db);
    if |db| == 0 {
      assert r[|acc|..] == [];
    } else {
      var step := AddFromLaws(acc, issue, db[0].laws);
      AddFromLawsFacts(acc, issue, db[0].laws);
      AddFromTableFacts(step, issue, db[1..]);
      assert r == AddFromTable(step, issue, db[1..]);
      assert AllLaws(db) == db[0].laws + AllLaws(db[1..]);
      forall law | law in db[0].laws && IsRelevant(ToLower(issue), law)
        ensures HasSection(r, law.section)
      {
        HasSectionGrows(step, r, law.section);
      }
      AddedFromAppend(acc, step, r, [issue], db[0].laws, AllLaws(db[1..]), AllLaws(db));
    }
  }

  lemma AddedFromWiden(added: seq<Law>, issue: string, issues: seq<string>, pool: seq<Law>)
    requires AddedFrom(added, [issue], pool) && issue in issues
    ensures AddedFrom(added, issues, pool)
  {
  }

  lemma {:induction false} AddIssueMatchesFacts(acc: seq<Law>, issues: seq<string>, db: seq<CategoryLaws>)
    ensures var r := AddIssueMatches(acc, issues, db);
      && CoversRelevant(r, issues, AllLaws(db))
      && AddedFrom(r[|acc|..], issues, AllLaws(db))
      && (UniqueSections(acc) ==> UniqueSections(r))
    decreases |issues|
  {
    var r := AddIssueMatches(acc, issues, db);
    if |issues| == 0 {
      assert r[|acc|..] == [];
    } else {
      var step := AddFromTable(acc, issues[0], db);
      AddFromTableFacts(acc, issues[0], db);
      AddIssueMatchesFacts(step, issues[1..], db);
      assert r == AddIssueMatches(step, issues[1..], db);
      forall issue, law | issue in issues && law in AllLaws(db) && IsRelevant(ToLower(issue), law)
        ensures HasSection(r, law.section)
      {
        if issue == issues[0] {
          HasSectionGrows(step, r, law.section);
        } else {
          assert issue in issues[1..];
        }
      }
      AddedFromWiden(step[|acc|..], issues[0], issues, AllLaws(db));
      assert forall i :: i in issues[1..] ==> i in issues;
      AddedFromAppend(acc, step, r, issues, AllLaws(db), AllLaws(db), AllLaws(db));
    }
  }

  /** The list before sorting: the laws of the category with their stored
      relevance, then the issue matches. */
  function Candidates(db: seq<CategoryLaws>, issues: seq<string>, category: string): (r: seq<Law>)
    ensures Lookup(db, category).GetOr([]) <= r
  {
    AddIssueMatches(Lookup(db, category).GetOr([]), issues, db)
  }

  function RelevanceKey(l: Law): real {
    l.relevance as real
  }

  /** `findRelevantLaws(detectedIssues, category)`: the five candidates with the
      highest relevance, highest first; of equally relevant candidates the
      earliest are kept, in collection order. */
  function FindRelevantLaws(db: seq<CategoryLaws>, issues: seq<string>, category: string): (r: seq<Law>)
    ensures |r| == Min(5, |Candidates(db, issues, category)|)
    ensures SortedDesc(r, RelevanceKey)
    ensures multiset(r) <= multiset(Candidates(db, issues, category))
    ensures forall x, y :: x in r && y in multiset(Candidates(db, issues, category)) - multiset(r)
              ==> x.relevance >= y.relevance
    ensures forall v :: WithKey(r, RelevanceKey, v) <= WithKey(Candidates(db, issues, category), RelevanceKey, v)
  {
    TopByKey(Candidates(db, issues, category), RelevanceKey, 5)
  }

  /** The candidates start with every law of the category, unchanged; a category
      the table lacks contributes nothing. What follows are re-scored relevant
      laws of the table, scored at least 70, and every law relevant to an issue
      has its section among the candidates. */
  lemma CandidatesFacts(db: seq<CategoryLaws>, issues: seq<string>, category: string)
    ensures var base := Lookup(db, category).GetOr([]);
      var c := Candidates(db, issues, category);
      && (Lookup(db, category).None? ==> c == AddIssueMatches([], issues, db))
      && c[..|base|] == base
      && (forall x :: x in c[|base|..] ==>
            70 <= x.relevance <= 95
            && exists issue, law :: issue in issues && law in AllLaws(db) && AddedFor(x, issue, law))
      && (forall issue, law :: issue in issues && law in AllLaws(db) && IsRelevant(ToLower(issue), law)
            ==> HasSection(c, law.section))
  {
    var base := Lookup(db, category).GetOr([]);
    var c := Candidates(db, issues, category);
    AddIssueMatchesFacts(base, issues, db);
    forall x | x in c[|base|..]
      ensures 70 <= x.relevance <= 95
    {
      var issue, law :| issue in issues && law in AllLaws(db) && AddedFor(x, issue, law);
      RelevantScoresAtLeast70(issue, law);
    }
  }

  /** No two laws returned share a section, when the category's own list has
      none (as holds for every category of the table). */
  lemma FindRelevantLawsUnique(db: seq<CategoryLaws>, issues: seq<string>, category: string)
    requires UniqueSections(Lookup(db, category).GetOr([]))
    ensures UniqueSections(FindRelevantLaws(db, issues, category))
  {
    AddIssueMatchesFacts(Lookup(db, category).GetOr([]), issues, db);
    TopByKeyDistinct(Candidates(db, issues, category), RelevanceKey, 5, (l: Law) => l.section);
  }

  /** Two section names differ when their lengths or one of a few telling
      positions differ. */
  lemma SectionsDiffer(a: string, b: string)
    requires |a| >= 13 && |b| >= 13
    requires |a| != |b| || a[8] != b[8] || a[9] != b[9] || a[12] != b[12]
    ensures a != b
  {
  }

  lemma DatabaseCategoriesUnique(k: nat)
    requires k < |Database|
    ensures UniqueSections(Database[k].laws)
  {
    var laws := Database[k].laws;
    forall i, j | 0 <= i < j < |laws|
      ensures laws[i].section != laws[j].section
    {
      SectionsDiffer(laws[i].section, laws[j].section);
    }
  }

  /** Every list of the table has unique sections, so the laws found for any
      category of it never repeat a section. */
  lemma StandardFindRelevantLawsUnique(issues: seq<string>, category: string)
    ensures UniqueSections(FindRelevantLaws(Database, issues, category))
  {
    if Lookup(Database, category).Some? {
      var k :| 0 <= k < |Database| && Database[k].id == category && Database[k].laws == Lookup(Database, category).value;
      DatabaseCategoriesUnique(k);
    }
    FindRelevantLawsUnique(Database, issues, category);
  }

  lemma DatabaseRelevances(k: nat)
    requires k < |Database|
    ensures forall i :: 0 <= i < |Database[k].laws| ==> 80 <= Database[k].laws[i].relevance <= 95
  {
  }

  /** When every stored relevance lies in [70, 95], so does every relevance
      returned: issue matches score at least 70. */
  lemma RelevanceRange(db: seq<CategoryLaws>, issues: seq<string>, category: string)
    requires forall k, i :: 0 <= k < |db| && 0 <= i < |db[k].laws| ==> 70 <= db[k].laws[i].relevance <= 95
    ensures forall x :: x in FindRelevantLaws(db, issues, category) ==> 70 <= x.relevance <= 95
  {
    var base := Lookup(db, category).GetOr([]);
    var c := Candidates(db, issues, category);
    var r := FindRelevantLaws(db, issues, category);
    CandidatesFacts(db, issues, category);
    forall x | x in r
      ensures 70 <= x.relevance <= 95
    {
      assert x in multiset(r);
      assert x in c;
      var i :| 0 <= i < |c| && c[i] == x;
      if i < |base| {
        var k :| 0 <= k < |db| && db[k].id == category && db[k].laws == base;
        assert base[i] == x;
      } else {
        assert c[|base|..][i - |base|] == x;
      }
    }
  }

  /** With the table, every law returned scores between 70 and 95. */
  lemma StandardRelevanceRange(issues: seq<string>, category: string)
    ensures forall x :: x in FindRelevantLaws(Database, issues, category) ==> 70 <= x.relevance <= 95
  {
    forall k | 0 <= k < |Database| {
      DatabaseRelevances(k);
    }
    RelevanceRange(Database, issues, category);
  }

  /** Categories the classifier can produce but the table lacks. */
  lemma AbsentCategories()
    ensures Lookup(Database, "family_law").None?
    ensures Lookup(Database, "other").None?
  {
    assert forall k :: 0 <= k < |Database| ==> Database[k].id != "family_law" && Database[k].id != "other" by {
      assert forall k :: 0 <= k < |Database| ==> Database[k].id[0] != 'f' && Database[k].id[0] != 'o';
    }
  }

  // ---------------------------------------------------------------------------
  // searchLaws and calculateSearchRelevance
  // ---------------------------------------------------------------------------

  /** A search result: the law's fields, the category it was found under, and
      its search score in place of the stored relevance. */
  datatype SearchHit = SearchHit(section: string, description: string, details: string,
                                 category: string, relevance: real)

  /** The words longer than `minLen` characters. */
  function LongWords(words: seq<string>, minLen: nat): (r: seq<string>)
    ensures |r| <= |words|
    ensures forall w :: w in r <==> w in words && |w| > minLen
  {
    if |words| == 0 then []
    else
      var rest := LongWords(words[1..], minLen);
      assert forall w :: w in words <==> w == words[0] || w in words[1..];
      if |words[0]| > minLen then [words[0]] + rest else rest
  }

  /** The long words in their order in the query, each as often as the query
      repeats it. */
  lemma {:induction false} LongWordsIsFilter(words: seq<string>, minLen: nat)
    ensures forall w :: multiset(LongWords(words, minLen))[w] == if |w| > minLen then multiset(words)[w] else 0
    ensures IsSubsequence(LongWords(words, minLen), words)
  {
    if |words| > 0 {
      LongWordsIsFilter(words[1..], minLen);
      assert words == [words[0]] + words[1..];
      var rest := LongWords(words[1..], minLen);
      if |words[0]| > minLen {
        assert LongWords(words, minLen) == [words[0]] + rest;
        assert ([words[0]] + rest)[1..] == rest;
      } else {
        assert LongWords(words, minLen) == rest;
      }
    }
  }

  lemma MatchingWithinLong(words: seq<string>, text: string, minLen: nat)
    ensures |MatchingWords(words, text, minLen)| <= |LongWords(words, minLen)|
  {
    if |words| > 0 {
      MatchingWithinLong(words[1..], text, minLen);
    }
  }

  /** 50 when the lower-cased query occurs in the lower-cased section and description. */
  function PhraseBonus(query: string, law: Law): real {
    if Contains(ToLower(law.section + " " + law.description), ToLower(query)) then 50.0 else 0.0
  }

  /** 20 when the lower-cased query occurs in the lower-cased section. */
  function SectionBonus(query: string, law: Law): real {
    if Contains(ToLower(law.section), ToLower(query)) then 20.0 else 0.0
  }

  /** The query has no word longer than two characters, so the word share is
      0 / 0. */
  predicate NoScoredWords(query: string) {
    |LongWords(Split(ToLower(query)), 2)| == 0
  }

  /** 30 times the share of the query words longer than two characters that
      occur in the section and description; `None` when there are no such
      words, where the source computes 0 / 0. */
  function WordTerm(query: string, law: Law): (r: Option<real>)
    ensures r.None? <==> NoScoredWords(query)
    ensures r.Some? ==> 0.0 <= r.value <= 30.0
  {
    var words := Split(ToLower(query));
    var total := |LongWords(words, 2)|;
    if total == 0 then None
    else
      var matched := |MatchingWords(words, ToLower(law.section + " " + law.description), 2)|;
      MatchingWithinLong(words, ToLower(law.section + " " + law.description), 2);
      Some(Ratio30(matched, total))
  }

  function Ratio30(matched: nat, total: nat): (r: real)
    requires 0 <= matched <= total && total > 0
    ensures 0.0 <= r <= 30.0
  {
    30.0 * (matched as real) / (total as real)
  }

  function Cap95(x: real): real {
    if x <= 95.0 then x else 95.0
  }

  /** `calculateSearchRelevance(query, law)` as written: `None` stands for the
      NaN that the division produces when the query has no word longer than
      two characters. */
  function SearchRelevanceAsWritten(query: string, law: Law): (r: Option<real>)
    ensures r.None? <==> NoScoredWords(query)
    ensures r.Some? ==> 0.0 <= r.value <= 95.0
  {
    match WordTerm(query, law)
    case None => None
    case Some(t) => Some(Cap95(PhraseBonus(query, law) + t + SectionBonus(query, law)))
  }

  /** The score with the word term taken as 0 when the query has no word
      longer than two characters; this is the score the search uses. */
  function SearchRelevance(query: string, law: Law): (r: real)
    ensures 0.0 <= r <= 95.0
  {
    Cap95(PhraseBonus(query, law) + WordTerm(query, law).GetOr(0.0) + SectionBonus(query, law))
  }

  /** Wherever the score as written is a number, the corrected score equals it. */
  lemma SearchRelevanceAgrees(query: string, law: Law)
    requires SearchRelevanceAsWritten(query, law).Some?
    ensures SearchRelevance(query, law) == SearchRelevanceAsWritten(query, law).value
  {
  }

  /** A query found in the section scores at least 70: the phrase bonus and the
      section bonus both apply. */
  lemma SectionMatchScoresAtLeast70(query: string, law: Law)
    requires Contains(ToLower(law.section), ToLower(query))
    ensures SearchRelevance(query, law) >= 70.0
  {
    ToLowerConcat(law.section, " " + law.description);
    ContainsLeft(ToLower(law.section), ToLower(" " + law.description), ToLower(query));
    assert law.section + " " + law.description == law.section + (" " + law.description);
  }

  /** The query "of" occurs in the text of the Transfer of Property Act, so the
      search reaches the score computation, and has no word longer than two
      characters, so the score as written is NaN. */
  lemma SearchRelevanceNaNWitness()
    ensures Contains(LawText(Database[3].laws[0]), ToLower("of"))
    ensures SearchRelevanceAsWritten("of", Database[3].laws[0]).None?
    ensures SearchRelevance("of", Database[3].laws[0]) == 70.0
  {
    var law := Database[3].laws[0];
    assert law.section == "Transfer of Property Act, 1882";
    ShortQueryInSection(law);
  }

  /** Any law whose section contains "of" is a hit for the query "of", with an
      undefined score as written and a score of 70 once corrected. */
  lemma ShortQueryInSection(law: Law)
    requires |law.section| > 10 && law.section[9] == 'o' && law.section[10] == 'f'
    ensures Contains(LawText(law), ToLower("of"))
    ensures SearchRelevanceAsWritten("of", law).None?
    ensures SearchRelevance("of", law) == 70.0
  {
    assert ToLower("of") == "of";
    var front := law.section + " " + law.description;
    var whole := front + " " + law.details;
    assert front[9] == law.section[9] && front[10] == law.section[10];
    assert whole[9] == front[9] && whole[10] == front[10];
    OfAtNine(whole);
    OfAtNine(front);
    OfAtNine(law.section);
    SplitSingleWord("of");
    assert LongWords(["of"], 2) == [];
  }

  lemma OfAtNine(s: string)
    requires |s| > 10 && s[9] == 'o' && s[10] == 'f'
    ensures Contains(ToLower(s), "of")
  {
    assert ToLower(s)[9..][..2] == "of";
    assert IsPrefix("of", ToLower(s)[9..]);
  }

  function HitOf(law: Law, category: string, query: string): SearchHit {
    SearchHit(law.section, law.description, law.details, category, SearchRelevance(query, law))
  }

  /** The laws of one category whose text contains the lower-cased query, as hits. */
  function HitsIn(category: string, laws: seq<Law>, query: string): (r: seq<SearchHit>)
    ensures forall h :: h in r <==>
      exists law :: law in laws && Contains(LawText(law), ToLower(query)) && h == HitOf(law, category, query)
  {
    if |laws| == 0 then []
    else
      var rest := HitsIn(category, laws[1..], query);
      assert forall law :: law in laws <==> law == laws[0] || law in laws[1..];
      if Contains(LawText(laws[0]), ToLower(query)) then [HitOf(laws[0], category, query)] + rest else rest
  }

  /** Hits keep the order of the laws: the hits of a concatenation are the
      hits of each part in turn. */
  lemma {:induction false} HitsInAppend(category: string, a: seq<Law>, b: seq<Law>, query: string)
    ensures HitsIn(category, a + b, query) == HitsIn(category, a, query) + HitsIn(category, b, query)
  {
    if |a| > 0 {
      assert (a + b)[1..] == a[1..] + b;
      HitsInAppend(category, a[1..], b, query);
    } else {
      assert a + b == b;
    }
  }

  /** The hits are the matching laws' hits, taken in the laws' order. */
  lemma {:induction false} HitsInKeepOrder(category: string, laws: seq<Law>, query: string)
    ensures IsSubsequence(HitsIn(category, laws, query), MapSeq(laws, (law: Law) => HitOf(law, category, query)))
  {
    var all := MapSeq(laws, (law: Law) => HitOf(law, category, query));
    if |laws| > 0 {
      var r := HitsIn(category, laws, query);
      var rest := HitsIn(category, laws[1..], query);
      HitsInKeepOrder(category, laws[1..], query);
      assert all[1..] == MapSeq(laws[1..], (law: Law) => HitOf(law, category, query));
      if Contains(LawText(laws[0]), ToLower(query)) {
        assert r[0] == all[0] && r[1..] == rest;
      } else {
        assert r == rest;
        if |r| > 0 {
          assert IsSubsequence(r, all[1..]);
        }
      }
    }
  }

  /** `h` is a hit of the search over `cats`. */
  ghost predicate IsHit(db: seq<CategoryLaws>, cats: seq<string>, query: string, h: SearchHit) {
    && h.category in cats
    && Lookup(db, h.category).Some?
    && exists law :: law in Lookup(db, h.category).value
         && Contains(LawText(law), ToLower(query)) && h == HitOf(law, h.category, query)
  }

  /** The hits over the categories to search, category by category; ids the
      table lacks are skipped. */
  function SearchCandidates(db: seq<CategoryLaws>, cats: seq<string>, query: string): (r: seq<SearchHit>)
    ensures forall h :: h in r <==> IsHit(db, cats, query, h)
  {
    if |cats| == 0 then []
    else
      var here := match Lookup(db, cats[0]) case Some(laws) => HitsIn(cats[0], laws, query) case None => [];
      var rest := SearchCandidates(db, cats[1..], query);
      assert forall c :: c in cats <==> c == cats[0] || c in cats[1..];
      here + rest
  }

  /** The search goes category by category: the hits over `a + b` are the
      hits over `a` followed by those over `b`. */
  lemma {:induction false} SearchCandidatesAppend(db: seq<CategoryLaws>, a: seq<string>, b: seq<string>, query: string)
    ensures SearchCandidates(db, a + b, query) == SearchCandidates(db, a, query) + SearchCandidates(db, b, query)
  {
    if |a| > 0 {
      assert (a + b)[0] == a[0];
      assert (a + b)[1..] == a[1..] + b;
      SearchCandidatesAppend(db, a[1..], b, query);
    } else {
      assert a + b == b;
    }
  }

  /** A given (non-empty) category restricts the search to it; otherwise every
      category of the table is searched. */
  function CategoriesToSearch(db: seq<CategoryLaws>, category: Option<string>): (r: seq<string>)
    ensures category.Some? && category.value != "" ==> r == [category.value]
    ensures category.None? || category.value == "" ==> forall c :: c in r <==> exists k :: 0 <= k < |db| && db[k].id == c
  {
    if category.Some? && category.value != "" then [category.value] else Ids(db)
  }

  function HitKey(h: SearchHit): real {
    h.relevance
  }

  /** `searchLaws(query, category)` with the corrected score: the ten
      best-scored hits, best first, the earliest kept among equal scores. */
  function SearchLaws(db: seq<CategoryLaws>, query: string, category: Option<string>): (r: seq<SearchHit>)
    ensures var all := SearchCandidates(db, CategoriesToSearch(db, category), query);
      && |r| == Min(10, |all|)
      && SortedDesc(r, HitKey)
      && multiset(r) <= multiset(all)
      && (forall x, y :: x in r && y in multiset(all) - multiset(r) ==> x.relevance >= y.relevance)
      && forall v :: WithKey(r, HitKey, v) <= WithKey(all, HitKey, v)
  {
    TopByKey(SearchCandidates(db, CategoriesToSearch(db, category), query), HitKey, 10)
  }

  /** Every hit returned is a law of a searched category whose text contains the
      lower-cased query, scored in [0, 95]; with a category given, all hits
      carry it. */
  lemma SearchLawsHits(db: seq<CategoryLaws>, query: string, category: Option<string>)
    ensures var r := SearchLaws(db, query, category);
      && |r| <= 10
      && (forall h :: h in r ==> IsHit(db, CategoriesToSearch(db, category), query, h) && 0.0 <= h.relevance <= 95.0)
      && (category.Some? && category.value != "" ==> forall h :: h in r ==> h.category == category.value)
  {
    var cats := CategoriesToSearch(db, category);
    var all := SearchCandidates(db, cats, query);
    var r := SearchLaws(db, query, category);
    CandidatesScored(db, cats, query);
    forall h | h in r
      ensures h in all
    {
      assert h in multiset(r);
    }
  }

  /** Every candidate hit is scored in [0, 95]. */
  lemma CandidatesScored(db: seq<CategoryLaws>, cats: seq<string>, query: string)
    ensures forall h :: h in SearchCandidates(db, cats, query) ==> IsHit(db, cats, query, h) && 0.0 <= h.relevance <= 95.0
  {
    forall h | h in SearchCandidates(db, cats, query)
      ensures 0.0 <= h.relevance <= 95.0
    {
      var law :| law in Lookup(db, h.category).value
        && Contains(LawText(law), ToLower(query)) && h == HitOf(law, h.category, query);
    }
  }

  // ---------------------------------------------------------------------------
  // searchLaws as written
  // ---------------------------------------------------------------------------

  /** A search result as the source builds it: `None` is the relevance
      "NaN%". */
  datatype RawHit = RawHit(section: string, description: string, details: string,
                           category: string, relevance: Option<real>)

  function RawHitOf(law: Law, category: string, query: string): RawHit {
    RawHit(law.section, law.description, law.details, category, SearchRelevanceAsWritten(query, law))
  }

  /** `HitsIn` with the score as written. */
  function RawHitsIn(category: string, laws: seq<Law>, query: string): (r: seq<RawHit>)
    ensures forall i :: 0 <= i < |r| ==> (r[i].relevance.None? <==> NoScoredWords(query))
  {
    if |laws| == 0 then []
    else
      var rest := RawHitsIn(category, laws[1..], query);
      if Contains(LawText(laws[0]), ToLower(query)) then [RawHitOf(laws[0], category, query)] + rest else rest
  }

  /** `SearchCandidates` with the score as written. */
  function RawCandidates(db: seq<CategoryLaws>, cats: seq<string>, query: string): (r: seq<RawHit>)
    ensures forall i :: 0 <= i < |r| ==> (r[i].relevance.None? <==> NoScoredWords(query))
  {
    if |cats| == 0 then []
    else
      var here := match Lookup(db, cats[0]) case Some(laws) => RawHitsIn(cats[0], laws, query) case None => [];
      here + RawCandidates(db, cats[1..], query)
  }

  /** `parseFloat(relevance)`: the comparator's difference is NaN whenever a
      score is "NaN%", and the sort treats that as a tie. A search's scores
      are either all "NaN%" or all numbers, so mapping "NaN%" to one constant
      yields the same ties. */
  function RawKey(h: RawHit): real {
    h.relevance.GetOr(0.0)
  }

  /** `searchLaws(query, category)` as written. With no word longer than two
      characters every relevance is "NaN%", nothing moves, and the result is
      the first ten hits in table order. */
  function SearchLawsAsWritten(db: seq<CategoryLaws>, query: string, category: Option<string>): (r: seq<RawHit>)
    ensures var all := RawCandidates(db, CategoriesToSearch(db, category), query);
      && |r| == Min(10, |all|)
      && (NoScoredWords(query) ==> r == all[..Min(10, |all|)] && forall i :: 0 <= i < |r| ==> r[i].relevance.None?)
      && (!NoScoredWords(query) ==> forall i :: 0 <= i < |r| ==> r[i].relevance.Some?)
  {
    var all := RawCandidates(db, CategoriesToSearch(db, category), query);
    RawTop(all, NoScoredWords(query));
    TopByKey(all, RawKey, 10)
  }

  /** The top ten of hits whose scores are all "NaN%" or all numbers. */
  lemma RawTop(all: seq<RawHit>, nan: bool)
    requires forall i :: 0 <= i < |all| ==> (all[i].relevance.None? <==> nan)
    ensures var r := TopByKey(all, RawKey, 10);
      && (nan ==> r == all[..Min(10, |all|)] && forall i :: 0 <= i < |r| ==> r[i].relevance.None?)
      && (!nan ==> forall i :: 0 <= i < |r| ==> r[i].relevance.Some?)
  {
    var r := TopByKey(all, RawKey, 10);
    forall i | 0 <= i < |r|
      ensures r[i].relevance.None? <==> nan
    {
      assert r[i] in multiset(all);
      var j :| 0 <= j < |all| && all[j] == r[i];
    }
    if nan {
      forall x | x in all
        ensures RawKey(x) == 0.0
      {
        var j :| 0 <= j < |all| && all[j] == x;
      }
      AllTiedTopIsPrefix(all, RawKey, 10, 0.0);
    }
  }

  /** The hit the corrected search reports for a raw hit whose score is a number. */
  function Corrected(h: RawHit): SearchHit {
    SearchHit(h.section, h.description, h.details, h.category, RawKey(h))
  }

  lemma {:induction false} RawHitsInCorrected(category: string, laws: seq<Law>, query: string)
    requires !NoScoredWords(query)
    ensures MapSeq(RawHitsIn(category, laws, query), Corrected) == HitsIn(category, laws, query)
  {
    if |laws| > 0 {
      RawHitsInCorrected(category, laws[1..], query);
      SearchRelevanceAgrees(query, laws[0]);
      var rest := RawHitsIn(category, laws[1..], query);
      assert MapSeq([RawHitOf(laws[0], category, query)] + rest, Corrected)
        == [Corrected(RawHitOf(laws[0], category, query))] + MapSeq(rest, Corrected);
    }
  }

  lemma {:induction false} RawCandidatesCorrected(db: seq<CategoryLaws>, cats: seq<string>, query: string)
    requires !NoScoredWords(query)
    ensures MapSeq(RawCandidates(db, cats, query), Corrected) == SearchCandidates(db, cats, query)
  {
    if |cats| > 0 {
      RawCandidatesCorrected(db, cats[1..], query);
      var here := match Lookup(db, cats[0]) case Some(laws) => RawHitsIn(cats[0], laws, query) case None => [];
      if Lookup(db, cats[0]).Some? {
        RawHitsInCorrected(cats[0], Lookup(db, cats[0]).value, query);
      }
      MapSeqAppend(here, RawCandidates(db, cats[1..], query), Corrected);
    }
  }

  /** Whenever the query has a word longer than two characters, the search as
      written returns the corrected search's hits, with equal scores. */
  lemma SearchLawsAsWrittenAgrees(db: seq<CategoryLaws>, query: string, category: Option<string>)
    requires !NoScoredWords(query)
    ensures MapSeq(SearchLawsAsWritten(db, query, category), Corrected) == SearchLaws(db, query, category)
  {
    var cats := CategoriesToSearch(db, category);
    RawCandidatesCorrected(db, cats, query);
    TopByKeyMap(RawCandidates(db, cats, query), RawKey, 10, Corrected, HitKey);
  }

  /** The query "of": the first ten hits come back in table order, each with
      "NaN%". */
  lemma OfSearchKeepsTableOrder(db: seq<CategoryLaws>, category: Option<string>)
    ensures var all := RawCandidates(db, CategoriesToSearch(db, category), "of");
      && SearchLawsAsWritten(db, "of", category) == all[..Min(10, |all|)]
      && forall h :: h in SearchLawsAsWritten(db, "of", category) ==> h.relevance.None?
  {
    assert ToLower("of") == "of";
    SplitSingleWord("of");
    assert LongWords(["of"], 2) == [];
  }

  // ---------------------------------------------------------------------------
  // getLegalAidInfo
  // ---------------------------------------------------------------------------

  datatype AidContact = AidContact(authority: string, address: string, phone: string, email: string)

  const NationalAid := AidContact("National Legal Services Authority",
    "Supreme Court of India, New Delhi", "011-23388922", "nalsa@nic.in")

  /** `getLegalAidInfo(state)`: the state authority for Delhi, Mumbai or
      Bangalore in any letter case, the national authority otherwise. */
  function GetLegalAidInfo(state: string): (r: AidContact)
    ensures r == NationalAid <==> ToLower(state) !in ["delhi", "mumbai", "bangalore"]
  {
    var key := ToLower(state);
    if key == "delhi" then
      AidContact("Delhi State Legal Services Authority", "Delhi High Court Complex, New Delhi",
        "011-23385010", "dslsa@delhicourts.nic.in")
    else if key == "mumbai" then
      AidContact("Maharashtra State Legal Services Authority", "Bombay High Court, Mumbai",
        "022-22621681", "mslsa@bombayhighcourt.nic.in")
    else if key == "bangalore" then
      AidContact("Karnataka State Legal Services Authority", "High Court of Karnataka, Bangalore",
        "080-22212926", "kslsa@karnatakajudiciary.kar.nic.in")
    else NationalAid
  }

  /** The lookup ignores letter case. */
  lemma LegalAidIgnoresCase(state: string)
    ensures GetLegalAidInfo(state) == GetLegalAidInfo(ToLower(state))
  {
    ToLowerIdempotent(state);
  }
}
