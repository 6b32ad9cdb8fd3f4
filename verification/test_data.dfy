/** `config/test_data.py`: sorting search terms into valid and invalid ones,
    the per-context and per-browser profiles with their fallbacks, the
    timestamped search term, and the category lookup of the data provider. */
module TestData {
  import opened Base
  import opened Text
  import opened Seqs
  import opened Numerals
  import opened Clock

  /** The test `not term or not term.strip()`. */
  predicate IsInvalidTerm(term: string) {
    term == "" || Strip(term) == ""
  }

  predicate IsValidTerm(term: string) {
    !IsInvalidTerm(term)
  }

  /** A valid term longer than 200 characters draws a warning. */
  predicate IsLongTerm(term: string) {
    IsValidTerm(term) && |term| > 200
  }

  function LongTermWarning(term: string): string {
    "Long term: " + term
  }

  /** A term is invalid exactly when it is empty or all whitespace. */
  lemma InvalidTermIsBlank(term: string)
    ensures IsInvalidTerm(term) <==> IsBlank(term)
  {
  }

  /** The three lists `validate_search_terms` returns. */
  datatype Validation = Validation(valid: seq<string>, invalid: seq<string>, warnings: seq<string>)

  /** One iteration of the loop in `validate_search_terms`: `term` is
      appended to "invalid" or to "valid", and a long valid term also draws a
      warning. */
  function Classify(v: Validation, term: string): (w: Validation)
    ensures IsBlank(term) ==> w == v.(invalid := v.invalid + [term])
    ensures !IsBlank(term) ==> w.valid == v.valid + [term] && w.invalid == v.invalid
    ensures w.warnings == v.warnings + (if !IsBlank(term) && |term| > 200 then ["Long term: " + term] else [])
  {
    InvalidTermIsBlank(term);
    if IsInvalidTerm(term) then
      v.(invalid := v.invalid + [term])
    else if |term| > 200 then
      v.(valid := v.valid + [term], warnings := v.warnings + [LongTermWarning(term)])
    else
      v.(valid := v.valid + [term])
  }

  /** `validate_search_terms(terms)`: the loop over `terms`, written as a
      recursion on the last term so that each step appends, as the loop does. */
  function ValidateSearchTerms(terms: seq<string>): (v: Validation)
    ensures |v.valid| + |v.invalid| == |terms|
    ensures forall k :: 0 <= k < |v.invalid| ==> IsBlank(v.invalid[k])
    ensures forall k :: 0 <= k < |v.valid| ==> !IsBlank(v.valid[k])
    ensures |v.warnings| <= |v.valid|
  {
    if terms == [] then Validation([], [], [])
    else Classify(ValidateSearchTerms(terms[..|terms| - 1]), terms[|terms| - 1])
  }

  /** `Classify` appends to each list what filtering the one term keeps. */
  lemma ClassifyFilters(v: Validation, term: string)
    ensures Classify(v, term).valid == v.valid + Filter([term], IsValidTerm)
    ensures Classify(v, term).invalid == v.invalid + Filter([term], IsInvalidTerm)
    ensures Classify(v, term).warnings == v.warnings + Map(Filter([term], IsLongTerm), LongTermWarning)
  {
    FilterSingleton(term, IsValidTerm);
    FilterSingleton(term, IsInvalidTerm);
    FilterSingleton(term, IsLongTerm);
    assert Map([term], LongTermWarning) == [LongTermWarning(term)];
  }

  /** "valid" is the input filtered by `IsValidTerm`, in input order. */
  lemma {:induction false} ValidateSearchTermsValid(terms: seq<string>)
    ensures ValidateSearchTerms(terms).valid == Filter(terms, IsValidTerm)
  {
    if terms != [] {
      var init := terms[..|terms| - 1];
      assert terms == init + [terms[|terms| - 1]];
      ClassifyFilters(ValidateSearchTerms(init), terms[|terms| - 1]);
      ValidateSearchTermsValid(init);
      FilterAppend(init, [terms[|terms| - 1]], IsValidTerm);
    }
  }

  /** "invalid" is the input filtered by `IsInvalidTerm`, in input order. */
  lemma {:induction false} ValidateSearchTermsInvalid(terms: seq<string>)
    ensures ValidateSearchTerms(terms).invalid == Filter(terms, IsInvalidTerm)
  {
    if terms != [] {
      var init := terms[..|terms| - 1];
      assert terms == init + [terms[|terms| - 1]];
      ClassifyFilters(ValidateSearchTerms(init), terms[|terms| - 1]);
      ValidateSearchTermsInvalid(init);
      FilterAppend(init, [terms[|terms| - 1]], IsInvalidTerm);
    }
  }

  /** "warnings" names the long valid terms, in input order. */
  lemma {:induction false} ValidateSearchTermsWarnings(terms: seq<string>)
    ensures ValidateSearchTerms(terms).warnings == Map(Filter(terms, IsLongTerm), LongTermWarning)
  {
    if terms != [] {
      var init := terms[..|terms| - 1];
      var term := terms[|terms| - 1];
      assert terms == init + [term];
      ClassifyFilters(ValidateSearchTerms(init), terms[|terms| - 1]);
      ValidateSearchTermsWarnings(init);
      FilterAppend(init, [term], IsLongTerm);
      MapAppend(Filter(init, IsLongTerm), Filter([term], IsLongTerm), LongTermWarning);
    }
  }

  /** Every term ends up in exactly one of "valid" and "invalid", as often as
      it occurs in the input. */
  lemma ValidateSearchTermsPartitions(terms: seq<string>)
    ensures multiset(ValidateSearchTerms(terms).valid) + multiset(ValidateSearchTerms(terms).invalid)
            == multiset(terms)
  {
    ValidateSearchTermsValid(terms);
    ValidateSearchTermsInvalid(terms);
    FilterPartition(terms, IsValidTerm, IsInvalidTerm);
  }

  /** The provider's default "invalid" terms: only the two blank terms are
      rejected, and the last counts as valid. */
  lemma DefaultInvalidTermsValidation()
    ensures ValidateSearchTerms(["", "   ", "xyzxyzxyznonexistent"])
            == Validation(["xyzxyzxyznonexistent"], ["", "   "], [])
  {
    var terms := ["", "   ", "xyzxyzxyznonexistent"];
    assert IsBlank("   ");
    assert !IsBlank("xyzxyzxyznonexistent") by {
      assert !IsSpace("xyzxyzxyznonexistent"[0]);
    }
    assert terms[..2] == ["", "   "];
    assert terms[..2][..1] == [""];
    assert terms[..2][..1][..0] == [];
  }

  /** The profile `get_context_specific_data` returns, without the float
      timeout multiplier. */
  datatype ContextProfile = ContextProfile(searchTerms: seq<string>, maxResults: nat)

  /** `_get_comprehensive_search_terms()`. */
  const ComprehensiveSearchTerms: seq<string> := [
    "programming tutorial", "machine learning", "web development", "data science",
    "artificial intelligence", "cloud computing", "cybersecurity", "mobile development",
    "game development", "software engineering"
  ]

  /** `[f"perf test {i}" for i in range(100)]`. */
  function PerformanceTerms(): (terms: seq<string>)
    ensures |terms| == 100
    ensures forall i :: 0 <= i < 100 ==> terms[i] == "perf test " + Decimal(i)
  {
    seq(100, i requires 0 <= i < 100 => "perf test " + Decimal(i))
  }

  /** The hundred performance terms are pairwise distinct. */
  lemma PerformanceTermsDistinct(i: nat, j: nat)
    requires i < 100 && j < 100 && PerformanceTerms()[i] == PerformanceTerms()[j]
    ensures i == j
  {
    var p := "perf test ";
    assert Decimal(i) == (p + Decimal(i))[|p|..];
    assert Decimal(j) == (p + Decimal(j))[|p|..];
    DecimalInjective(i, j);
  }

  const ContextTable: map<string, ContextProfile> := map[
    "smoke_test" := ContextProfile(["quick test", "smoke test"], 5),
    "regression_test" := ContextProfile(ComprehensiveSearchTerms, 20),
    "performance_test" := ContextProfile(PerformanceTerms(), 50)
  ]

  /** `get_context_specific_data(context)`: an exact-key lookup that falls
      back to the smoke-test profile. */
  function GetContextData(context: string): (p: ContextProfile)
    ensures context in ContextTable ==> p == ContextTable[context]
    ensures context !in ContextTable ==> p == ContextTable["smoke_test"]
  {
    GetOr(ContextTable, context, ContextTable["smoke_test"])
  }

  /** Result limits per context: 20 for regression, 50 for performance and
      5 for smoke and every unknown context. */
  lemma ContextMaxResults(context: string)
    ensures GetContextData(context).maxResults
            == if context == "regression_test" then 20
               else if context == "performance_test" then 50
               else 5
    ensures context != "regression_test" && context != "performance_test"
            ==> GetContextData(context) == GetContextData("smoke_test")
  {
  }

  /** The profile `get_browser_specific_data` returns, without the float
      performance baseline. */
  datatype BrowserProfile = BrowserProfile(userAgentCheck: string, specificFeatures: seq<string>)

  const BrowserTable: map<string, BrowserProfile> := map[
    "chrome" := BrowserProfile("Chrome", ["webgl", "audio"]),
    "firefox" := BrowserProfile("Firefox", ["webgl", "audio"]),
    "edge" := BrowserProfile("Edge", ["webgl", "audio"])
  ]

  /** `get_browser_specific_data(browser)`: an exact-key lookup that falls
      back to the Chrome profile. */
  function GetBrowserData(browser: string): (p: BrowserProfile)
    ensures browser in BrowserTable ==> p == BrowserTable[browser]
    ensures browser !in BrowserTable ==> p == BrowserTable["chrome"]
  {
    GetOr(BrowserTable, browser, BrowserTable["chrome"])
  }

  /** Every name but "firefox" and "edge" gets the Chrome profile; the lookup
      is case-sensitive, so "Firefox" does too. */
  lemma BrowserDataFallback(browser: string)
    ensures GetBrowserData(browser).userAgentCheck
            == if browser == "firefox" then "Firefox"
               else if browser == "edge" then "Edge"
               else "Chrome"
    ensures GetBrowserData("Firefox") == GetBrowserData("chrome")
  {
  }

  /** `get_timestamped_search_term(base)`, with the instance's timestamp
      taken at construction time `now`. */
  function TimestampedSearchTerm(base: string, now: DateTime): (r: string)
    requires Formattable(now)
    ensures |r| == |base| + 16 && r[..|base|] == base && r[|base|] == ' '
    ensures ParseTimestamp(r[|base| + 1..]) == Some(WholeSecond(now))
  {
    var r := base + " " + Timestamp(now);
    assert r[|base| + 1..] == Timestamp(now);
    ParseTimestampRoundTrip(now);
    r
  }

  /** Two terms agree exactly when their bases agree and their generators
      were built within the same second. */
  lemma TimestampedSearchTermSameSecond(b: string, d: DateTime, c: string, e: DateTime)
    requires Formattable(d) && Formattable(e)
    ensures TimestampedSearchTerm(b, d) == TimestampedSearchTerm(c, e) <==> b == c && WholeSecond(d) == WholeSecond(e)
  {
    TimestampSameSecond(d, e);
    if TimestampedSearchTerm(b, d) == TimestampedSearchTerm(c, e) {
      var r := TimestampedSearchTerm(b, d);
      assert |b| == |c|;
      assert b == r[..|b|] == c;
      assert Timestamp(d) == r[|b| + 1..] == Timestamp(e);
    }
  }

  /** Two generators built at 12:00:00.1 and 12:00:00.9 give the same term,
      although the timestamp is there to make terms unique. */
  lemma TimestampedSearchTermCollision(base: string)
    ensures var d := DateTime(2024, 1, 1, 12, 0, 0, 100000);
            var e := DateTime(2024, 1, 1, 12, 0, 0, 900000);
            d != e && TimestampedSearchTerm(base, d) == TimestampedSearchTerm(base, e)
  {
    TimestampDropsMicroseconds();
  }

  /** The part of the provider's data the lookup reads: the "search_terms"
      section, which the loaded JSON may lack. */
  datatype ProviderData = ProviderData(searchTerms: Option<map<string, seq<string>>>)

  /** `_get_default_data()["search_terms"]`. */
  const DefaultSearchTerms: map<string, seq<string>> := map[
    "valid" := ["Python programming", "Selenium automation", "Web development tutorial",
                "Machine learning basics", "JavaScript frameworks"],
    "invalid" := ["", "   ", "xyzxyzxyznonexistent"],
    "special_characters" := ["C++ programming", "React.js", "API testing @2023"]
  ]

  const DefaultData: ProviderData := ProviderData(Some(DefaultSearchTerms))

  /** `get_search_terms(category)`: missing section or category gives []. */
  function GetSearchTerms(data: ProviderData, category: string): (terms: seq<string>)
    ensures data.searchTerms.None? ==> terms == []
    ensures data.searchTerms.Some? && category in data.searchTerms.value
            ==> terms == data.searchTerms.value[category]
    ensures data.searchTerms.Some? && category !in data.searchTerms.value ==> terms == []
  {
    match data.searchTerms
    case None => []
    case Some(section) => GetOr(section, category, [])
  }

  /** With the default data an unknown category is empty, and of the
      "invalid" terms the validator rejects only the blank ones. */
  lemma DefaultSearchTermsLookup()
    ensures GetSearchTerms(DefaultData, "video_categories") == []
    ensures ValidateSearchTerms(GetSearchTerms(DefaultData, "invalid")).invalid == ["", "   "]
  {
    assert "video_categories" !in DefaultSearchTerms;
    assert DefaultSearchTerms["invalid"] == ["", "   ", "xyzxyzxyznonexistent"];
    DefaultInvalidTermsValidation();
  }
}
