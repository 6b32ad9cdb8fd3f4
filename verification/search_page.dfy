/** `SearchPage`: the results page of a YouTube search. Each operation takes
    the elements its locator found and returns what the page object returns,
    with clicks and typing recorded as values. */
module SearchPage {
  import opened Base
  import opened Text
  import opened Seqs
  import opened Elements
  import opened ValidationHelpers

  /** `get_search_results_count()`: how many result elements were found. */
  function ResultsCount(results: seq<Element>): (n: nat)
    ensures n == |results|
  {
    |results|
  }

  /** `has_search_results()`: some result element was found. */
  function HasSearchResults(results: seq<Element>): (b: bool)
    ensures b <==> ResultsCount(results) > 0
    ensures b <==> results != []
  {
    ResultsCount(results) > 0
  }

  /** The element's "title" attribute is present and non-empty (truthy). */
  predicate HasTitle(e: Element) {
    var t := GetAttribute(e, "title");
    t.Some? && t.value != ""
  }

  function TitleOf(e: Element): string {
    match GetAttribute(e, "title")
    case Some(t) => t
    case None => ""
  }

  predicate HasText(e: Element) {
    e.text != ""
  }

  function TextOf(e: Element): string {
    e.text
  }

  /** A non-empty text that mentions "views" in any letter case. */
  predicate ShowsViews(e: Element) {
    e.text != "" && Contains(Lower(e.text), "views")
  }

  /** `get_search_result_titles()`: the non-empty titles, in page order. */
  function SearchResultTitles(elements: seq<Element>): (titles: seq<string>)
    ensures titles == Map(Filter(elements, HasTitle), TitleOf)
    ensures forall k :: 0 <= k < |titles| ==> titles[k] != ""
  {
    FilterMapIsMapOfFilter(elements, HasTitle, TitleOf);
    FilterMap(elements, HasTitle, TitleOf)
  }

  /** `get_search_result_descriptions()`, `get_channel_names()` and
      `get_search_suggestions()`: the non-empty texts, in page order. */
  function NonEmptyTexts(elements: seq<Element>): (texts: seq<string>)
    ensures texts == Map(Filter(elements, HasText), TextOf)
    ensures forall k :: 0 <= k < |texts| ==> texts[k] != ""
  {
    FilterMapIsMapOfFilter(elements, HasText, TextOf);
    FilterMap(elements, HasText, TextOf)
  }

  /** `get_view_counts()`: the texts that mention "views", in page order. */
  function ViewCounts(elements: seq<Element>): (counts: seq<string>)
    ensures counts == Map(Filter(elements, ShowsViews), TextOf)
    ensures forall k :: 0 <= k < |counts| ==> counts[k] != "" && Contains(Lower(counts[k]), "views")
  {
    FilterMapIsMapOfFilter(elements, ShowsViews, TextOf);
    FilterMap(elements, ShowsViews, TextOf)
  }

  /** Every view count the page reports passes `validate_view_count`. */
  lemma ViewCountsAreValid(elements: seq<Element>, k: nat)
    requires k < |ViewCounts(elements)|
    ensures ValidateViewCount(ViewCounts(elements)[k])
  {
    ViewsMentionsView(Lower(ViewCounts(elements)[k]));
  }

  /** `click_first_search_result()`: the first thumbnail, if there is one. */
  function ClickFirstSearchResult(thumbnails: seq<Element>): (clicked: Option<nat>)
    ensures clicked.None? <==> thumbnails == []
    ensures clicked.Some? ==> clicked.value == 0
  {
    if thumbnails != [] then Some(0) else None
  }

  /** `click_search_result_by_index(index)`. */
  function ClickSearchResultByIndex(thumbnails: seq<Element>, index: int): (clicked: Option<nat>)
    ensures clicked.Some? <==> 0 <= index < |thumbnails|
    ensures clicked.Some? ==> clicked.value == index
  {
    ClickAt(thumbnails, index)
  }

  /** Clicking the first result is clicking the result at index 0. */
  lemma FirstResultIsIndexZero(thumbnails: seq<Element>)
    ensures ClickFirstSearchResult(thumbnails) == ClickSearchResultByIndex(thumbnails, 0)
  {
  }

  /** A suggestion matches when its lower-cased text contains the
      lower-cased target. */
  predicate SuggestionMatches(target: string, suggestion: Element) {
    Contains(Lower(suggestion.text), Lower(target))
  }

  /** `click_search_suggestion(target)`: scans the suggestions in order and
      clicks the first match only. */
  method ClickSearchSuggestion(suggestions: seq<Element>, target: string) returns (clicked: Option<nat>)
    ensures clicked.Some? <==> exists i :: 0 <= i < |suggestions| && SuggestionMatches(target, suggestions[i])
    ensures clicked.Some? ==> clicked.value < |suggestions|
                              && SuggestionMatches(target, suggestions[clicked.value])
                              && forall j :: 0 <= j < clicked.value ==> !SuggestionMatches(target, suggestions[j])
  {
    var i := 0;
    while i < |suggestions|
      invariant 0 <= i <= |suggestions|
      invariant forall j :: 0 <= j < i ==> !SuggestionMatches(target, suggestions[j])
    {
      if SuggestionMatches(target, suggestions[i]) {
        return Some(i);
      }
      i := i + 1;
    }
    return None;
  }

  /** What `search_for_new_term` does to the search box. */
  datatype Typing = Clear | SendKeys(keys: string) | Submit

  datatype Entry = Entry(ok: bool, actions: seq<Typing>)

  /** `search_for_new_term(term)`: clear, type and submit when the search box
      is found; otherwise nothing is typed. */
  function SearchForNewTerm(searchBox: Option<Element>, term: string): (e: Entry)
    ensures e.ok <==> searchBox.Some?
    ensures !e.ok ==> e.actions == []
    ensures e.ok ==> e.actions == [Clear, SendKeys(term), Submit]
  {
    if searchBox.Some? then Entry(true, [Clear, SendKeys(term), Submit]) else Entry(false, [])
  }

  /** Some text contains `term`, ignoring letter case. */
  predicate Mentions(texts: seq<string>, term: string) {
    exists k :: 0 <= k < |texts| && Contains(Lower(texts[k]), Lower(term))
  }

  /** The empty term is in every text, so it is "found" exactly when there is
      some text at all. */
  lemma MentionsEmptyTerm(texts: seq<string>)
    ensures Mentions(texts, "") <==> texts != []
  {
    if texts != [] {
      ContainsEmpty(Lower(texts[0]));
    }
  }

  /** `verify_search_term_in_results(term)`: the titles are scanned first,
      then the descriptions, stopping at the first one that contains the
      term. */
  method VerifySearchTermInResults(titleElements: seq<Element>, descriptionElements: seq<Element>,
                                   term: string)
    returns (found: bool)
    ensures found <==> Mentions(SearchResultTitles(titleElements), term)
                       || Mentions(NonEmptyTexts(descriptionElements), term)
  {
    var titles := SearchResultTitles(titleElements);
    var descriptions := NonEmptyTexts(descriptionElements);
    var lowered := Lower(term);
    var i := 0;
    while i < |titles|
      invariant 0 <= i <= |titles|
      invariant forall k :: 0 <= k < i ==> !Contains(Lower(titles[k]), lowered)
    {
      if Contains(Lower(titles[i]), lowered) {
        return true;
      }
      i := i + 1;
    }
    var j := 0;
    while j < |descriptions|
      invariant 0 <= j <= |descriptions|
      invariant forall k :: 0 <= k < j ==> !Contains(Lower(descriptions[k]), lowered)
    {
      if Contains(Lower(descriptions[j]), lowered) {
        return true;
      }
      j := j + 1;
    }
    return false;
  }
}
