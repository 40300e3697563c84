/** The search form's schema (src/components/SearchForm.tsx): the search
    mode, an optional keyword that keyword mode requires, and a result limit
    of 1 to 15 that defaults to 10. */
module SearchForm {
  import opened JsBuiltins
  import opened Types
  import opened Schema

  /** The raw values the form holds before validation. */
  datatype SearchFormInput = SearchFormInput(sortBy: string, keyword: Option<string>, limit: Option<int>)

  const MinLimit: int := 1
  const MaxLimit: int := 15
  const DefaultLimit: int := 10

  /** `defaultValues`: keyword mode with an empty keyword and a limit of 10. */
  const DefaultValues: SearchFormInput := SearchFormInput("keyword", Some(""), Some(DefaultLimit))

  /** The issues `safeParse` reports, by field path, in schema order. An
      unknown mode aborts the object parse, and zod then skips the refine; an
      out-of-range limit does not. */
  function Issues(input: SearchFormInput): (r: seq<string>)
    ensures "sortBy" in r <==> ParseSortMode(input.sortBy).None?
    ensures "limit" in r <==> !OptionalInRange(input.limit, MinLimit, MaxLimit)
    ensures "keyword" in r <==> input.sortBy == "keyword" && Falsy(input.keyword)
    ensures r == [] <==>
              && ParseSortMode(input.sortBy).Some?
              && OptionalInRange(input.limit, MinLimit, MaxLimit)
              && KeywordRule(ParseSortMode(input.sortBy).value, input.keyword)
  {
    var fieldIssues :=
      (if ParseSortMode(input.sortBy).None? then ["sortBy"] else []) +
      (if OptionalInRange(input.limit, MinLimit, MaxLimit) then [] else ["limit"]);
    match ParseSortMode(input.sortBy)
    case None => fieldIssues
    case Some(mode) => fieldIssues + (if KeywordRule(mode, input.keyword) then [] else ["keyword"])
  }

  /** `formSchema.safeParse`: the validated data, with the limit defaulted to
      10 when absent, or the issues. */
  function Parse(input: SearchFormInput): (r: Parsed<SearchFormData>)
    ensures r.Accepted? <==> Issues(input) == []
    ensures r.Rejected? ==> r.paths == Issues(input)
    ensures r.Accepted? ==> r.value.keyword == input.keyword
    ensures r.Accepted? ==> r.value.sortBy == Keyword ==> input.keyword.Some? && |input.keyword.value| > 0
    ensures r.Accepted? ==> r.value.limit.Some? && MinLimit <= r.value.limit.value <= MaxLimit
    ensures r.Accepted? && input.limit.None? ==> r.value.limit == Some(DefaultLimit)
    ensures r.Accepted? ==> Some(r.value.sortBy) == ParseSortMode(input.sortBy)
    ensures r.Accepted? && input.limit.Some? ==> r.value.limit == input.limit
  {
    var issues := Issues(input);
    if issues != [] then Rejected(issues)
    else Accepted(SearchFormData(ParseSortMode(input.sortBy).value, input.keyword, Some(input.limit.GetOr(DefaultLimit))))
  }

  /** The default form is rejected, on the keyword path only, until a
      keyword is entered. */
  lemma DefaultValuesNeedKeyword()
    ensures Parse(DefaultValues) == Rejected(["keyword"])
  {
  }

  /** In keyword mode an absent or empty keyword is rejected on the path
      `keyword`, whatever the limit. */
  lemma KeywordModeNeedsKeyword(keyword: Option<string>, limit: Option<int>)
    requires Falsy(keyword)
    ensures Parse(SearchFormInput("keyword", keyword, limit)).Rejected?
    ensures "keyword" in Parse(SearchFormInput("keyword", keyword, limit)).paths
  {
  }

  /** In latest mode the keyword does not matter: the form is accepted
      exactly when the limit is, and an absent limit becomes 10. */
  lemma LatestModeIgnoresKeyword(keyword: Option<string>, limit: Option<int>)
    ensures Parse(SearchFormInput("latest", keyword, limit)).Accepted? <==>
            OptionalInRange(limit, MinLimit, MaxLimit)
    ensures limit.None? ==>
            Parse(SearchFormInput("latest", keyword, limit)) ==
            Accepted(SearchFormData(Latest, keyword, Some(DefaultLimit)))
  {
  }
}
