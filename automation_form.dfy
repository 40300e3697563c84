/** The automation form's schema (src/components/AutomationForm.tsx): site
    credentials, the search mode with a keyword that keyword mode requires,
    and an optional cap of 1 to 20 answers. */
module AutomationForm {
  import opened JsBuiltins
  import opened Types
  import opened Schema

  /** The raw values the form holds before validation. */
  datatype AutomationFormInput = AutomationFormInput(
    naverId: Option<string>,
    naverPw: Option<string>,
    sortBy: string,
    keyword: Option<string>,
    maxAnswers: Option<int>)

  /** The values `safeParse` accepts. */
  datatype AutomationFormValues = AutomationFormValues(
    naverId: string,
    naverPw: string,
    sortBy: SortMode,
    keyword: Option<string>,
    maxAnswers: Option<int>)

  const MinAnswers: int := 1
  const MaxAnswers: int := 20

  /** `defaultValues`: latest mode and five answers; no credentials. */
  const DefaultValues: AutomationFormInput := AutomationFormInput(None, None, "latest", None, Some(5))

  /** A field failed its type check (a missing required string, an unknown
      mode), so the object parse is aborted and zod skips the refine. */
  predicate Aborted(input: AutomationFormInput)
  {
    input.naverId.None? || input.naverPw.None? || ParseSortMode(input.sortBy).None?
  }

  /** The issues `safeParse` reports, by field path, in schema order. */
  function Issues(input: AutomationFormInput): (r: seq<string>)
    ensures "naverId" in r <==> !FilledIn(input.naverId)
    ensures "naverPw" in r <==> !FilledIn(input.naverPw)
    ensures "sortBy" in r <==> ParseSortMode(input.sortBy).None?
    ensures "maxAnswers" in r <==> !OptionalInRange(input.maxAnswers, MinAnswers, MaxAnswers)
    ensures "keyword" in r <==> !Aborted(input) && input.sortBy == "keyword" && Falsy(input.keyword)
  {
    var fieldIssues :=
      (if FilledIn(input.naverId) then [] else ["naverId"]) +
      (if FilledIn(input.naverPw) then [] else ["naverPw"]) +
      (if ParseSortMode(input.sortBy).None? then ["sortBy"] else []) +
      (if OptionalInRange(input.maxAnswers, MinAnswers, MaxAnswers) then [] else ["maxAnswers"]);
    if Aborted(input) then fieldIssues
    else fieldIssues + (if KeywordRule(ParseSortMode(input.sortBy).value, input.keyword) then [] else ["keyword"])
  }

  /** `formSchema.safeParse`. */
  function Parse(input: AutomationFormInput): (r: Parsed<AutomationFormValues>)
    ensures r.Accepted? <==>
              && FilledIn(input.naverId) && FilledIn(input.naverPw)
              && ParseSortMode(input.sortBy).Some?
              && OptionalInRange(input.maxAnswers, MinAnswers, MaxAnswers)
              && KeywordRule(ParseSortMode(input.sortBy).value, input.keyword)
    ensures r.Rejected? ==> r.paths == Issues(input)
    ensures r.Accepted? ==> r.value.sortBy == Keyword ==> !Falsy(r.value.keyword)
    ensures r.Accepted? ==>
              && Some(r.value.naverId) == input.naverId && Some(r.value.naverPw) == input.naverPw
              && Some(r.value.sortBy) == ParseSortMode(input.sortBy)
              && r.value.keyword == input.keyword && r.value.maxAnswers == input.maxAnswers
  {
    var issues := Issues(input);
    if issues != [] then Rejected(issues)
    else
      assert "naverId" !in issues && "naverPw" !in issues && "sortBy" !in issues;
      Accepted(AutomationFormValues(input.naverId.value, input.naverPw.value,
                                    ParseSortMode(input.sortBy).value, input.keyword, input.maxAnswers))
  }

  /** The default form is rejected only for its missing credentials; once
      they are filled in it is accepted in latest mode with five answers. */
  lemma DefaultValuesNeedCredentials(id: string, pw: string)
    requires |id| > 0 && |pw| > 0
    ensures Parse(DefaultValues) == Rejected(["naverId", "naverPw"])
    ensures Parse(DefaultValues.(naverId := Some(id), naverPw := Some(pw))) ==
            Accepted(AutomationFormValues(id, pw, Latest, None, Some(5)))
  {
  }

  /** In keyword mode with credentials given, an absent or empty keyword is
      rejected on the path `keyword`. */
  lemma KeywordModeNeedsKeyword(input: AutomationFormInput)
    requires input.sortBy == "keyword" && Falsy(input.keyword)
    requires input.naverId.Some? && input.naverPw.Some?
    ensures "keyword" in Parse(input).paths
  {
  }

  /** While a credential is missing the refine is skipped, so a missing
      keyword is not reported yet. */
  lemma MissingCredentialHidesKeywordIssue(keyword: Option<string>)
    requires Falsy(keyword)
    ensures Parse(AutomationFormInput(None, Some("pw"), "keyword", keyword, None)) == Rejected(["naverId"])
  {
  }
}
