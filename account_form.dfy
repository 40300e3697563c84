/** The account form's schema (src/components/AccountForm.tsx): the site
    credentials and the OpenAI API key are required, the promotion link is a
    URL or empty, and the two prompts are optional. Whether a string is a
    well-formed URL is left to the parameter `isUrl`. */
module AccountForm {
  import opened JsBuiltins
  import opened Types
  import opened Schema

  /** The raw values the form holds before validation. */
  datatype AccountFormInput = AccountFormInput(
    naverId: Option<string>,
    naverPw: Option<string>,
    openaiApiKey: Option<string>,
    promotionLink: Option<string>,
    systemMessage: Option<string>,
    userPrompt: Option<string>)

  /** The values `safeParse` accepts. */
  datatype AccountFormValues = AccountFormValues(
    naverId: string,
    naverPw: string,
    openaiApiKey: string,
    promotionLink: Option<string>,
    systemMessage: Option<string>,
    userPrompt: Option<string>)

  const DefaultSystemMessage: string :=
    "당신은 네이버 지식iN에서 질문에 답변하는 친절하고 전문적인 AI 어시스턴트입니다. 정확하고 유용한 정보를 제공하며, 한국어로 자연스럽게 답변합니다."
  const DefaultUserPrompt: string := "위 질문에 대해 자세하고 이해하기 쉽게 답변해주세요."

  /** `defaultValues`: empty credentials, key and link, and filled-in prompts. */
  const DefaultValues: AccountFormInput :=
    AccountFormInput(Some(""), Some(""), Some(""), Some(""), Some(DefaultSystemMessage), Some(DefaultUserPrompt))

  /** `z.string().url().optional().or(z.literal(''))`: absent, a URL, or empty. */
  predicate PromotionLinkOk(v: Option<string>, isUrl: string -> bool)
  {
    v.None? || isUrl(v.value) || v.value == ""
  }

  /** The issues `safeParse` reports, by field path, in schema order. */
  function Issues(input: AccountFormInput, isUrl: string -> bool): (r: seq<string>)
    ensures "naverId" in r <==> !FilledIn(input.naverId)
    ensures "naverPw" in r <==> !FilledIn(input.naverPw)
    ensures "openaiApiKey" in r <==> !FilledIn(input.openaiApiKey)
    ensures "promotionLink" in r <==> !PromotionLinkOk(input.promotionLink, isUrl)
    ensures "systemMessage" !in r && "userPrompt" !in r
  {
    (if FilledIn(input.naverId) then [] else ["naverId"]) +
    (if FilledIn(input.naverPw) then [] else ["naverPw"]) +
    (if FilledIn(input.openaiApiKey) then [] else ["openaiApiKey"]) +
    (if PromotionLinkOk(input.promotionLink, isUrl) then [] else ["promotionLink"])
  }

  /** `formSchema.safeParse`. */
  function Parse(input: AccountFormInput, isUrl: string -> bool): (r: Parsed<AccountFormValues>)
    ensures r.Accepted? <==>
              && FilledIn(input.naverId) && FilledIn(input.naverPw) && FilledIn(input.openaiApiKey)
              && PromotionLinkOk(input.promotionLink, isUrl)
    ensures r.Rejected? ==> r.paths == Issues(input, isUrl)
    ensures r.Accepted? ==> |r.value.naverId| > 0 && |r.value.naverPw| > 0 && |r.value.openaiApiKey| > 0
    ensures r.Accepted? ==> r.value.systemMessage == input.systemMessage && r.value.userPrompt == input.userPrompt
    ensures r.Accepted? ==>
              && Some(r.value.naverId) == input.naverId && Some(r.value.naverPw) == input.naverPw
              && Some(r.value.openaiApiKey) == input.openaiApiKey && r.value.promotionLink == input.promotionLink
  {
    var issues := Issues(input, isUrl);
    if issues != [] then Rejected(issues)
    else
      assert "naverId" !in issues && "naverPw" !in issues && "openaiApiKey" !in issues;
      Accepted(AccountFormValues(input.naverId.value, input.naverPw.value, input.openaiApiKey.value,
                                 input.promotionLink, input.systemMessage, input.userPrompt))
  }

  /** The part of the submitted values the workflow reads; the API key and
      the promotion link are not passed on. */
  function Submitted(values: AccountFormValues): AccountFormData
  {
    AccountFormData(values.naverId, values.naverPw, values.systemMessage, values.userPrompt)
  }

  /** The default form is rejected for exactly the three empty required
      fields; its two prompts are non-empty. */
  lemma DefaultValuesNeedCredentials(isUrl: string -> bool)
    ensures Parse(DefaultValues, isUrl) == Rejected(["naverId", "naverPw", "openaiApiKey"])
    ensures |DefaultSystemMessage| > 0 && |DefaultUserPrompt| > 0
  {
  }

  /** An absent or empty promotion link is accepted whatever `isUrl` says. */
  lemma EmptyPromotionLinkAccepted(input: AccountFormInput, isUrl: string -> bool)
    requires input.promotionLink == None || input.promotionLink == Some("")
    ensures "promotionLink" !in Issues(input, isUrl)
  {
  }

  /** The prompts are optional: whether the form is accepted does not depend
      on them. */
  lemma PromptsAreOptional(input: AccountFormInput, systemMessage: Option<string>, userPrompt: Option<string>, isUrl: string -> bool)
    ensures Parse(input, isUrl).Accepted? <==>
            Parse(input.(systemMessage := systemMessage, userPrompt := userPrompt), isUrl).Accepted?
  {
  }
}
