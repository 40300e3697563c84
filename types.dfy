/** The records exchanged between the workflow, its forms and the backend
    (src/types/index.ts). */
module Types {
  import opened JsBuiltins

  /** `'keyword' | 'latest'`. */
  datatype SortMode = Keyword | Latest

  /** One question fetched from the backend; `link` is its identity. */
  datatype QuestionDto = QuestionDto(
    link: string,
    title: string,
    detailQuestion: string,
    answerCount: Option<int>,
    category: Option<string>)

  /** The one backend search call `handleSearch` makes: the keyword search
      (`keyword` is passed through with a non-null assertion, so it is the
      form's value as it stands) or the latest-questions listing. */
  datatype SearchRequest =
    | SearchByKeyword(keyword: Option<string>, limit: Option<int>)
    | GetLatest(limit: Option<int>)

  datatype QuestionSearchResponse = QuestionSearchResponse(questions: seq<QuestionDto>, totalCount: int)

  datatype WriteAnswersRequest = WriteAnswersRequest(
    questions: seq<QuestionDto>,
    naverId: string,
    naverPw: string,
    systemMessage: Option<string>,
    userPrompt: Option<string>)

  datatype AnswerResult = AnswerResult(link: string, success: bool, error: Option<string>)

  datatype AnswerWriteResponse = AnswerWriteResponse(processed: int, failed: int, results: seq<AnswerResult>)

  /** The values a validated search form hands to `handleSearch`. */
  datatype SearchFormData = SearchFormData(sortBy: SortMode, keyword: Option<string>, limit: Option<int>)

  /** The part of a validated account form that `handleAccountSubmit` reads. */
  datatype AccountFormData = AccountFormData(
    naverId: string,
    naverPw: string,
    systemMessage: Option<string>,
    userPrompt: Option<string>)
}
