/** The four-step workflow of the automation front end (src/App.tsx):
    search, select, account, result. The component's state hooks are the
    fields of `App`; each handler is a method. A handler that awaits a backend
    call is split at the `await`: the `Begin` half runs before it and hands out
    the request that is sent, the `Complete` half runs with the call's outcome,
    and the `Handle` method composes the two. The selection browser is mounted
    exactly while the select step is shown. */
module Workflow {
  import opened JsBuiltins
  import opened Types
  import opened QuestionList
  import SearchForm
  import AccountForm

  datatype Step = Search | Select | Account | Result

  const SearchErrorFallback: string := "질문 검색 중 오류가 발생했습니다"
  const WriteErrorFallback: string := "답변 등록 중 오류가 발생했습니다"
  const EmptySelectionMessage: string := "최소 1개 이상의 질문을 선택하세요"

  /** How an awaited backend call ended: it resolved with a response, or it threw. */
  datatype Outcome<T> = Succeeded(response: T) | Threw(err: Thrown)

  /** The backend call `handleSearch` makes for validated search data: keyword
      mode calls the keyword search, latest mode the latest listing, and the
      limit is passed through either way. */
  function SearchRequestFor(data: SearchFormData): (r: SearchRequest)
    ensures r.SearchByKeyword? <==> data.sortBy == Keyword
    ensures r.SearchByKeyword? ==> r.keyword == data.keyword
    ensures r.limit == data.limit
  {
    if data.sortBy == Keyword then SearchByKeyword(data.keyword, data.limit)
    else GetLatest(data.limit)
  }

  /** Whatever the user typed, a search that passed the search form's schema
      sends a keyword search only with a non-empty keyword, and always with a
      limit from 1 to 15. */
  lemma ValidatedSearchIsWellFormed(input: SearchForm.SearchFormInput)
    requires SearchForm.Parse(input).Accepted?
    ensures var r := SearchRequestFor(SearchForm.Parse(input).value);
            && (r.SearchByKeyword? ==> r.keyword.Some? && |r.keyword.value| > 0)
            && r.limit.Some? && SearchForm.MinLimit <= r.limit.value <= SearchForm.MaxLimit
  {
  }

  /** The body of the write request `handleAccountSubmit` sends: the selected
      questions and four fields of the account data. */
  function WriteRequestFor(selected: seq<QuestionDto>, account: AccountFormData): (r: WriteAnswersRequest)
    ensures r.questions == selected
    ensures r.naverId == account.naverId && r.naverPw == account.naverPw
    ensures r.systemMessage == account.systemMessage && r.userPrompt == account.userPrompt
  {
    WriteAnswersRequest(selected, account.naverId, account.naverPw, account.systemMessage, account.userPrompt)
  }

  /** The write request that follows a validated account form carries the
      non-empty credentials the user entered and the prompts as entered, and
      it does not depend on the OpenAI API key or the promotion link: two
      forms that differ only in those send the same request. */
  lemma AccountSubmitIgnoresKeyAndLink(selected: seq<QuestionDto>, input: AccountForm.AccountFormInput,
                                       key: Option<string>, link: Option<string>, isUrl: string -> bool)
    requires AccountForm.Parse(input, isUrl).Accepted?
    requires AccountForm.Parse(input.(openaiApiKey := key, promotionLink := link), isUrl).Accepted?
    ensures var r := WriteRequestFor(selected, AccountForm.Submitted(AccountForm.Parse(input, isUrl).value));
            && |r.naverId| > 0 && |r.naverPw| > 0
            && r.systemMessage == input.systemMessage && r.userPrompt == input.userPrompt
            && r == WriteRequestFor(selected,
                      AccountForm.Submitted(AccountForm.Parse(input.(openaiApiKey := key, promotionLink := link), isUrl).value))
  {
  }

  class App {
    var step: Step
    var questions: seq<QuestionDto>
    var totalCount: int
    var selectedQuestions: seq<QuestionDto>
    var result: Option<AnswerWriteResponse>
    var isSubmitting: bool
    var error: Option<string>
    /** The mounted selection browser; `null` while another step is shown. */
    var list: QuestionBrowser?
    ghost var Repr: set<object>

    /** The browser is mounted exactly in the select step and browses the
        fetched questions; the search step holds nothing fetched; the result
        step holds a response; the account step is entered only with a
        selection; and the selection is always a selection of the fetched
        questions, in list order. */
    ghost predicate Valid()
      reads this, Repr
    {
      && this in Repr
      && (step == Select <==> list != null)
      && (list != null ==>
            && Repr == {this, list}
            && list.questions == questions && list.totalCount == totalCount
            && list.Valid())
      && (list == null ==> Repr == {this})
      && (step == Search ==> questions == [] && selectedQuestions == [] && result.None?)
      && (step == Account ==> selectedQuestions != [])
      && (step == Result ==> result.Some?)
      && IsSelectionOf(selectedQuestions, questions)
    }

    /** The list the browser shows as checked is the list the workflow holds
        as selected. */
    ghost predicate Synced()
      reads this, list
    {
      list != null ==> selectedQuestions == SelectedInOrder(questions, list.selectedLinks)
    }

    /** The initial state: the search step, nothing fetched or selected. */
    constructor ()
      ensures Valid() && Synced()
      ensures step == Search && questions == [] && totalCount == 0 && selectedQuestions == []
      ensures result.None? && !isSubmitting && error.None?
    {
      step := Search;
      questions := [];
      totalCount := 0;
      selectedQuestions := [];
      result := None;
      isSubmitting := false;
      error := None;
      list := null;
      Repr := {this};
      new;
      SelectAllEmitsWholeList([]);
    }

    /** `handleSearch` up to its `await`: marks the submission in flight,
        clears the error and hands out the backend call for the form data. */
    method BeginSearch(data: SearchFormData) returns (req: SearchRequest)
      requires Valid() && step == Search
      modifies this
      ensures Valid() && Synced()
      ensures req == SearchRequestFor(data)
      ensures isSubmitting && error.None?
      ensures step == old(step) && questions == old(questions) && totalCount == old(totalCount)
      ensures selectedQuestions == old(selectedQuestions) && result == old(result) && list == old(list)
      ensures Repr == old(Repr)
    {
      isSubmitting := true;
      error := None;
      req := SearchRequestFor(data);
    }

    /** `handleSearch` after its `await`: a response is stored and opens the
        select step with a freshly mounted browser (nothing checked, page 1);
        a thrown value leaves the search step and shows its message. Either
        way the submission ends. */
    method CompleteSearch(outcome: Outcome<QuestionSearchResponse>)
      requires Valid() && step == Search
      modifies this
      ensures Valid() && Synced()
      ensures !isSubmitting && selectedQuestions == old(selectedQuestions) && result == old(result)
      ensures outcome.Succeeded? ==>
                && step == Select && error == old(error)
                && questions == outcome.response.questions && totalCount == outcome.response.totalCount
                && fresh(list) && list.selectedLinks == {} && list.currentPage == 1
      ensures outcome.Threw? ==>
                && step == Search && error == Some(MessageOf(outcome.err, SearchErrorFallback))
                && questions == old(questions) && totalCount == old(totalCount) && list == null
      ensures outcome.Threw? ==>
                (ShowsErrorAlert() <==> !(outcome.err.ErrorObject? && outcome.err.message == ""))
      ensures fresh(Repr - old(Repr))
    {
      if outcome.Succeeded? {
        questions := outcome.response.questions;
        totalCount := outcome.response.totalCount;
        step := Select;
        list := new QuestionBrowser(questions, totalCount);
        Repr := {this, list};
        SelectAllEmitsWholeList(questions);
      } else {
        error := Some(MessageOf(outcome.err, SearchErrorFallback));
      }
      isSubmitting := false;
    }

    /** `handleSearch` as a whole, for the outcome of its backend call. */
    method HandleSearch(data: SearchFormData, outcome: Outcome<QuestionSearchResponse>) returns (req: SearchRequest)
      requires Valid() && step == Search
      modifies this
      ensures Valid() && Synced()
      ensures req == SearchRequestFor(data) && !isSubmitting
      ensures selectedQuestions == old(selectedQuestions) && result == old(result)
      ensures outcome.Succeeded? ==>
                && step == Select && error.None?
                && questions == outcome.response.questions && totalCount == outcome.response.totalCount
                && fresh(list) && list.selectedLinks == {} && list.currentPage == 1
      ensures outcome.Threw? ==>
                && step == Search && error == Some(MessageOf(outcome.err, SearchErrorFallback))
                && questions == old(questions) && totalCount == old(totalCount) && list == null
      ensures outcome.Threw? ==>
                (ShowsErrorAlert() <==> !(outcome.err.ErrorObject? && outcome.err.message == ""))
      ensures fresh(Repr - old(Repr))
    {
      req := BeginSearch(data);
      CompleteSearch(outcome);
    }

    /** `handleSelectionChange`: adopts the list the browser hands out. */
    method HandleSelectionChange(selected: seq<QuestionDto>)
      requires Valid() && step == Select && IsSelectionOf(selected, questions)
      modifies this
      ensures Valid()
      ensures selectedQuestions == selected
      ensures step == old(step) && questions == old(questions) && totalCount == old(totalCount)
      ensures result == old(result) && isSubmitting == old(isSubmitting) && error == old(error)
      ensures list == old(list) && Repr == old(Repr)
    {
      selectedQuestions := selected;
    }

    /** A click on one question's checkbox: the browser toggles it and the
        workflow adopts the list it hands out. */
    method OnToggleQuestion(q: QuestionDto)
      requires Valid() && step == Select && q in questions
      modifies Repr
      ensures Valid() && Synced()
      ensures list == old(list) && list.selectedLinks == ToggleLink(old(list.selectedLinks), q.link)
      ensures list.currentPage == old(list.currentPage) && list.expandedQuestions == old(list.expandedQuestions)
      ensures step == old(step) && questions == old(questions) && totalCount == old(totalCount)
      ensures result == old(result) && isSubmitting == old(isSubmitting) && error == old(error) && Repr == old(Repr)
    {
      var emitted := list.ToggleQuestion(q);
      SelectionRoundTrip(questions, list.selectedLinks);
      HandleSelectionChange(emitted);
    }

    /** A click on the select-all checkbox. */
    method OnToggleAll()
      requires Valid() && step == Select
      modifies Repr
      ensures Valid() && Synced()
      ensures list == old(list) && list.selectedLinks == ToggleAllLinks(old(list.selectedLinks), questions)
      ensures list.currentPage == old(list.currentPage) && list.expandedQuestions == old(list.expandedQuestions)
      ensures step == old(step) && questions == old(questions) && totalCount == old(totalCount)
      ensures result == old(result) && isSubmitting == old(isSubmitting) && error == old(error) && Repr == old(Repr)
    {
      var emitted := list.ToggleAll();
      SelectionRoundTrip(questions, list.selectedLinks);
      HandleSelectionChange(emitted);
    }

    /** A click on the select-this-page button. */
    method OnToggleCurrentPage()
      requires Valid() && step == Select
      modifies Repr
      ensures Valid() && Synced()
      ensures list == old(list)
      ensures list.selectedLinks == TogglePage(old(list.selectedLinks), LinksOf(PageItems(questions, old(list.currentPage))))
      ensures list.currentPage == old(list.currentPage) && list.expandedQuestions == old(list.expandedQuestions)
      ensures step == old(step) && questions == old(questions) && totalCount == old(totalCount)
      ensures result == old(result) && isSubmitting == old(isSubmitting) && error == old(error) && Repr == old(Repr)
    {
      var emitted := list.ToggleCurrentPage();
      SelectionRoundTrip(questions, list.selectedLinks);
      HandleSelectionChange(emitted);
    }

    /** `handleProceedToAccount`: with nothing selected it shows the
        minimum-selection message and stays; otherwise it clears the error
        and moves to the account step, which unmounts the browser. */
    method HandleProceedToAccount()
      requires Valid() && step == Select
      modifies this
      ensures Valid()
      ensures questions == old(questions) && selectedQuestions == old(selectedQuestions)
      ensures totalCount == old(totalCount) && isSubmitting == old(isSubmitting) && result == old(result)
      ensures old(selectedQuestions) == [] ==>
                step == Select && error == Some(EmptySelectionMessage) && list == old(list) && Repr == old(Repr)
      ensures old(selectedQuestions) != [] ==> step == Account && error.None? && list == null
    {
      if |selectedQuestions| == 0 {
        error := Some(EmptySelectionMessage);
        return;
      }
      error := None;
      step := Account;
      list := null;
      Repr := {this};
    }

    /** `handleAccountSubmit` up to its `await`: marks the submission in
        flight, clears the error and hands out the write request. */
    method BeginAccountSubmit(account: AccountFormData) returns (req: WriteAnswersRequest)
      requires Valid() && step == Account
      modifies this
      ensures Valid()
      ensures req == WriteRequestFor(selectedQuestions, account)
      ensures isSubmitting && error.None?
      ensures step == old(step) && questions == old(questions) && selectedQuestions == old(selectedQuestions)
      ensures totalCount == old(totalCount) && result == old(result) && list == old(list) && Repr == old(Repr)
    {
      isSubmitting := true;
      error := None;
      req := WriteRequestFor(selectedQuestions, account);
    }

    /** `handleAccountSubmit` after its `await`: a response is stored and
        opens the result step; a thrown value shows its message. The back
        button stays live while the request is in flight, so the step may
        have changed in between: a response opens the result step from
        wherever the user is. */
    method CompleteAccountSubmit(outcome: Outcome<AnswerWriteResponse>)
      requires Valid()
      modifies this
      ensures Valid()
      ensures !isSubmitting && questions == old(questions) && selectedQuestions == old(selectedQuestions)
      ensures totalCount == old(totalCount)
      ensures outcome.Succeeded? ==>
                step == Result && result == Some(outcome.response) && error == old(error) && list == null
      ensures outcome.Threw? ==>
                && step == old(step) && result == old(result) && list == old(list) && Repr == old(Repr)
                && error == Some(MessageOf(outcome.err, WriteErrorFallback))
      ensures outcome.Threw? ==>
                (ShowsErrorAlert() <==> !(outcome.err.ErrorObject? && outcome.err.message == ""))
    {
      if outcome.Succeeded? {
        result := Some(outcome.response);
        step := Result;
        list := null;
        Repr := {this};
      } else {
        error := Some(MessageOf(outcome.err, WriteErrorFallback));
      }
      isSubmitting := false;
    }

    /** `handleAccountSubmit` as a whole, for the outcome of its backend call. */
    method HandleAccountSubmit(account: AccountFormData, outcome: Outcome<AnswerWriteResponse>)
      returns (req: WriteAnswersRequest)
      requires Valid() && step == Account
      modifies this
      ensures Valid()
      ensures req == WriteRequestFor(old(selectedQuestions), account) && !isSubmitting
      ensures questions == old(questions) && selectedQuestions == old(selectedQuestions) && totalCount == old(totalCount)
      ensures outcome.Succeeded? ==>
                step == Result && result == Some(outcome.response) && error.None? && list == null
      ensures outcome.Threw? ==>
                && step == Account && result == old(result) && list == old(list)
                && error == Some(MessageOf(outcome.err, WriteErrorFallback))
      ensures outcome.Threw? ==>
                (ShowsErrorAlert() <==> !(outcome.err.ErrorObject? && outcome.err.message == ""))
    {
      req := BeginAccountSubmit(account);
      CompleteAccountSubmit(outcome);
    }

    /** `handleReset`: back to the search step with nothing fetched, selected,
        answered or reported. The submission flag is not touched. */
    method HandleReset()
      requires Valid()
      modifies this
      ensures Valid() && Synced()
      ensures step == Search && questions == [] && totalCount == 0 && selectedQuestions == []
      ensures result.None? && error.None? && list == null
      ensures isSubmitting == old(isSubmitting)
    {
      step := Search;
      questions := [];
      totalCount := 0;
      selectedQuestions := [];
      result := None;
      error := None;
      list := null;
      Repr := {this};
    }

    /** The account step's back button as written: it only sets the step, so
        a new browser is mounted with nothing checked while the workflow still
        holds the earlier selection, and the two disagree. */
    method Back()
      requires Valid() && step == Account
      modifies this
      ensures Valid()
      ensures step == Select && fresh(list) && list.selectedLinks == {} && list.currentPage == 1
      ensures selectedQuestions == old(selectedQuestions) && selectedQuestions != []
      ensures !Synced()
      ensures questions == old(questions) && totalCount == old(totalCount) && result == old(result)
      ensures error == old(error) && isSubmitting == old(isSubmitting)
      ensures fresh(Repr - old(Repr))
    {
      step := Select;
      list := new QuestionBrowser(questions, totalCount);
      Repr := {this, list};
      SelectAllEmitsWholeList(questions);
    }

    /** The back button as evidently intended: the browser is mounted with the
        held selection checked, so what it shows and what the workflow will
        submit agree. */
    method BackRestoringSelection()
      requires Valid() && step == Account
      modifies this
      ensures Valid() && Synced()
      ensures step == Select && fresh(list) && list.selectedLinks == LinkSet(selectedQuestions)
      ensures selectedQuestions == old(selectedQuestions)
      ensures questions == old(questions) && totalCount == old(totalCount) && result == old(result)
      ensures error == old(error) && isSubmitting == old(isSubmitting)
      ensures fresh(Repr - old(Repr))
    {
      assert LinkSet(selectedQuestions) <= LinkSet(questions);
      step := Select;
      list := new QuestionBrowser.Restore(questions, totalCount, LinkSet(selectedQuestions));
      Repr := {this, list};
    }

    /** A click on the proceed button: wherever the button is shown, the
        click moves on to the account step with the selection it showed. */
    method ClickProceed()
      requires Valid() && ShowsProceedButton()
      modifies this
      ensures Valid()
      ensures step == Account && error.None? && list == null
      ensures selectedQuestions == old(selectedQuestions) && selectedQuestions != []
      ensures !ShowsProceedButton() && !ShowsErrorAlert()
    {
      HandleProceedToAccount();
    }

    /** The proceed button is shown in the select step once something is selected. */
    predicate ShowsProceedButton()
      reads this
    {
      step == Select && |selectedQuestions| > 0
    }

    /** The error alert is shown when the error is a non-empty string. */
    predicate ShowsErrorAlert()
      reads this
    {
      error.Some? && error.value != ""
    }

    /** The result view is shown in the result step when a response is held. */
    predicate ShowsResultView()
      reads this
    {
      step == Result && result.Some?
    }
  }

  /** In every valid state, the result step shows its view, and the proceed
      button is shown only over a mounted browser holding a non-empty
      selection drawn from the fetched questions (so a click moves on, as
      `ClickProceed` states). */
  lemma RenderAgreesWithState(app: App)
    requires app.Valid()
    ensures app.step == Result ==> app.ShowsResultView()
    ensures app.ShowsProceedButton() ==>
              && app.list != null && app.selectedQuestions != []
              && forall q :: q in app.selectedQuestions ==> q in app.questions
  {
  }

  /** The back-navigation discrepancy, on one question: fetch it, check it,
      proceed, go back. The browser then shows nothing checked (`shown`) while
      the workflow would still submit that question (`carried`). */
  method BackForgetsVisibleSelection(q: QuestionDto) returns (shown: nat, carried: seq<QuestionDto>)
    ensures shown == 0 && carried == [q]
  {
    var app := new App();
    CheckOneAndGoBack(app, q, false);
    shown := |app.list.selectedLinks|;
    carried := app.selectedQuestions;
  }

  /** The same walk with the corrected back button: the browser shows the
      question checked and the workflow carries that same question. */
  method BackKeepsVisibleSelection(q: QuestionDto) returns (shown: nat, carried: seq<QuestionDto>)
    ensures shown == 1 && carried == [q]
  {
    var app := new App();
    CheckOneAndGoBack(app, q, true);
    shown := |app.list.selectedLinks|;
    carried := app.selectedQuestions;
  }

  /** Fetches `[q]`, checks `q`, proceeds to the account step and goes back,
      with the as-written or the corrected back button. */
  method CheckOneAndGoBack(app: App, q: QuestionDto, restoring: bool)
    requires app.Valid() && app.step == Search
    modifies app
    ensures app.Valid() && app.step == Select && app.list != null
    ensures app.selectedQuestions == [q]
    ensures app.list.selectedLinks == if restoring then {q.link} else {}
  {
    var _ := app.BeginSearch(SearchFormData(Latest, None, Some(SearchForm.DefaultLimit)));
    app.CompleteSearch(Succeeded(QuestionSearchResponse([q], 1)));
    app.OnToggleQuestion(q);
    assert app.selectedQuestions == SelectedInOrder([q], {q.link});
    assert app.selectedQuestions == [q] by {
      SelectAllEmitsWholeList([q]);
      assert LinkSet([q]) == {q.link};
    }
    app.HandleProceedToAccount();
    if restoring {
      app.BackRestoringSelection();
      assert LinkSet([q]) == {q.link};
    } else {
      app.Back();
    }
  }
}
