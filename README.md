# Naver automation front end: a Dafny model

This project models the client-side logic of the Naver Knowledge-iN answer
automation front end. The user searches for questions, selects some of them
page by page, enters account data, and submits a request that answers them
in the background. The model covers:

- **Workflow** (`app.dfy`, src/App.tsx). The four-step state machine
  search → select → account → result is a class `App`. Its fields are the
  component's state hooks and its methods are the handlers. Each awaited
  backend call becomes an `Outcome` parameter: either a response or a thrown
  value. A handler with an `await` is split into a `Begin` half, which hands
  out the request that is sent, and a `Complete` half. The selection browser
  is a field that is mounted exactly while the select step is shown.
- **Selection browser** (`question_list.dfy`,
  src/components/QuestionList.tsx). Pages hold five questions. A set of
  selected links survives paging. There are per-question, per-page and
  whole-list toggles, expandable descriptions and previous/next guards. The
  class `QuestionBrowser` holds the state. Each handler hands out, as its
  result, the list its parent receives: the selected questions in list
  order.
- **Form schemas** (`search_form.dfy`, `account_form.dfy`,
  `automation_form.dfy`, `schema.dfy`). Each zod schema is an `Issues`
  function giving the error paths in the order zod reports them, and a
  `Parse` function giving the accepted values or those paths. The model
  follows zod's rule: a failed type or enum check aborts the object, and the
  cross-field refine is then skipped.
- **Keyword catalogue** (`niche_keywords.dfy`, src/data/nicheKeywords.ts).
  The eight-entry table is included verbatim. Its queries are exact lookup,
  top-N by descending priority (a stable insertion sort, then a slice),
  filter by competition, and substring search.
- **News feed** (`news_feed.dfy`, app/components/NewsFeed.tsx). It covers
  the search filter over title and summary, and the render:
  - the spinner;
  - the error message;
  - the list with its featured first item, the no-results message and the
    footer count.
- **JavaScript built-ins** (`js_builtins.dfy`). These are `filter`, `find`,
  `some`, `every`, `slice` (with negative indices), `includes` and
  `instanceof Error`, with their ECMAScript meaning.

Where the code and the written design disagree, the model follows the code:
- Toggling the current page twice restores the earlier selection only when
  the page was entirely selected or entirely unselected. Otherwise the
  second toggle clears the whole page (`TogglePageTwice`).
- "Toggle all" compares the size of the selected set with the list length.
  So with two questions sharing a link it can never clear
  (`ToggleAllWithRepeatedLinks`).
- Going back from the account step keeps `selectedQuestions` while the
  browser restarts empty (see Findings).

## Model

| member | source | states |
|---|---|---|
| JsBuiltins.MessageOf | src/App.tsx:37 | the message of an `Error`, otherwise the fallback text |
| JsBuiltins.Filter | src/components/QuestionList.tsx:44 | the result holds exactly the elements that satisfy the predicate, in their original order (a subsequence), and is no longer than the input |
| JsBuiltins.FilterCounts | src/components/QuestionList.tsx:44 | filtering keeps every occurrence of an element that passes and none of one that fails |
| JsBuiltins.FilterKeepsAll | app/components/NewsFeed.tsx:21 | a predicate true everywhere keeps the whole list |
| JsBuiltins.FilterKeepsNone | src/components/QuestionList.tsx:59-62 | a predicate false everywhere keeps nothing |
| JsBuiltins.FilterCongruent | src/components/QuestionList.tsx:44 | predicates that agree on the elements give the same result |
| JsBuiltins.FindIndex | src/data/nicheKeywords.ts:108 | the first index whose element satisfies the predicate, or none when no element does |
| JsBuiltins.Find | src/data/nicheKeywords.ts:108 | the first element that satisfies the predicate; undefined exactly when none does |
| JsBuiltins.AnyOf | src/data/nicheKeywords.ts:134 | true exactly when some element satisfies the predicate |
| JsBuiltins.AllOf | src/components/QuestionList.tsx:72 | true exactly when every element satisfies the predicate (so true of an empty list) |
| JsBuiltins.RelativeIndex | src/components/QuestionList.tsx:33 | how `slice` resolves an index: from the end when negative, clamped to the length |
| JsBuiltins.Slice | src/components/QuestionList.tsx:33 | for `0 <= start <= end`, the elements from `start` to `end` clamped to the length; never longer than the input, and every element comes from the input |
| JsBuiltins.OccursInTail | app/components/NewsFeed.tsx:24-25 | an occurrence in the tail of a string is an occurrence in the string one index later |
| JsBuiltins.IncludesIff | app/components/NewsFeed.tsx:24-25 | `includes` holds exactly when the query occurs at some index of the string |
| JsBuiltins.Includes | app/components/NewsFeed.tsx:24-25 | the empty query is included in every string, and a string includes only queries no longer than itself |
| Schema.ParseSortMode | src/components/SearchForm.tsx:21 | only `keyword` and `latest` are accepted modes |
| SearchForm.Issues | src/components/SearchForm.tsx:20-32 | each error path is reported exactly when its rule fails: unknown mode, limit outside 1..15, keyword mode with a missing or empty keyword. The keyword rule is checked only when the mode parsed. No issues exactly when all rules hold |
| SearchForm.Parse | src/components/SearchForm.tsx:20-32 | accepted exactly when there are no issues, otherwise rejected with those paths. Accepted keyword-mode data has a non-empty keyword. The accepted mode is the one entered, the limit is in 1..15 and defaults to 10, and a limit that was entered is kept |
| SearchForm.DefaultValuesNeedKeyword | src/components/SearchForm.tsx:41-46 | the default form is rejected on the `keyword` path only |
| SearchForm.KeywordModeNeedsKeyword | src/components/SearchForm.tsx:24-32 | keyword mode with a missing or empty keyword is rejected on the `keyword` path |
| SearchForm.LatestModeIgnoresKeyword | src/components/SearchForm.tsx:23-28 | latest mode is accepted exactly when the limit is acceptable, whatever the keyword, and the limit defaults to 10 |
| AccountForm.Issues | src/components/AccountForm.tsx:21-28 | one path for each empty or missing credential or API key and for a promotion link that is neither a URL nor empty. The prompts never fail |
| AccountForm.Parse | src/components/AccountForm.tsx:21-28 | accepted exactly when ID, password and key are non-empty and the link is acceptable. The accepted ID, password, key and link are those entered, and the prompts pass through unchanged |
| AccountForm.DefaultValuesNeedCredentials | src/components/AccountForm.tsx:38-46 | the default form is rejected on exactly ID, password and key; the default prompts are non-empty |
| AccountForm.EmptyPromotionLinkAccepted | src/components/AccountForm.tsx:25 | an absent or empty promotion link raises no issue |
| AccountForm.PromptsAreOptional | src/components/AccountForm.tsx:26-27 | whether the form is accepted does not depend on the prompts |
| AutomationForm.Issues | src/components/AutomationForm.tsx:12-26 | one path for each missing or empty credential, unknown mode, or answer cap outside 1..20. The keyword path is reported only when the object parse was not aborted |
| AutomationForm.Parse | src/components/AutomationForm.tsx:12-26 | accepted exactly when every rule holds; the accepted ID, password, mode, keyword and answer cap are those entered, and keyword-mode values carry a non-empty keyword |
| AutomationForm.DefaultValuesNeedCredentials | src/components/AutomationForm.tsx:36-39 | the defaults fail only on the credentials, and are accepted (latest mode, five answers) once they are filled in |
| AutomationForm.KeywordModeNeedsKeyword | src/components/AutomationForm.tsx:18-26 | with both credentials present, keyword mode without a keyword is rejected on the `keyword` path |
| AutomationForm.MissingCredentialHidesKeywordIssue | src/components/AutomationForm.tsx:13-26 | a missing credential aborts the object, so the keyword refine reports nothing |
| QuestionList.TotalPages | src/components/QuestionList.tsx:30 | the fewest pages of five that hold `n` questions; zero exactly for an empty list |
| QuestionList.PaginationNeedsMoreThanOnePage | src/components/QuestionList.tsx:196 | the page controls are shown exactly when there are more than five questions |
| QuestionList.PageItems | src/components/QuestionList.tsx:31-33 | at most five questions; for a page `p >= 1`, the contiguous slice from `(p-1)*5`, cut at the end of the list |
| QuestionList.PagePosition | src/components/QuestionList.tsx:30-33 | question `i` is on existing page `i/5+1` at position `i%5` |
| QuestionList.PageOccupancy | src/components/QuestionList.tsx:30-33 | every page before the last is full, the last is non-empty, and pages past the end are empty |
| QuestionList.TwelveQuestionsMakeThreePages | src/components/QuestionList.tsx:30-33 | twelve questions make three pages and the third holds the last two |
| QuestionList.SelectedInOrder | src/components/QuestionList.tsx:44 | the questions whose link is selected, in list order |
| QuestionList.SelectedInOrderUsesListLinks | src/components/QuestionList.tsx:44 | only membership of the list's own links affects what is handed out |
| QuestionList.SelectionRoundTrip | src/components/QuestionList.tsx:44-45 | reading the links back from a handed-out list and filtering again gives the same list |
| QuestionList.SelectAllEmitsWholeList | src/components/QuestionList.tsx:59-68 | selecting every link hands out the whole list; selecting none hands out `[]` |
| QuestionList.ToggleLink | src/components/QuestionList.tsx:35-41 | the link's membership flips and every other link's is unchanged |
| QuestionList.TogglePage | src/components/QuestionList.tsx:70-80 | a fully selected page becomes fully unselected, otherwise fully selected; links off the page are untouched |
| QuestionList.TogglePageFlipsLabel | src/components/QuestionList.tsx:70-108 | an empty page is left alone; otherwise the page's "select/deselect" label flips |
| QuestionList.TogglePageTwice | src/components/QuestionList.tsx:70-80 | two toggles restore the selection exactly when the page was all or nothing selected; otherwise they leave the page cleared |
| QuestionList.LinkSetCons | src/components/QuestionList.tsx:64 | the links of a list are its first link plus the links of the rest |
| QuestionList.DistinctLinksCons | src/components/QuestionList.tsx:64 | the links of a list are distinct exactly when the rest's are and the first link is new |
| QuestionList.LinkSetSize | src/components/QuestionList.tsx:59-64 | a list has at most as many distinct links as questions, and exactly as many when no link repeats |
| QuestionList.SubsetSize | src/components/QuestionList.tsx:59 | a subset of links is no larger than its superset |
| QuestionList.SubsetOfSameSize | src/components/QuestionList.tsx:59 | a subset as large as its superset is that set |
| QuestionList.ToggleAllIsAllOrNothing | src/components/QuestionList.tsx:59-68 | with distinct links, "toggle all" clears a full selection and otherwise selects every link |
| QuestionList.ToggleAllWithRepeatedLinks | src/components/QuestionList.tsx:59-68 | when a link repeats, "toggle all" always selects everything and never clears |
| QuestionList.PageLinksInList | src/components/QuestionList.tsx:31-71 | the links of any page are links of the list |
| QuestionList.TwelveQuestionsExample | src/components/QuestionList.tsx:30-80 | with twelve distinct questions, selecting page 3 selects two and "toggle all" then selects all twelve |
| QuestionList.NavigationStaysOnExistingPages | src/components/QuestionList.tsx:201-220 | from an existing page, previous and next stay on existing pages; previous moves exactly when `p > 1`, next exactly when `p < totalPages` |
| QuestionList.QuestionBrowser.constructor | src/components/QuestionList.tsx:26-28 | mounting starts with nothing selected or expanded, on page 1 |
| QuestionList.QuestionBrowser.Restore | src/App.tsx:202 | mounting with a given selection of the list's links, on page 1 (used by the corrected back navigation) |
| QuestionList.QuestionBrowser.ToggleQuestion | src/components/QuestionList.tsx:35-46 | the question's link flips, page and expansions are kept, the selection stays within the list, and the parent receives the selected questions in list order |
| QuestionList.QuestionBrowser.ToggleExpand | src/components/QuestionList.tsx:48-57 | only the expanded set changes, by flipping that link |
| QuestionList.QuestionBrowser.ToggleAll | src/components/QuestionList.tsx:59-68 | the new selection is the toggle-all result, and the parent receives the selected questions in list order |
| QuestionList.QuestionBrowser.ToggleCurrentPage | src/components/QuestionList.tsx:70-84 | the copy-then-add/delete loop produces the page toggle of the current page, and the parent receives the selected questions in list order |
| QuestionList.QuestionBrowser.GoToPage | src/components/QuestionList.tsx:86-88 | the page is set unchecked; nothing else changes |
| QuestionList.QuestionBrowser.GoToPrevious | src/components/QuestionList.tsx:201 | moves back one page only when past page 1 |
| QuestionList.QuestionBrowser.GoToNext | src/components/QuestionList.tsx:220 | moves on one page only before the last page |
| QuestionList.PreviousPage | src/components/QuestionList.tsx:201 | the page stays or goes back by one, and goes back exactly when it is past page 1 |
| QuestionList.NextPage | src/components/QuestionList.tsx:220 | the page stays or goes on by one, and goes on exactly when it is before the last page |
| QuestionList.ToggleAllLinks | src/components/QuestionList.tsx:59-65 | the new selection is either empty or every link of the list; it is empty exactly when everything was selected or the list is empty |
| NicheKeywords.TablePrioritiesInRange | src/data/nicheKeywords.ts:15-102 | every table entry has priority 1..10 |
| NicheKeywords.GetKeywordByName | src/data/nicheKeywords.ts:107-109 | the first entry whose keyword equals the name exactly; undefined exactly when no entry has it |
| NicheKeywords.InsertByPriority | src/data/nicheKeywords.ts:116 | insertion adds exactly the new entry, and the result starts with it or with the old first entry |
| NicheKeywords.InsertKeepsOrder | src/data/nicheKeywords.ts:116 | inserting into a list ordered by non-increasing priority keeps it ordered |
| NicheKeywords.SortByPriority | src/data/nicheKeywords.ts:115-116 | the sort is a permutation of the table ordered by non-increasing priority |
| NicheKeywords.PrefixOutranksRest | src/data/nicheKeywords.ts:116-117 | in a list ordered by priority, no later entry outranks an earlier one |
| NicheKeywords.TopIsSortedPrefix | src/data/nicheKeywords.ts:114-118 | the top entries are the prefix of the sorted copy that `slice(0, limit)` resolves to |
| NicheKeywords.PrefixRemainder | src/data/nicheKeywords.ts:117 | slicing a prefix splits the entries between the prefix and the rest |
| NicheKeywords.PrefixOrdered | src/data/nicheKeywords.ts:116-117 | a prefix of a list ordered by priority is ordered |
| NicheKeywords.TopByPriorityIsTheBest | src/data/nicheKeywords.ts:114-118 | `min(limit, size)` entries (for `limit >= 0`), ordered by non-increasing priority, all from the table, and no omitted entry has higher priority than a returned one |
| NicheKeywords.TopByPriority | src/data/nicheKeywords.ts:114-118 | never more entries than the table, and every entry comes from the table |
| NicheKeywords.GetTopKeywords | src/data/nicheKeywords.ts:114-118 | `min(limit, 8)` entries for `limit >= 0`, ordered by non-increasing priority, and drawn from the catalogue (no entry more often than it occurs there) |
| NicheKeywords.DefaultTopKeywordsAreFive | src/data/nicheKeywords.ts:114 | with the default limit, five entries are returned |
| NicheKeywords.GetKeywordsByCompetition | src/data/nicheKeywords.ts:123-125 | exactly the entries of that competition level, in table order |
| NicheKeywords.SearchKeywords | src/data/nicheKeywords.ts:130-137 | an entry is kept exactly when its keyword or a related keyword contains the query, or its lower-cased SEO title contains the lower-cased query; table order is kept |
| NicheKeywords.MatchesQuery | src/data/nicheKeywords.ts:132-136 | an entry matches exactly when the query occurs at some index of its keyword, a related keyword includes it, or the lower-cased query occurs in the lower-cased SEO title |
| NicheKeywords.SearchEmptyQueryKeepsAll | src/data/nicheKeywords.ts:133 | the empty query returns the whole table |
| NewsFeed.FilteredLinks | app/components/NewsFeed.tsx:20-27 | a link is kept exactly when it passes the filter (empty query, or a title or summary match); the result is a subsequence of the links |
| NewsFeed.KeepsLink | app/components/NewsFeed.tsx:20-26 | a link passes exactly when the query is empty or the lower-cased query occurs at some index of the lower-cased title or summary |
| NewsFeed.EmptyQueryKeepsAll | app/components/NewsFeed.tsx:21 | an empty query keeps every link, in order |
| NewsFeed.Render | app/components/NewsFeed.tsx:29-106 | loading shows the spinner; an error shows its message or the fallback; otherwise the filtered links are listed in order, only the first is featured, the no-results message appears exactly when none remain, and the footer count, present exactly when some remain, is their number. When neither loading nor an error is pending, the list view is shown |
| NewsFeed.ListViewShowsMatches | app/components/NewsFeed.tsx:20-91 | with a non-empty query, a link is listed exactly when its lower-cased title or summary contains the lower-cased query |
| Workflow.SearchRequestFor | src/App.tsx:29-31 | keyword mode calls the keyword search with the form's keyword, any other mode the latest listing; the limit is passed through |
| Workflow.ValidatedSearchIsWellFormed | src/App.tsx:29-31 | after the search schema accepts, a keyword search carries a non-empty keyword and every request a limit in 1..15 |
| Workflow.WriteRequestFor | src/App.tsx:62-68 | the request carries exactly the selected questions, the ID, the password and the two prompts |
| Workflow.AccountSubmitIgnoresKeyAndLink | src/App.tsx:62-68 | after the account schema accepts, the request carries non-empty credentials and the prompts as entered, and does not depend on the API key or promotion link |
| Workflow.App.constructor | src/App.tsx:16-22 | the initial state: search step, nothing fetched, selected or reported |
| Workflow.App.BeginSearch | src/App.tsx:25-31 | marks the submission in flight, clears the error, and sends the request for the form data |
| Workflow.App.CompleteSearch | src/App.tsx:33-40 | a response stores questions and total and opens the select step with a fresh, empty browser; a thrown value stays in search with its message, and the alert is shown unless an `Error` with an empty message was thrown; the submission always ends |
| Workflow.App.HandleSearch | src/App.tsx:24-41 | the whole handler: the request sent; on a response the questions and total of that response with a fresh, empty browser on page 1; on a thrown value the search step with its message and questions and total kept. The selection and result are kept, the submission ends, and the alert is shown unless an `Error` with an empty message was thrown |
| Workflow.App.HandleSelectionChange | src/App.tsx:43-45 | adopts the list the browser hands out; step, questions, total, result, submission flag, error and browser are unchanged |
| Workflow.App.OnToggleQuestion | src/App.tsx:184-188 | a checkbox click toggles one link in the browser, and the workflow then holds what the browser shows; page, expanded items and every other field are unchanged |
| Workflow.App.OnToggleAll | src/App.tsx:184-188 | the toggle-all button: the browser selection becomes `ToggleAllLinks` of the old one and the workflow holds it; page, expanded items and every other field are unchanged |
| Workflow.App.OnToggleCurrentPage | src/App.tsx:184-188 | the toggle-page button: the links of the page shown before the click are toggled together and the workflow holds the result; page, expanded items and every other field are unchanged |
| Workflow.App.HandleProceedToAccount | src/App.tsx:47-54 | an empty selection sets the minimum-selection message and stays; otherwise the error is cleared and the account step opens, unmounting the browser; questions, selection, total, result and submission flag are unchanged |
| Workflow.App.ClickProceed | src/App.tsx:189-193 | wherever the proceed button is shown, clicking it opens the account step with the selection kept, no error and the button gone |
| Workflow.App.BeginAccountSubmit | src/App.tsx:57-68 | marks the submission in flight, clears the error, and sends the selected questions with ID, password and prompts; step, questions, selection, total, result and browser are unchanged |
| Workflow.App.CompleteAccountSubmit | src/App.tsx:70-81 | a response is stored and opens the result step; a thrown value keeps the step and shows its message (the alert shown unless an `Error` with an empty message was thrown); questions, selection and total are kept and the submission always ends |
| Workflow.App.HandleAccountSubmit | src/App.tsx:56-82 | the whole handler: the request sent, then the result step with the response or the account step with the error and the earlier result; questions, selection and total are kept |
| Workflow.App.HandleReset | src/App.tsx:84-91 | back to search with nothing fetched, selected, answered or reported; the submission flag is left as it was |
| Workflow.App.Back | src/App.tsx:163-202 | as written: the select step reopens with a fresh, empty browser while the earlier selection is kept, so the two disagree; questions, total, result, error and submission flag are unchanged |
| Workflow.App.BackRestoringSelection | src/App.tsx:202 | corrected: the browser reopens with the held selection checked, so the two agree; questions, total, result, error and submission flag are unchanged |
| Workflow.RenderAgreesWithState | src/App.tsx:189-214 | in every valid state, the result step shows its view, and the proceed button is shown only over a mounted browser with a non-empty selection of fetched questions |
| Workflow.BackForgetsVisibleSelection | src/App.tsx:163-202 | fetch one question, check it, proceed, go back: no link is checked, yet that question is still carried |
| Workflow.BackKeepsVisibleSelection | src/App.tsx:163-202 | the same walk with the corrected back button: one link is checked and that question is carried |
| Workflow.CheckOneAndGoBack | src/App.tsx:24-202 | the walk itself, ending in the select step with the one question carried and the browser's checked links as each back button leaves them |

## Left out

- The backend calls (src/services/lambdaApi.ts, app/lib/api.ts) and their timeouts are left out. Each awaited call is an `Outcome` parameter: the response, or the value it threw. The error logging in those wrappers is also left out.
- Concurrency is left out. The at-most-one in-flight request rule is enforced only by disabled buttons, so `isSubmitting` is a plain field. The model lets a write response arrive after the user has gone back (the back button stays live), but it does not interleave two searches.
- Workflow.App.CompleteSearch: requires the search step, because the search form that starts the call is shown only there.
- Workflow.App.HandleSelectionChange: requires a selection of the fetched list, because only the selection browser calls it.
- The success log in `handleAccountSubmit` (src/App.tsx:74-76) is left out. It is console output only.
- src/components/ResultDisplay.tsx is left out: its success rate is a floating-point division. Also left out: src/hooks/useSEO.tsx, src/hooks/useSEO.ts, app/layout.tsx, next.config.ts, app/components/SearchBar.tsx, app/components/NewsListItem.tsx, app/api/og-image/route.ts, and all markup and styling.
- The detail-text rule of the question cards (src/components/QuestionList.tsx:120) and the count badges are left out. They are rendering only.
- URL validity of the promotion link is left out. It is library behaviour, modelled as the parameter `isUrl`.
- Lower-casing is left out. `toLowerCase` is the parameter `lower`.
- SearchForm.Parse: the limit is an integer here, while zod's `number()` would also accept a fraction in range. zod's number coercion is not modelled.
- AutomationForm.Parse: the answer cap is an integer here, for the same reason.
- The 1–50 range shown as help text in the search form (src/components/SearchForm.tsx:134-141) is left out. It is display text; the schema enforces 1..15.
- NicheKeywords.SortByPriority: only that it is an ordered permutation is proved. The stability that `Array.prototype.sort` guarantees, and that the insertion sort has, is not proved.
- `getTopKeywords` sorts a copy and leaves the table alone. Here that holds by value semantics: the table is a constant sequence.
- NicheKeywords.GetKeywordsByCompetition: states membership and order; the occurrence count of each kept entry is stated in general by `FilterCounts`, not for the table.
- The news feed's query fetching (react-query) and its user ID from the environment are left out. The loading flag, error and data are parameters of `Render`.

## Findings

| source | as written | input that shows it | evidently intended | confidence | as-written member | corrected member |
|---|---|---|---|---|---|---|
| src/App.tsx:202 | The back button of the account step only sets the step to `select`. The selection browser is mounted only in that step (src/App.tsx:163-188), so it remounts with nothing checked, while `selectedQuestions` keeps the earlier selection. The proceed button counts the hidden selection and would submit it. | Fetch one question `q`, check it, proceed, press back: the browser shows 0 checked, while `selectedQuestions == [q]`. | On return, the browser shows the selection the workflow still holds. | medium, not executed | Workflow.App.Back, Workflow.BackForgetsVisibleSelection | Workflow.App.BackRestoringSelection, Workflow.BackKeepsVisibleSelection |
