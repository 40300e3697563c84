/** The selection browser of the select step (src/components/QuestionList.tsx):
    a set of selected question links that survives paging over pages of five
    questions, with per-question, per-page and whole-list toggles. After every
    change of the selection it hands its parent the selected questions in list
    order; here that list is the `emitted` result of the method. */
module QuestionList {
  import opened JsBuiltins
  import opened Types

  const ItemsPerPage: nat := 5

  /** `Math.ceil(n / ItemsPerPage)`: the fewest pages of five that hold `n` questions. */
  function TotalPages(n: nat): (r: nat)
    ensures r * ItemsPerPage >= n
    ensures r > 0 ==> (r - 1) * ItemsPerPage < n
    ensures r == 0 <==> n == 0
  {
    (n + ItemsPerPage - 1) / ItemsPerPage
  }

  /** The pagination controls are rendered only when there is more than one page. */
  predicate ShowsPagination(n: nat)
  {
    TotalPages(n) > 1
  }

  lemma PaginationNeedsMoreThanOnePage(n: nat)
    ensures ShowsPagination(n) <==> n > ItemsPerPage
  {
  }

  /** The questions on page `p`. The page number reaches `slice` unchecked, so
      any `p` is accepted, and a page never holds more than five questions. */
  function PageItems(qs: seq<QuestionDto>, p: int): (r: seq<QuestionDto>)
    ensures |r| <= ItemsPerPage
    ensures 1 <= p ==> r == qs[Min((p - 1) * ItemsPerPage, |qs|)..Min(p * ItemsPerPage, |qs|)]
  {
    Slice(qs, (p - 1) * ItemsPerPage, (p - 1) * ItemsPerPage + ItemsPerPage)
  }

  /** Question `i` is shown on page `i / 5 + 1`, at position `i % 5`. */
  lemma PagePosition(qs: seq<QuestionDto>, i: nat)
    requires i < |qs|
    ensures 1 <= i / ItemsPerPage + 1 <= TotalPages(|qs|)
    ensures i % ItemsPerPage < |PageItems(qs, i / ItemsPerPage + 1)|
    ensures PageItems(qs, i / ItemsPerPage + 1)[i % ItemsPerPage] == qs[i]
  {
    var p := i / ItemsPerPage + 1;
    assert (p - 1) * ItemsPerPage + i % ItemsPerPage == i;
  }

  /** Pages `1..TotalPages` are non-empty, every page but the last is full,
      and a page past the end is empty. */
  lemma PageOccupancy(qs: seq<QuestionDto>, p: int)
    requires 1 <= p
    ensures p < TotalPages(|qs|) ==> |PageItems(qs, p)| == ItemsPerPage
    ensures p == TotalPages(|qs|) ==> |PageItems(qs, p)| == |qs| - (p - 1) * ItemsPerPage > 0
    ensures p > TotalPages(|qs|) ==> PageItems(qs, p) == []
  {
  }

  /** Twelve questions make three pages, and the third holds the last two. */
  lemma TwelveQuestionsMakeThreePages(qs: seq<QuestionDto>)
    requires |qs| == 12
    ensures TotalPages(|qs|) == 3
    ensures PageItems(qs, 3) == qs[10..]
  {
  }

  /** `items.map(q => q.link)`. */
  function LinksOf(qs: seq<QuestionDto>): seq<string>
  {
    seq(|qs|, i requires 0 <= i < |qs| => qs[i].link)
  }

  /** The links of a list, as a set. */
  function LinkSet(qs: seq<QuestionDto>): set<string>
  {
    set q | q in qs :: q.link
  }

  /** The elements of a sequence of links, as a set. */
  function Elems(links: seq<string>): set<string>
  {
    set l | l in links
  }

  /** No two questions of the list share a link. */
  predicate DistinctLinks(qs: seq<QuestionDto>)
  {
    forall i, j :: 0 <= i < j < |qs| ==> qs[i].link != qs[j].link
  }

  /** `questions.filter(q => selected.has(q.link))`: what is handed to the parent. */
  function SelectedInOrder(qs: seq<QuestionDto>, sel: set<string>): (r: seq<QuestionDto>)
    ensures forall q :: q in r <==> q in qs && q.link in sel
    ensures IsSubsequence(r, qs)
  {
    Filter((q: QuestionDto) => q.link in sel, qs)
  }

  /** `sel` is a selection of `qs`: exactly the questions of `qs` whose link it
      holds, in list order. */
  predicate IsSelectionOf(sel: seq<QuestionDto>, qs: seq<QuestionDto>)
  {
    sel == SelectedInOrder(qs, LinkSet(sel))
  }

  /** Only the list's own links matter to the selection it hands out. */
  lemma {:induction false} SelectedInOrderUsesListLinks(qs: seq<QuestionDto>, a: set<string>, b: set<string>)
    requires forall q :: q in qs ==> (q.link in a <==> q.link in b)
    ensures SelectedInOrder(qs, a) == SelectedInOrder(qs, b)
  {
    FilterCongruent((q: QuestionDto) => q.link in a, (q: QuestionDto) => q.link in b, qs);
  }

  /** Whatever set is selected, the list handed out is a selection of the
      list: reading its links back and filtering again gives the same list. */
  lemma SelectionRoundTrip(qs: seq<QuestionDto>, s: set<string>)
    ensures IsSelectionOf(SelectedInOrder(qs, s), qs)
  {
    var r := SelectedInOrder(qs, s);
    forall q | q in qs
      ensures q.link in s <==> q.link in LinkSet(r)
    {
      if q.link in LinkSet(r) {
        var q' :| q' in r && q'.link == q.link;
      }
    }
    SelectedInOrderUsesListLinks(qs, s, LinkSet(r));
  }

  /** Selecting every link hands out the whole list; selecting none hands out `[]`. */
  lemma SelectAllEmitsWholeList(qs: seq<QuestionDto>)
    ensures SelectedInOrder(qs, LinkSet(qs)) == qs
    ensures SelectedInOrder(qs, {}) == []
  {
    FilterKeepsAll((q: QuestionDto) => q.link in LinkSet(qs), qs);
    FilterKeepsNone((q: QuestionDto) => q.link in {}, qs);
  }

  /** Flips the membership of one link (a `Set` copy, then `delete` or `add`). */
  function ToggleLink(sel: set<string>, link: string): (r: set<string>)
    ensures link in r <==> link !in sel
    ensures forall l :: l != link ==> (l in r <==> l in sel)
  {
    if link in sel then sel - {link} else sel + {link}
  }

  /** `currentPageLinks.every(link => selected.has(link))`; true of an empty page. */
  predicate PageAllSelected(pageLinks: seq<string>, sel: set<string>)
  {
    AllOf(l => l in sel, pageLinks)
  }

  /** No link of the page is selected. */
  predicate PageNoneSelected(pageLinks: seq<string>, sel: set<string>)
  {
    forall l :: l in pageLinks ==> l !in sel
  }

  /** "Toggle current page": if every link of the page is selected, exactly
      those links are removed, otherwise exactly those links are added; the
      page ends up all selected or all unselected, and other links keep their
      membership. */
  function TogglePage(sel: set<string>, pageLinks: seq<string>): (r: set<string>)
    ensures PageAllSelected(pageLinks, sel) ==> PageNoneSelected(pageLinks, r)
    ensures !PageAllSelected(pageLinks, sel) ==> PageAllSelected(pageLinks, r)
    ensures forall l :: l !in pageLinks ==> (l in r <==> l in sel)
  {
    if PageAllSelected(pageLinks, sel) then sel - Elems(pageLinks) else sel + Elems(pageLinks)
  }

  /** On an empty page the toggle changes nothing; on a non-empty page it
      always flips the button label between "select" and "deselect". */
  lemma TogglePageFlipsLabel(sel: set<string>, pageLinks: seq<string>)
    ensures pageLinks == [] ==> TogglePage(sel, pageLinks) == sel
    ensures pageLinks != [] ==>
      (PageAllSelected(pageLinks, TogglePage(sel, pageLinks)) <==> !PageAllSelected(pageLinks, sel))
  {
    if pageLinks != [] {
      assert pageLinks[0] in pageLinks;
    }
  }

  /** Toggling the same page twice restores the selection exactly when the
      page was all selected or all unselected to begin with; a partly
      selected page ends up all unselected. */
  lemma TogglePageTwice(sel: set<string>, pageLinks: seq<string>)
    ensures TogglePage(TogglePage(sel, pageLinks), pageLinks) == sel <==>
            PageAllSelected(pageLinks, sel) || PageNoneSelected(pageLinks, sel)
    ensures !PageAllSelected(pageLinks, sel) ==>
            TogglePage(TogglePage(sel, pageLinks), pageLinks) == sel - Elems(pageLinks)
  {
    var once := TogglePage(sel, pageLinks);
    var twice := TogglePage(once, pageLinks);
    if PageAllSelected(pageLinks, sel) {
      if pageLinks != [] {
        assert pageLinks[0] in pageLinks;
        assert !PageAllSelected(pageLinks, once);
      }
      assert twice == sel;
    } else {
      assert twice == sel - Elems(pageLinks);
      if !PageNoneSelected(pageLinks, sel) {
        var l :| l in pageLinks && l in sel;
        assert l !in twice;
      }
    }
  }

  /** "Toggle all": clears when the selection is as large as the list, and
      otherwise selects every link of the list. */
  function ToggleAllLinks(sel: set<string>, qs: seq<QuestionDto>): (r: set<string>)
    ensures r == {} || r == LinkSet(qs)
    ensures r == {} <==> |sel| == |qs| || qs == []
  {
    assert qs != [] ==> qs[0].link in LinkSet(qs);
    if |sel| == |qs| then {} else LinkSet(qs)
  }

  /** The links of a non-empty list are its first link and the links of the rest. */
  lemma LinkSetCons(qs: seq<QuestionDto>)
    requires qs != []
    ensures LinkSet(qs) == {qs[0].link} + LinkSet(qs[1..])
  {
    assert qs == [qs[0]] + qs[1..];
  }

  /** A list has distinct links exactly when its tail has and its first link
      does not occur in the tail. */
  lemma DistinctLinksCons(qs: seq<QuestionDto>)
    requires qs != []
    ensures DistinctLinks(qs) <==> DistinctLinks(qs[1..]) && qs[0].link !in LinkSet(qs[1..])
  {
    var tail := qs[1..];
    if qs[0].link in LinkSet(tail) {
      var q :| q in tail && q.link == qs[0].link;
      var j :| 0 <= j < |tail| && tail[j] == q;
      assert qs[0].link == qs[j + 1].link;
    }
    if !DistinctLinks(qs) {
      var i, j :| 0 <= i < j < |qs| && qs[i].link == qs[j].link;
      if i == 0 {
        assert qs[j] == tail[j - 1];
        assert qs[j] in tail;
      } else {
        assert tail[i - 1].link == tail[j - 1].link;
      }
    }
  }

  /** A list has no more distinct links than questions, and exactly as many
      when no link repeats. */
  lemma {:induction false} LinkSetSize(qs: seq<QuestionDto>)
    ensures |LinkSet(qs)| <= |qs|
    ensures DistinctLinks(qs) <==> |LinkSet(qs)| == |qs|
  {
    if qs != [] {
      LinkSetSize(qs[1..]);
      LinkSetCons(qs);
      DistinctLinksCons(qs);
    }
  }

  /** A subset is no larger than its superset. */
  lemma {:induction false} SubsetSize(a: set<string>, b: set<string>)
    requires a <= b
    ensures |a| <= |b|
    decreases a
  {
    if a != {} {
      var x :| x in a;
      SubsetSize(a - {x}, b - {x});
      assert a == (a - {x}) + {x};
      assert b == (b - {x}) + {x};
    }
  }

  /** A set of links that is a subset of another and as large is the same set. */
  lemma SubsetOfSameSize(a: set<string>, b: set<string>)
    requires a <= b && |a| == |b|
    ensures a == b
  {
    if a != b {
      var x :| x in b && x !in a;
      SubsetSize(a, b - {x});
    }
  }

  /** With distinct links, "toggle all" is all-or-nothing: it clears exactly
      when every link is already selected, and otherwise selects them all. */
  lemma ToggleAllIsAllOrNothing(sel: set<string>, qs: seq<QuestionDto>)
    requires sel <= LinkSet(qs) && DistinctLinks(qs)
    ensures sel == LinkSet(qs) ==> ToggleAllLinks(sel, qs) == {}
    ensures sel != LinkSet(qs) ==> ToggleAllLinks(sel, qs) == LinkSet(qs)
  {
    LinkSetSize(qs);
    if |sel| == |qs| {
      SubsetOfSameSize(sel, LinkSet(qs));
    }
  }

  /** When two questions share a link, the selection can never be as large as
      the list, so "toggle all" always selects everything and never clears. */
  lemma ToggleAllWithRepeatedLinks(sel: set<string>, qs: seq<QuestionDto>)
    requires sel <= LinkSet(qs) && !DistinctLinks(qs)
    ensures ToggleAllLinks(sel, qs) == LinkSet(qs)
  {
    LinkSetSize(qs);
    SubsetSize(sel, LinkSet(qs));
  }

  /** The links of a page belong to the list. */
  lemma PageLinksInList(qs: seq<QuestionDto>, p: int)
    ensures Elems(LinksOf(PageItems(qs, p))) <= LinkSet(qs)
  {
    var page := PageItems(qs, p);
    forall l | l in Elems(LinksOf(page))
      ensures l in LinkSet(qs)
    {
      var i :| 0 <= i < |page| && LinksOf(page)[i] == l;
      assert page[i] in qs;
    }
  }

  /** A worked example: with twelve distinct questions and
      nothing selected, toggling page 3 selects its two questions, and
      "toggle all" then selects all twelve. */
  lemma TwelveQuestionsExample(qs: seq<QuestionDto>)
    requires |qs| == 12 && DistinctLinks(qs)
    ensures |TogglePage({}, LinksOf(PageItems(qs, 3)))| == 2
    ensures |ToggleAllLinks(TogglePage({}, LinksOf(PageItems(qs, 3))), qs)| == 12
  {
    var pageLinks := LinksOf(PageItems(qs, 3));
    assert pageLinks == [qs[10].link, qs[11].link];
    assert !PageAllSelected(pageLinks, {}) by {
      assert pageLinks[0] !in {};
    }
    assert TogglePage({}, pageLinks) == {qs[10].link, qs[11].link};
    LinkSetSize(qs);
  }

  /** The previous-page control moves only when `p > 1`. */
  function PreviousPage(p: int): (r: int)
    ensures r == p || r == p - 1
    ensures r < p <==> p > 1
  {
    if p > 1 then p - 1 else p
  }

  /** The next-page control moves only when `p < total`. */
  function NextPage(p: int, total: nat): (r: int)
    ensures r == p || r == p + 1
    ensures r > p <==> p < total
  {
    if p < total then p + 1 else p
  }

  /** Starting on an existing page, the previous and next controls stay on an
      existing page, and each moves exactly when it is not at its end. */
  lemma NavigationStaysOnExistingPages(p: int, total: nat)
    requires 1 <= p <= total
    ensures 1 <= PreviousPage(p) <= total && 1 <= NextPage(p, total) <= total
    ensures PreviousPage(p) != p <==> p > 1
    ensures NextPage(p, total) != p <==> p < total
  {
  }

  /** The component's state: the question list it was mounted with, the
      selected links, the current page and the expanded descriptions. */
  class QuestionBrowser {
    const questions: seq<QuestionDto>
    const totalCount: int
    var selectedLinks: set<string>
    var currentPage: int
    var expandedQuestions: set<string>

    /** Every selected link is the link of a question of the list. */
    ghost predicate Valid()
      reads this
    {
      selectedLinks <= LinkSet(questions)
    }

    /** Mounting: nothing selected, page 1, nothing expanded. */
    constructor (questions: seq<QuestionDto>, totalCount: int)
      ensures Valid()
      ensures this.questions == questions && this.totalCount == totalCount
      ensures selectedLinks == {} && currentPage == 1 && expandedQuestions == {}
    {
      this.questions := questions;
      this.totalCount := totalCount;
      selectedLinks := {};
      currentPage := 1;
      expandedQuestions := {};
    }

    /** Mounting with a selection already in place (used only by the corrected
      back navigation of the workflow). */
    constructor Restore(questions: seq<QuestionDto>, totalCount: int, selected: set<string>)
      requires selected <= LinkSet(questions)
      ensures Valid()
      ensures this.questions == questions && this.totalCount == totalCount
      ensures selectedLinks == selected && currentPage == 1 && expandedQuestions == {}
    {
      this.questions := questions;
      this.totalCount := totalCount;
      selectedLinks := selected;
      currentPage := 1;
      expandedQuestions := {};
    }

    /** The questions of the current page. */
    function CurrentQuestions(): seq<QuestionDto>
      reads this
    {
      PageItems(questions, currentPage)
    }

    /** Toggles one question of the list and hands out the new selection. */
    method ToggleQuestion(q: QuestionDto) returns (emitted: seq<QuestionDto>)
      requires Valid() && q in questions
      modifies this
      ensures Valid()
      ensures selectedLinks == ToggleLink(old(selectedLinks), q.link)
      ensures currentPage == old(currentPage) && expandedQuestions == old(expandedQuestions)
      ensures emitted == SelectedInOrder(questions, selectedLinks)
    {
      var newSelected := selectedLinks;
      if q.link in newSelected {
        newSelected := newSelected - {q.link};
      } else {
        newSelected := newSelected + {q.link};
      }
      selectedLinks := newSelected;
      emitted := SelectedInOrder(questions, newSelected);
    }

    /** Shows or hides the full description of one question; the selection
      is untouched and nothing is handed out. */
    method ToggleExpand(link: string)
      requires Valid()
      modifies this
      ensures Valid()
      ensures expandedQuestions == ToggleLink(old(expandedQuestions), link)
      ensures selectedLinks == old(selectedLinks) && currentPage == old(currentPage)
    {
      var newExpanded := expandedQuestions;
      if link in newExpanded {
        newExpanded := newExpanded - {link};
      } else {
        newExpanded := newExpanded + {link};
      }
      expandedQuestions := newExpanded;
    }

    /** Clears when the selection is as large as the list and hands out `[]`;
      otherwise selects every link and hands out the whole list. */
    method ToggleAll() returns (emitted: seq<QuestionDto>)
      requires Valid()
      modifies this
      ensures Valid()
      ensures selectedLinks == ToggleAllLinks(old(selectedLinks), questions)
      ensures currentPage == old(currentPage) && expandedQuestions == old(expandedQuestions)
      ensures emitted == SelectedInOrder(questions, selectedLinks)
    {
      SelectAllEmitsWholeList(questions);
      if |selectedLinks| == |questions| {
        selectedLinks := {};
        emitted := [];
      } else {
        selectedLinks := LinkSet(questions);
        emitted := questions;
      }
    }

    /** Removes the links of the current page one by one when all of them are
      selected, and adds them one by one otherwise; then hands out the new
      selection. */
    method ToggleCurrentPage() returns (emitted: seq<QuestionDto>)
      requires Valid()
      modifies this
      ensures Valid()
      ensures selectedLinks == TogglePage(old(selectedLinks), LinksOf(PageItems(questions, currentPage)))
      ensures currentPage == old(currentPage) && expandedQuestions == old(expandedQuestions)
      ensures emitted == SelectedInOrder(questions, selectedLinks)
    {
      var pageLinks := LinksOf(CurrentQuestions());
      var allCurrentSelected := PageAllSelected(pageLinks, selectedLinks);
      var newSelected := selectedLinks;
      var i := 0;
      while i < |pageLinks|
        invariant 0 <= i <= |pageLinks|
        invariant allCurrentSelected ==> newSelected == selectedLinks - Elems(pageLinks[..i])
        invariant !allCurrentSelected ==> newSelected == selectedLinks + Elems(pageLinks[..i])
      {
        assert Elems(pageLinks[..i + 1]) == Elems(pageLinks[..i]) + {pageLinks[i]} by {
          assert pageLinks[..i + 1] == pageLinks[..i] + [pageLinks[i]];
        }
        if allCurrentSelected {
          newSelected := newSelected - {pageLinks[i]};
        } else {
          newSelected := newSelected + {pageLinks[i]};
        }
        i := i + 1;
      }
      assert pageLinks[..i] == pageLinks;
      PageLinksInList(questions, currentPage);
      selectedLinks := newSelected;
      emitted := SelectedInOrder(questions, newSelected);
    }

    /** Moves to `page` as given; there is no clamping. */
    method GoToPage(page: int)
      requires Valid()
      modifies this
      ensures Valid()
      ensures currentPage == page
      ensures selectedLinks == old(selectedLinks) && expandedQuestions == old(expandedQuestions)
    {
      currentPage := page;
    }

    /** The previous-page control. */
    method GoToPrevious()
      requires Valid()
      modifies this
      ensures Valid()
      ensures currentPage == PreviousPage(old(currentPage))
      ensures selectedLinks == old(selectedLinks) && expandedQuestions == old(expandedQuestions)
    {
      if currentPage > 1 {
        GoToPage(currentPage - 1);
      }
    }

    /** The next-page control. */
    method GoToNext()
      requires Valid()
      modifies this
      ensures Valid()
      ensures currentPage == NextPage(old(currentPage), TotalPages(|questions|))
      ensures selectedLinks == old(selectedLinks) && expandedQuestions == old(expandedQuestions)
    {
      if currentPage < TotalPages(|questions|) {
        GoToPage(currentPage + 1);
      }
    }
  }
}
