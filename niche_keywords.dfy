/** The niche keyword catalogue (src/data/nicheKeywords.ts): a constant
    table and four queries over it. The table is a value, so every query
    works on it without changing it. Lower-casing is left to the parameter
    `lower`. */
module NicheKeywords {
  import opened JsBuiltins

  datatype Competition = Low | Medium | High

  datatype NicheKeyword = NicheKeyword(
    keyword: string,
    searchVolume: int,
    competition: Competition,
    priority: int,
    seoTitle: string,
    seoDescription: string,
    relatedKeywords: seq<string>,
    serviceContext: string)

  /** `nicheKeywords`. */
  const Table: seq<NicheKeyword> := [
    NicheKeyword(
      "네이버 지식인 자동화", 800, Low, 10,
      "네이버 지식iN 자동화 도구 | AI 답변 등록 시스템",
      "네이버 지식iN 질문에 AI가 자동으로 답변을 생성하고 등록합니다. 효율적인 지식인 자동화로 시간을 절약하세요.",
      ["지식인 답변 자동화", "네이버 자동 답변", "AI 답변 도구"],
      "이런 작업을 효율화하고 싶으시다면, AI 기반 자동 답변 시스템을 활용해보세요. 질문 검색부터 답변 등록까지 자동화할 수 있습니다."),
    NicheKeyword(
      "지식인 답변 대행", 600, Low, 9,
      "지식iN 답변 대행 서비스 | AI 자동 답변 등록",
      "AI가 네이버 지식iN 답변을 대신 작성하고 등록해드립니다. 전문적인 답변으로 채택률을 높이세요.",
      ["지식인 답변 서비스", "네이버 답변 작성 대행", "AI 답변 대행"],
      "답변 작성이 부담스러우시다면, AI 답변 대행 시스템으로 자동화할 수 있습니다. OpenAI를 활용한 전문적인 답변 생성이 가능합니다."),
    NicheKeyword(
      "온라인 마케팅 자동화", 1200, Medium, 8,
      "온라인 마케팅 자동화 솔루션 | 네이버 지식iN 활용",
      "네이버 지식iN을 활용한 온라인 마케팅 자동화 전략. AI 답변으로 브랜드 노출과 유입을 증대시키세요.",
      ["디지털 마케팅 자동화", "네이버 마케팅 도구", "SNS 자동화"],
      "네이버 지식iN은 효과적인 온라인 마케팅 채널입니다. 자동 답변 시스템으로 지속적인 브랜드 노출을 만들 수 있습니다."),
    NicheKeyword(
      "부업 자동화", 900, Low, 7,
      "부업 자동화 도구 | 네이버 지식iN 수익 창출",
      "네이버 지식iN 답변으로 수익을 창출하세요. AI 자동화로 효율적인 부업 시스템을 구축할 수 있습니다.",
      ["자동 수익 시스템", "온라인 부업", "지식인 수익화"],
      "부업으로 지식iN 활동을 고려 중이시라면, 자동화 시스템으로 시간 대비 효율을 크게 높일 수 있습니다."),
    NicheKeyword(
      "AI 답변 생성기", 700, Medium, 8,
      "AI 답변 생성기 | 네이버 지식iN 전문 답변 작성",
      "OpenAI 기반 AI 답변 생성기로 네이버 지식iN 전문 답변을 자동으로 작성합니다. 높은 채택률과 신뢰도를 보장합니다.",
      ["GPT 답변 작성", "AI 자동 작성", "챗GPT 활용"],
      "전문적인 답변 작성이 어렵다면, AI 답변 생성기를 활용해보세요. OpenAI가 질문 맥락을 이해하고 최적화된 답변을 생성합니다."),
    NicheKeyword(
      "네이버 SEO 최적화", 1500, High, 6,
      "네이버 SEO 최적화 | 지식iN 답변으로 검색 노출 증대",
      "네이버 지식iN 답변을 활용한 SEO 최적화 전략. 니치 키워드 타겟팅으로 검색 노출을 극대화하세요.",
      ["네이버 검색 최적화", "지식인 SEO", "블로그 상위 노출"],
      "네이버 검색 노출을 높이려면 지식iN 활동이 효과적입니다. 자동화 시스템으로 꾸준한 콘텐츠 발행이 가능합니다."),
    NicheKeyword(
      "지식인 채택률 높이기", 500, Low, 7,
      "지식iN 채택률 높이는 방법 | AI 전문 답변 작성",
      "네이버 지식iN 채택률을 높이는 전략과 AI 답변 작성 팁. 전문적인 답변 구조와 키워드 최적화 방법을 안내합니다.",
      ["지식인 베스트 답변", "채택 잘되는 답변", "지식인 팁"],
      "채택률을 높이려면 답변 품질이 중요합니다. AI 시스템은 구조화된 전문 답변으로 채택 가능성을 높입니다."),
    NicheKeyword(
      "콘텐츠 마케팅 도구", 1000, Medium, 6,
      "콘텐츠 마케팅 자동화 도구 | 네이버 지식iN AI 시스템",
      "AI 기반 콘텐츠 마케팅 도구로 네이버 지식iN 답변을 자동화하세요. 지속적인 브랜드 콘텐츠 발행이 가능합니다.",
      ["콘텐츠 자동화", "마케팅 자동화 툴", "AI 마케팅"],
      "콘텐츠 마케팅을 효율화하려면 자동화가 필수입니다. 지식iN 답변을 통해 자연스러운 브랜드 노출을 만들 수 있습니다.")
  ]

  /** Every entry has a priority from 1 to 10. */
  lemma TablePrioritiesInRange()
    ensures forall k :: k in Table ==> 1 <= k.priority <= 10
  {
  }

  /** `getKeywordByName`: the first entry whose keyword is exactly `name`. */
  function GetKeywordByName(name: string): (r: Option<NicheKeyword>)
    ensures r.Some? ==> r.value.keyword == name
    ensures r.Some? ==> exists i :: 0 <= i < |Table| && Table[i] == r.value &&
                                    forall j :: 0 <= j < i ==> Table[j].keyword != name
    ensures r.None? <==> forall k :: k in Table ==> k.keyword != name
  {
    Find((k: NicheKeyword) => k.keyword == name, Table)
  }

  /** The entries are ordered by non-increasing priority. */
  predicate ByPriority(s: seq<NicheKeyword>)
  {
    forall i, j :: 0 <= i < j < |s| ==> s[i].priority >= s[j].priority
  }

  /** Inserts `k` into a list ordered by priority, ahead of the first entry
      whose priority is not higher than its own. */
  function InsertByPriority(k: NicheKeyword, t: seq<NicheKeyword>): (r: seq<NicheKeyword>)
    ensures |r| == |t| + 1
    ensures multiset(r) == multiset(t) + multiset{k}
    ensures r[0] == k || (t != [] && r[0] == t[0])
  {
    if t == [] || k.priority >= t[0].priority then [k] + t
    else
      assert t == [t[0]] + t[1..];
      [t[0]] + InsertByPriority(k, t[1..])
  }

  /** Inserting into a list ordered by priority keeps it ordered. */
  lemma {:induction false} InsertKeepsOrder(k: NicheKeyword, t: seq<NicheKeyword>)
    requires ByPriority(t)
    ensures ByPriority(InsertByPriority(k, t))
  {
    if t != [] && k.priority < t[0].priority {
      var tail := t[1..];
      assert ByPriority(tail) by {
        forall i, j | 0 <= i < j < |tail|
          ensures tail[i].priority >= tail[j].priority
        {
          assert tail[i] == t[i + 1] && tail[j] == t[j + 1];
        }
      }
      InsertKeepsOrder(k, tail);
      var rest := InsertByPriority(k, tail);
      var r := [t[0]] + rest;
      assert rest[0].priority <= t[0].priority by {
        if tail != [] { assert tail[0] == t[1]; }
      }
      forall i, j | 0 <= i < j < |r|
        ensures r[i].priority >= r[j].priority
      {
        assert r[j] == rest[j - 1];
        if i > 0 {
          assert r[i] == rest[i - 1];
        } else if j > 1 {
          assert rest[0].priority >= rest[j - 1].priority;
        }
      }
    }
  }

  /** `[...table].sort((a, b) => b.priority - a.priority)`: a stable sort by
      descending priority, so entries of equal priority keep table order. */
  function SortByPriority(s: seq<NicheKeyword>): (r: seq<NicheKeyword>)
    ensures multiset(r) == multiset(s)
    ensures ByPriority(r)
  {
    if s == [] then []
    else
      assert s == [s[0]] + s[1..];
      InsertKeepsOrder(s[0], SortByPriority(s[1..]));
      InsertByPriority(s[0], SortByPriority(s[1..]))
  }

  const DefaultTopLimit: int := 5

  /** `[...table].sort(...).slice(0, limit)`, for any table. */
  function TopByPriority(table: seq<NicheKeyword>, limit: int): (r: seq<NicheKeyword>)
    ensures |r| <= |table|
    ensures forall x :: x in r ==> x in table
  {
    var sorted := SortByPriority(table);
    assert |multiset(sorted)| == |multiset(table)|;
    assert forall x :: x in sorted ==> x in multiset(sorted);
    Slice(sorted, 0, limit)
  }

  /** `getTopKeywords(limit = 5)`: `min(limit, 8)` entries for a non-negative
      limit, ordered by non-increasing priority, all from the table. */
  function GetTopKeywords(limit: int := DefaultTopLimit): (r: seq<NicheKeyword>)
    ensures 0 <= limit ==> |r| == Min(limit, |Table|)
    ensures ByPriority(r)
    ensures multiset(r) <= multiset(Table)
  {
    TopByPriorityIsTheBest(Table, limit);
    TopByPriority(Table, limit)
  }

  /** A prefix of a list ordered by priority outranks the rest of it. */
  lemma PrefixOutranksRest(sorted: seq<NicheKeyword>, m: nat)
    requires ByPriority(sorted) && m <= |sorted|
    ensures forall x, y :: x in sorted[..m] && y in sorted[m..] ==> y.priority <= x.priority
  {
    forall x, y | x in sorted[..m] && y in sorted[m..]
      ensures y.priority <= x.priority
    {
      var i :| 0 <= i < m && sorted[i] == x;
      var j :| 0 <= j < |sorted[m..]| && sorted[m..][j] == y;
      assert sorted[m..][j] == sorted[m + j];
    }
  }

  /** The top entries are the prefix of the sorted table that the slice's
      end index resolves to. */
  lemma TopIsSortedPrefix(table: seq<NicheKeyword>, limit: int)
    ensures |SortByPriority(table)| == |table|
    ensures TopByPriority(table, limit) == SortByPriority(table)[..RelativeIndex(limit, |table|)]
  {
    assert |multiset(SortByPriority(table))| == |multiset(table)|;
  }

  /** Cutting a list at `m` splits its entries between the prefix and the rest. */
  lemma PrefixRemainder(sorted: seq<NicheKeyword>, m: nat)
    requires m <= |sorted|
    ensures multiset(sorted[..m]) <= multiset(sorted)
    ensures multiset(sorted) - multiset(sorted[..m]) == multiset(sorted[m..])
  {
    assert sorted == sorted[..m] + sorted[m..];
  }

  /** A prefix of a list ordered by priority is ordered by priority. */
  lemma PrefixOrdered(sorted: seq<NicheKeyword>, m: nat)
    requires ByPriority(sorted) && m <= |sorted|
    ensures ByPriority(sorted[..m])
  {
    forall i, j | 0 <= i < j < m
      ensures sorted[..m][i].priority >= sorted[..m][j].priority
    {
      assert sorted[..m][i] == sorted[i] && sorted[..m][j] == sorted[j];
    }
  }

  /** The top entries of a table: at most `limit` of them (all of them when
      the table is shorter), ordered by non-increasing priority, all taken
      from the table, and none left out has a higher priority than one
      returned. */
  lemma TopByPriorityIsTheBest(table: seq<NicheKeyword>, limit: int)
    ensures 0 <= limit ==> |TopByPriority(table, limit)| == Min(limit, |table|)
    ensures ByPriority(TopByPriority(table, limit))
    ensures multiset(TopByPriority(table, limit)) <= multiset(table)
    ensures forall x, y :: x in TopByPriority(table, limit) &&
                           y in multiset(table) - multiset(TopByPriority(table, limit)) ==>
                           y.priority <= x.priority
  {
    var sorted := SortByPriority(table);
    TopIsSortedPrefix(table, limit);
    var m := RelativeIndex(limit, |sorted|);
    PrefixRemainder(sorted, m);
    PrefixOrdered(sorted, m);
    PrefixOutranksRest(sorted, m);
  }

  /** With the default limit, five of the eight entries are returned. */
  lemma DefaultTopKeywordsAreFive()
    ensures |GetTopKeywords()| == 5
  {
    TopByPriorityIsTheBest(Table, DefaultTopLimit);
  }

  /** `getKeywordsByCompetition`: exactly the entries of that competition
      level, in table order. */
  function GetKeywordsByCompetition(c: Competition): (r: seq<NicheKeyword>)
    ensures forall k :: k in r <==> k in Table && k.competition == c
    ensures IsSubsequence(r, Table)
  {
    Filter((k: NicheKeyword) => k.competition == c, Table)
  }

  /** The match rule of `searchKeywords`: the keyword or one of the related
      keywords contains the query as written, or the lower-cased SEO title
      contains the lower-cased query. */
  predicate MatchesQuery(k: NicheKeyword, query: string, lower: string -> string)
    ensures MatchesQuery(k, query, lower) <==>
              || (exists i :: OccursAt(k.keyword, query, i))
              || (exists j :: 0 <= j < |k.relatedKeywords| && Includes(k.relatedKeywords[j], query))
              || (exists i :: OccursAt(lower(k.seoTitle), lower(query), i))
  {
    IncludesIff(k.keyword, query);
    IncludesIff(lower(k.seoTitle), lower(query));
    || Includes(k.keyword, query)
    || AnyOf((rk: string) => Includes(rk, query), k.relatedKeywords)
    || Includes(lower(k.seoTitle), lower(query))
  }

  /** `searchKeywords`: the matching entries, in table order. */
  function SearchKeywords(query: string, lower: string -> string): (r: seq<NicheKeyword>)
    ensures forall k :: k in r <==> k in Table && MatchesQuery(k, query, lower)
    ensures IsSubsequence(r, Table)
  {
    Filter((k: NicheKeyword) => MatchesQuery(k, query, lower), Table)
  }

  /** The empty query matches every entry, whatever `lower` does. */
  lemma SearchEmptyQueryKeepsAll(lower: string -> string)
    ensures SearchKeywords("", lower) == Table
  {
    forall k | k in Table
      ensures MatchesQuery(k, "", lower)
    {
      assert Includes(k.keyword, "");
    }
    FilterKeepsAll((k: NicheKeyword) => MatchesQuery(k, "", lower), Table);
  }
}
