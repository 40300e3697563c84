/** The news feed's client-side search (app/components/NewsFeed.tsx): the
    loaded links are filtered by a case-insensitive substring match on title
    and summary, the first remaining link is featured, and a footer counts
    them. Lower-casing is left to the parameter `lower`. */
module NewsFeed {
  import opened JsBuiltins

  /** One aggregated link (app/lib/types.ts). */
  datatype NewsLink = NewsLink(
    id: string,
    title: string,
    originalLink: string,
    promotionLink: string,
    ogImageUrl: Option<string>,
    summary: string,
    source: string,
    status: string,
    createdAt: string)

  datatype NewsLinksResponse = NewsLinksResponse(userId: string, total: int, links: seq<NewsLink>)

  /** The filter callback: an empty query keeps every link; otherwise the
      lower-cased title or summary must contain the lower-cased query. */
  predicate KeepsLink(link: NewsLink, query: string, lower: string -> string)
    ensures KeepsLink(link, query, lower) <==>
              || query == ""
              || (exists i :: OccursAt(lower(link.title), lower(query), i))
              || (exists i :: OccursAt(lower(link.summary), lower(query), i))
  {
    IncludesIff(lower(link.title), lower(query));
    IncludesIff(lower(link.summary), lower(query));
    if query == "" then true
    else
      var q := lower(query);
      Includes(lower(link.title), q) || Includes(lower(link.summary), q)
  }

  /** `data.links.filter(...)`. */
  function FilteredLinks(links: seq<NewsLink>, query: string, lower: string -> string): (r: seq<NewsLink>)
    ensures forall l :: l in r <==> l in links && KeepsLink(l, query, lower)
    ensures IsSubsequence(r, links)
  {
    Filter((l: NewsLink) => KeepsLink(l, query, lower), links)
  }

  /** An empty query keeps every link, in order. */
  lemma EmptyQueryKeepsAll(links: seq<NewsLink>, lower: string -> string)
    ensures FilteredLinks(links, "", lower) == links
  {
    FilterKeepsAll((l: NewsLink) => KeepsLink(l, "", lower), links);
  }

  /** One rendered list item: the link and whether it is the featured one. */
  datatype FeedItem = FeedItem(link: NewsLink, featured: bool)

  /** What the component renders: the spinner, the error panel, or the list
      (its items or the no-results message) with an optional footer count. */
  datatype FeedView =
    | LoadingView
    | ErrorView(message: string)
    | ListView(items: seq<FeedItem>, noResults: bool, footerCount: Option<nat>)

  const LoadErrorFallback: string := "일시적인 오류가 발생했습니다. 잠시 후 다시 시도해주세요."

  /** The component's render for the query state (`isLoading`, `error`,
      `data`) and the current search text. */
  function Render(isLoading: bool, error: Option<Thrown>, data: Option<NewsLinksResponse>,
                  query: string, lower: string -> string): (v: FeedView)
    ensures isLoading <==> v.LoadingView?
    ensures !isLoading && error.Some? ==> v == ErrorView(MessageOf(error.value, LoadErrorFallback))
    ensures !isLoading && error.None? ==> v.ListView?
    ensures v.ListView? ==>
              var shown := if data.Some? then FilteredLinks(data.value.links, query, lower) else [];
              && |v.items| == |shown|
              && (forall i :: 0 <= i < |shown| ==> v.items[i].link == shown[i])
              && (forall i :: 0 <= i < |v.items| ==> (v.items[i].featured <==> i == 0))
              && (v.noResults <==> shown == [])
              && (v.footerCount.Some? <==> shown != [])
              && (v.footerCount.Some? ==> v.footerCount.value == |shown|)
  {
    if isLoading then LoadingView
    else if error.Some? then ErrorView(MessageOf(error.value, LoadErrorFallback))
    else
      var shown := if data.Some? then FilteredLinks(data.value.links, query, lower) else [];
      var items := seq(|shown|, i requires 0 <= i < |shown| => FeedItem(shown[i], i == 0));
      if |shown| > 0 then ListView(items, false, Some(|shown|))
      else ListView([], true, None)
  }

  /** A non-empty query keeps a link exactly when its lower-cased title or
      summary contains the lower-cased query, and the list view shows exactly
      those links, the first one featured. */
  lemma ListViewShowsMatches(data: NewsLinksResponse, query: string, lower: string -> string, link: NewsLink)
    requires query != ""
    ensures var v := Render(false, None, Some(data), query, lower);
            v.ListView? &&
            ((exists i :: 0 <= i < |v.items| && v.items[i].link == link) <==>
             link in data.links &&
             (Includes(lower(link.title), lower(query)) || Includes(lower(link.summary), lower(query))))
  {
    var v := Render(false, None, Some(data), query, lower);
    var shown := FilteredLinks(data.links, query, lower);
    if link in shown {
      var i :| 0 <= i < |shown| && shown[i] == link;
      assert v.items[i].link == link;
    }
  }
}
