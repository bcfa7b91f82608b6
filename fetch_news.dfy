/** The ordering step of `fetchNews`: relevance keeps the feed's order, date sorts a
    copy newest first. Which source the items come from (mock file or live feeds) is
    I/O and enters as the `items` argument. */
module FetchNews {
  import opened Wrappers
  import opened JsArray
  import opened NewsItems

  /** `toTime(item)`: the parsed publication time, or 0 when it is missing, empty or
      does not parse. */
  function ToTime(item: RssItem, parse: string -> Option<int>): (t: int)
    ensures PubDate(item).None? ==> t == 0
    ensures PubDate(item).Some? && (PubDate(item).value == [] || parse(PubDate(item).value).None?) ==> t == 0
    ensures (PubDate(item).Some? && PubDate(item).value != [] && parse(PubDate(item).value).Some?)
              ==> t == parse(PubDate(item).value).value
  {
    match PubDate(item)
    case None => 0
    case Some(raw) =>
      if raw == [] then 0
      else
        match parse(raw)
        case None => 0
        case Some(t) => t
  }

  /** The sort key `toTime`, as a function value. */
  function TimeKey(parse: string -> Option<int>): RssItem -> int {
    x => ToTime(x, parse)
  }

  /** `opts.sort`: `"date"` or `"relevance"`. */
  datatype SortOrder = ByDate | ByRelevance

  /** `fetchNews`'s ordering: `sort ?? "date"`, then relevance as is, date by a stable
      descending sort on `toTime`. */
  function OrderNews(items: seq<RssItem>, sort: Option<SortOrder>, parse: string -> Option<int>): seq<RssItem> {
    if sort.GetOr(ByDate) == ByRelevance then items
    else SortDesc(items, TimeKey(parse))
  }

  /** Relevance passes the items through untouched. */
  lemma RelevanceKeepsOrder(items: seq<RssItem>, parse: string -> Option<int>)
    ensures OrderNews(items, Some(ByRelevance), parse) == items
  {
  }

  /** The date order (also the default) is a permutation, newest first, and items with
      equal times keep their feed order. */
  lemma DateOrder(items: seq<RssItem>, sort: Option<SortOrder>, parse: string -> Option<int>)
    requires sort != Some(ByRelevance)
    ensures var r := OrderNews(items, sort, parse);
            && multiset(r) == multiset(items)
            && (forall i, j :: 0 <= i < j < |r| ==> ToTime(r[i], parse) >= ToTime(r[j], parse))
            && (forall k :: KeyClass(r, TimeKey(parse), k) == KeyClass(items, TimeKey(parse), k))
  {
    var key := TimeKey(parse);
    forall k ensures KeyClass(SortDesc(items, key), key, k) == KeyClass(items, key, k) {
      SortDescStable(items, key, k);
    }
  }

  /** An item without a usable date never precedes one with a positive time. */
  lemma UndatedAfterDated(items: seq<RssItem>, parse: string -> Option<int>, i: int, j: int)
    requires 0 <= i < j < |items|
    requires ToTime(OrderNews(items, None, parse)[i], parse) == 0
    ensures ToTime(OrderNews(items, None, parse)[j], parse) <= 0
  {
    DateOrder(items, None, parse);
  }
}
