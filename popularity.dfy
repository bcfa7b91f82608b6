/** Popularity ranking: a heuristic integer score per item (recency, source domain,
    title length, snippet length, keyword hits, a little random jitter) and the ranking
    that puts items dated inside the look-back window ahead of the rest.

    Foreign inputs are parameters: `parse` is `new Date(s).getTime()` (None for an
    invalid date), `hostname` is `new URL(s).hostname` (None when the constructor
    throws), `now` is the clock in milliseconds, and each `jitter` is one draw of
    `Math.random() * 5`. */
module Popularity {
  import opened Wrappers
  import opened JsString
  import opened JsArray
  import opened NewsItems

  /** Milliseconds in a day: `1000 * 60 * 60 * 24`. */
  const MsPerDay: int := 86400000

  /** The defaults of `getPopularArticles(items, count = 10, windowDays = 14)`. */
  const DefaultCount: int := 10
  const DefaultWindowDays: int := 14

  // ---------------------------------------------------------------------------
  // Arithmetic of the recency term (exact reals stand for the doubles)

  /** `Math.round`: the nearest integer, halves rounded towards +infinity. */
  function Round(x: real): (r: int)
    ensures r as real <= x + 0.5 < r as real + 1.0
  {
    (x + 0.5).Floor
  }

  lemma RoundMonotone(x: real, y: real)
    requires x <= y
    ensures Round(x) <= Round(y)
  {
  }

  function MinReal(a: real, b: real): real {
    if a <= b then a else b
  }

  function MaxInt(a: int, b: int): int {
    if a >= b then a else b
  }

  /** The recency term for an age of `diffMs` milliseconds: inside the window a boost
      falling from 25 towards 12, outside it a penalty capped at 15. */
  function RecencyTerm(diffMs: int, windowDays: int): int
    requires windowDays > 0
  {
    var d := diffMs as real / MsPerDay as real;
    var w := windowDays as real;
    if d <= w then MaxInt(12, Round(25.0 - MinReal(w, d) * (13.0 / w)))
    else -Round(MinReal(15.0, MinReal(90.0, d - w) * 0.5))
  }

  /** `a * c <= b * c` for `a <= b` and non-negative `c`. */
  lemma MulMonotone(a: real, b: real, c: real)
    requires a <= b && c >= 0.0
    ensures a * c <= b * c
  {
    assert b * c - a * c == (b - a) * c;
  }

  /** Ages from 0 to the window's length earn between 12 and 25. */
  lemma RecencyInWindow(diffMs: int, windowDays: int)
    requires windowDays > 0
    requires 0 <= diffMs <= windowDays * MsPerDay
    ensures 12 <= RecencyTerm(diffMs, windowDays) <= 25
  {
    var d := diffMs as real / MsPerDay as real;
    var w := windowDays as real;
    var c := 13.0 / w;
    assert d <= w by {
      assert (windowDays * MsPerDay) as real == w * MsPerDay as real;
    }
    MulMonotone(0.0, d, c);
    MulMonotone(d, w, c);
    assert w * c == 13.0;
    RoundMonotone(12.0, 25.0 - d * c);
    RoundMonotone(25.0 - d * c, 25.0);
  }

  /** A date in the future earns at least the full 25. */
  lemma RecencyFuture(diffMs: int, windowDays: int)
    requires windowDays > 0 && diffMs < 0
    ensures RecencyTerm(diffMs, windowDays) >= 25
  {
    var d := diffMs as real / MsPerDay as real;
    var c := 13.0 / windowDays as real;
    MulMonotone(d, 0.0, c);
    RoundMonotone(25.0, 25.0 - d * c);
  }

  /** Ages past the window cost between 0 and 15 points. */
  lemma RecencyOutOfWindow(diffMs: int, windowDays: int)
    requires windowDays > 0
    requires diffMs > windowDays * MsPerDay
    ensures -15 <= RecencyTerm(diffMs, windowDays) <= 0
  {
    var d := diffMs as real / MsPerDay as real;
    var w := windowDays as real;
    assert d > w by {
      assert (windowDays * MsPerDay) as real == w * MsPerDay as real;
    }
    var p := MinReal(15.0, MinReal(90.0, d - w) * 0.5);
    RoundMonotone(0.0, p);
    RoundMonotone(p, 15.0);
  }

  /** From 29 days past the window on, the penalty is the full 15. */
  lemma RecencyFullPenalty(diffMs: int, windowDays: int)
    requires windowDays > 0
    requires diffMs >= (windowDays + 29) * MsPerDay
    ensures RecencyTerm(diffMs, windowDays) == -15
  {
    var d := diffMs as real / MsPerDay as real;
    var w := windowDays as real;
    assert d >= w + 29.0 by {
      assert ((windowDays + 29) * MsPerDay) as real == (w + 29.0) * MsPerDay as real;
    }
    var p := MinReal(15.0, MinReal(90.0, d - w) * 0.5);
    assert 14.5 <= p <= 15.0;
    RoundMonotone(14.5, p);
    RoundMonotone(p, 15.0);
  }

  /** Inside the window the boost does not grow with age. */
  lemma BoostMonotone(da: real, db: real, w: real)
    requires 0.0 < w && da <= db <= w
    ensures MaxInt(12, Round(25.0 - MinReal(w, da) * (13.0 / w))) >= MaxInt(12, Round(25.0 - MinReal(w, db) * (13.0 / w)))
  {
    var c := 13.0 / w;
    MulMonotone(da, db, c);
    RoundMonotone(25.0 - db * c, 25.0 - da * c);
  }

  /** Past the window the penalty does not shrink with age. */
  lemma PenaltyMonotone(da: real, db: real, w: real)
    requires w < da <= db
    ensures Round(MinReal(15.0, MinReal(90.0, da - w) * 0.5)) <= Round(MinReal(15.0, MinReal(90.0, db - w) * 0.5))
  {
    RoundMonotone(MinReal(15.0, MinReal(90.0, da - w) * 0.5), MinReal(15.0, MinReal(90.0, db - w) * 0.5));
  }

  /** The older the item, the lower its recency term, across the window boundary too. */
  lemma RecencyMonotone(a: int, b: int, windowDays: int)
    requires windowDays > 0
    requires a <= b
    ensures RecencyTerm(a, windowDays) >= RecencyTerm(b, windowDays)
  {
    var da := a as real / MsPerDay as real;
    var db := b as real / MsPerDay as real;
    var w := windowDays as real;
    assert da <= db by {
      assert db - da == (b - a) as real / MsPerDay as real;
    }
    var pb := MinReal(15.0, MinReal(90.0, db - w) * 0.5);
    if db <= w {
      assert RecencyTerm(b, windowDays) == MaxInt(12, Round(25.0 - MinReal(w, db) * (13.0 / w)));
      BoostMonotone(da, db, w);
    } else if da <= w {
      assert RecencyTerm(b, windowDays) == -Round(pb);
      RoundMonotone(0.0, pb);
    } else {
      assert RecencyTerm(b, windowDays) == -Round(pb);
      PenaltyMonotone(da, db, w);
    }
  }

  // ---------------------------------------------------------------------------
  // Source-domain term

  /** Trust weights of known outlets; any other host scores 10. */
  const DomainScores: map<string, int> := map[
    "itmedia.co.jp" := 30,
    "gizmodo.jp" := 25,
    "engadget.com" := 25,
    "techcrunch.com" := 30,
    "cnet.com" := 25,
    "zdnet.com" := 25,
    "wired.com" := 30,
    "arstechnica.com" := 25,
    "theverge.com" := 30,
    "venturebeat.com" := 25,
    "techradar.com" := 20,
    "digitaltrends.com" := 20,
    "slashgear.com" := 15,
    "techspot.com" := 20,
    "k-tai.watch.impress.co.jp" := 20,
    "forest.watch.impress.co.jp" := 20,
    "jp.techcrunch.com" := 25,
    "news.google.com" := 15
  ]

  /** `hostname.replace(/^www\./, '')`: one leading "www." goes. */
  function StripWww(host: string): string {
    if StartsWith(host, "www.") then host[4..] else host
  }

  /** `getDomainFromUrl(url)`: the host without a leading "www.", or "" when the URL does
      not parse. `new URL(undefined)` parses the text "undefined". */
  function DomainFromUrl(url: Option<string>, hostname: string -> Option<string>): string {
    match hostname(StringOf(url))
    case None => ""
    case Some(h) => StripWww(h)
  }

  /** `getDomainPopularityScore(domain)`: `domainScores[domain] || 10`. */
  function DomainPopularityScore(domain: string): (r: int)
    ensures r == (if domain in DomainScores then DomainScores[domain] else 10)
    ensures 10 <= r <= 30
  {
    if domain in DomainScores && DomainScores[domain] != 0 then DomainScores[domain] else 10
  }

  /** A URL whose host does not parse earns the default 10; a host without a "www."
      prefix is looked up as it is, and one with the prefix as the rest of the host. */
  lemma DomainTermOfUrl(url: Option<string>, hostname: string -> Option<string>)
    ensures hostname(StringOf(url)).None? ==> DomainPopularityScore(DomainFromUrl(url, hostname)) == 10
    ensures forall h :: hostname(StringOf(url)) == Some(h) && !StartsWith(h, "www.") ==>
              DomainPopularityScore(DomainFromUrl(url, hostname)) == DomainPopularityScore(h)
    ensures forall h :: hostname(StringOf(url)) == Some("www." + h) ==>
              DomainPopularityScore(DomainFromUrl(url, hostname)) == DomainPopularityScore(h)
  {
    forall h | hostname(StringOf(url)) == Some("www." + h)
      ensures DomainPopularityScore(DomainFromUrl(url, hostname)) == DomainPopularityScore(h)
    {
      assert StartsWith("www." + h, "www.") && ("www." + h)[4..] == h;
    }
  }

  // ---------------------------------------------------------------------------
  // Length terms

  /** Title length term: 10 for 20..80 code units, 5 for the rest of 10..100, else 0. */
  function TitleTerm(len: nat): (r: int)
    ensures r == 10 <==> 20 <= len <= 80
    ensures r == 5 <==> (10 <= len < 20 || 80 < len <= 100)
    ensures r == 0 <==> (len < 10 || len > 100)
  {
    if len >= 20 && len <= 80 then 10
    else if len >= 10 && len <= 100 then 5
    else 0
  }

  /** Snippet length term: 15, 10, 5 or 0 at the thresholds 100, 50 and 20. */
  function ContentTerm(len: nat): (r: int)
    ensures r == 15 <==> len >= 100
    ensures r == 10 <==> 50 <= len < 100
    ensures r == 5 <==> 20 <= len < 50
    ensures r == 0 <==> len < 20
  {
    if len >= 100 then 15
    else if len >= 50 then 10
    else if len >= 20 then 5
    else 0
  }

  /** A longer snippet never scores less. */
  lemma ContentTermMonotone(a: nat, b: nat)
    requires a <= b
    ensures ContentTerm(a) <= ContentTerm(b)
  {
  }

  // ---------------------------------------------------------------------------
  // Keyword term

  /** A keyword's weight: always positive. */
  type Weight = w: int | w > 0 witness 10

  /** The keyword table, in declaration order (the order `Object.entries` walks it). */
  const PopularKeywords: seq<(string, Weight)> := [
    ("ai", 20), ("人工知能", 20), ("chatgpt", 25), ("gpt", 20), ("claude", 20), ("copilot", 20),
    ("生成ai", 25), ("機械学習", 20), ("ディープラーニング", 20), ("llm", 20),
    ("iphone", 15), ("android", 15), ("スマートフォン", 15), ("スマホ", 15),
    ("apple", 20), ("google", 20), ("microsoft", 20), ("amazon", 20),
    ("tesla", 20), ("spacex", 20), ("openai", 25), ("anthropic", 20),
    ("ゲーム", 10), ("game", 10), ("nintendo", 15), ("sony", 15), ("playstation", 15),
    ("xbox", 15), ("steam", 10), ("vr", 15), ("ar", 15), ("メタバース", 15),
    ("セキュリティ", 15), ("security", 15), ("ハッキング", 15), ("hacking", 15),
    ("暗号", 10), ("crypto", 10), ("blockchain", 15), ("bitcoin", 15),
    ("スタートアップ", 15), ("startup", 15), ("投資", 15), ("investment", 15),
    ("ipo", 20), ("資金調達", 15), ("funding", 15), ("exit", 15),
    ("クラウド", 15), ("cloud", 15), ("aws", 20), ("azure", 20), ("gcp", 20),
    ("インフラ", 10), ("infrastructure", 10), ("devops", 15)
  ]

  /** The points one table entry contributes to already lower-cased text. */
  function KeywordHit(lowerText: string, entry: (string, Weight)): int {
    if Includes(lowerText, Lower(entry.0)) then entry.1 else 0
  }

  /** The sum of the weights of the entries whose keyword occurs in `lowerText`. */
  function KeywordSum(lowerText: string, entries: seq<(string, Weight)>): int {
    if entries == [] then 0
    else KeywordSum(lowerText, entries[..|entries| - 1]) + KeywordHit(lowerText, entries[|entries| - 1])
  }

  /** Sum of all weights of a table. */
  function TotalWeight(entries: seq<(string, Weight)>): int {
    if entries == [] then 0 else TotalWeight(entries[..|entries| - 1]) + entries[|entries| - 1].1
  }

  /** `getKeywordPopularityScore(text)`: one pass over the table, adding each hit. */
  method GetKeywordPopularityScore(text: string) returns (score: int)
    ensures score == KeywordSum(Lower(text), PopularKeywords)
  {
    var lowerText := Lower(text);
    score := 0;
    for i := 0 to |PopularKeywords|
      invariant score == KeywordSum(lowerText, PopularKeywords[..i])
    {
      var entry := PopularKeywords[i];
      if Includes(lowerText, Lower(entry.0)) {
        score := score + entry.1;
      }
      assert PopularKeywords[..i + 1][..i] == PopularKeywords[..i];
    }
    assert PopularKeywords[..|PopularKeywords|] == PopularKeywords;
  }

  /** Each entry counts at most once, so the term lies between 0 and the table's total. */
  lemma {:induction false} KeywordSumBounds(lowerText: string, entries: seq<(string, Weight)>)
    ensures 0 <= KeywordSum(lowerText, entries) <= TotalWeight(entries)
  {
    if entries != [] {
      KeywordSumBounds(lowerText, entries[..|entries| - 1]);
    }
  }

  /** Appending text never lowers the keyword term. */
  lemma {:induction false} KeywordSumMonotone(text: string, more: string, entries: seq<(string, Weight)>)
    ensures KeywordSum(Lower(text), entries) <= KeywordSum(Lower(text + more), entries)
  {
    if entries != [] {
      KeywordSumMonotone(text, more, entries[..|entries| - 1]);
      var e := entries[|entries| - 1];
      var longer := Lower(text + more);
      LowerConcat(text, more);
      if Includes(Lower(text), Lower(e.0)) {
        IncludesExtend(Lower(text), [], Lower(more), Lower(e.0));
        assert [] + Lower(text) + Lower(more) == longer;
      }
      assert KeywordHit(Lower(text), e) <= KeywordHit(longer, e);
    }
  }

  // ---------------------------------------------------------------------------
  // The score of one item

  /** `new Date(item.pubDate).getTime()`, None for an invalid date (`new Date(undefined)` is invalid). */
  function PubTime(item: RssItem, parse: string -> Option<int>): Option<int> {
    match PubDate(item)
    case None => None
    case Some(s) => parse(s)
  }

  /** `now - (isNaN(t) ? 0 : t)`: an unparseable date is measured from the epoch. */
  function DiffMs(item: RssItem, now: int, parse: string -> Option<int>): int {
    match PubTime(item, parse)
    case None => now
    case Some(t) => now - t
  }

  /** `item.title?.length || 0`, in UTF-16 code units. */
  function TitleLength(item: RssItem): nat {
    match Title(item)
    case None => 0
    case Some(t) => Utf16Length(t)
  }

  /** `item.contentSnippet?.length || 0`. */
  function SnippetLength(item: RssItem): nat {
    match ContentSnippet(item)
    case None => 0
    case Some(s) => Utf16Length(s)
  }

  /** `item.title + ' ' + item.contentSnippet`; a missing field reads "undefined". */
  function KeywordText(item: RssItem): string {
    StringOf(Title(item)) + " " + StringOf(ContentSnippet(item))
  }

  /** The score before jitter: the sum of the five terms. */
  function BaseScore(item: RssItem, windowDays: int, now: int,
                     parse: string -> Option<int>, hostname: string -> Option<string>): int
    requires windowDays > 0
  {
    RecencyTerm(DiffMs(item, now, parse), windowDays)
    + DomainPopularityScore(DomainFromUrl(Link(item), hostname))
    + TitleTerm(TitleLength(item))
    + ContentTerm(SnippetLength(item))
    + KeywordSum(Lower(KeywordText(item)), PopularKeywords)
  }

  /** `Math.round(score)` once the jitter has been added. */
  function PopularityScore(item: RssItem, windowDays: int, now: int, jitter: real,
                           parse: string -> Option<int>, hostname: string -> Option<string>): int
    requires windowDays > 0
  {
    Round(BaseScore(item, windowDays, now, parse, hostname) as real + jitter)
  }

  /** The jitter moves the score up by 0 to 5 points, never down. */
  lemma JitterBounded(item: RssItem, windowDays: int, now: int, jitter: real,
                      parse: string -> Option<int>, hostname: string -> Option<string>)
    requires windowDays > 0
    requires 0.0 <= jitter < 5.0
    ensures var base := BaseScore(item, windowDays, now, parse, hostname);
            base <= PopularityScore(item, windowDays, now, jitter, parse, hostname) <= base + 5
  {
  }

  /** An item whose date does not parse is aged from the epoch: with a present-day clock
      it takes the full out-of-window penalty rather than counting as new. */
  lemma UnparseableDatePenalised(item: RssItem, windowDays: int, now: int, parse: string -> Option<int>)
    requires windowDays > 0
    requires PubTime(item, parse).None?
    requires now >= (windowDays + 29) * MsPerDay
    ensures RecencyTerm(DiffMs(item, now, parse), windowDays) == -15
  {
    RecencyFullPenalty(now, windowDays);
  }

  /** `calculatePopularityScore(item, windowDays)`, accumulating the terms in the source's order. */
  method CalculatePopularityScore(item: RssItem, windowDays: int, now: int, jitter: real,
                                  parse: string -> Option<int>, hostname: string -> Option<string>)
    returns (score: int)
    requires windowDays > 0
    requires 0.0 <= jitter < 5.0
    ensures score == PopularityScore(item, windowDays, now, jitter, parse, hostname)
  {
    var acc: real := 0.0;
    acc := acc + RecencyTerm(DiffMs(item, now, parse), windowDays) as real;
    var domainScore := DomainPopularityScore(DomainFromUrl(Link(item), hostname));
    acc := acc + domainScore as real;
    acc := acc + TitleTerm(TitleLength(item)) as real;
    acc := acc + ContentTerm(SnippetLength(item)) as real;
    var keywordScore := GetKeywordPopularityScore(KeywordText(item));
    acc := acc + keywordScore as real;
    acc := acc + jitter;
    score := Round(acc);
  }

  // ---------------------------------------------------------------------------
  // Ranking

  /** `{ ...item, popularityScore }`. */
  datatype Scored = Scored(item: RssItem, popularityScore: int)

  function ScoreKey(s: Scored): int {
    s.popularityScore
  }

  function ItemOf(s: Scored): RssItem {
    s.item
  }

  /** Dated at or after the cutoff: `!isNaN(t) && t >= cutoff`. */
  predicate InWindow(item: RssItem, cutoff: int, parse: string -> Option<int>) {
    var t := PubTime(item, parse);
    t.Some? && t.value >= cutoff
  }

  /** `now - windowDays * 24 * 60 * 60 * 1000`. */
  function Cutoff(now: int, windowDays: int): int {
    now - windowDays * MsPerDay
  }

  /** In-window items and the others, each in input order. */
  function Partition(items: seq<RssItem>, cutoff: int, parse: string -> Option<int>)
    : (r: (seq<RssItem>, seq<RssItem>))
    ensures |r.0| + |r.1| == |items|
    ensures multiset(r.0) + multiset(r.1) == multiset(items)
    ensures forall k :: 0 <= k < |r.0| ==> InWindow(r.0[k], cutoff, parse)
    ensures forall k :: 0 <= k < |r.1| ==> !InWindow(r.1[k], cutoff, parse)
  {
    if items == [] then ([], [])
    else
      var rest := Partition(items[..|items| - 1], cutoff, parse);
      var x := items[|items| - 1];
      assert items == items[..|items| - 1] + [x];
      if InWindow(x, cutoff, parse) then (rest.0 + [x], rest.1) else (rest.0, rest.1 + [x])
  }

  /** The score of an item under a given jitter, for a fixed clock and window. */
  function Scorer(windowDays: int, now: int, parse: string -> Option<int>, hostname: string -> Option<string>)
    : (RssItem, real) -> int
    requires windowDays > 0
  {
    (x: RssItem, jitter: real) => PopularityScore(x, windowDays, now, jitter, parse, hostname)
  }

  /** Every item scored, with the i-th jitter for the i-th item. */
  function ScoreAll(xs: seq<RssItem>, js: seq<real>, score: (RssItem, real) -> int): (r: seq<Scored>)
    requires |js| == |xs|
    ensures |r| == |xs|
    ensures forall k :: 0 <= k < |xs| ==> r[k] == Scored(xs[k], score(xs[k], js[k]))
  {
    if xs == [] then []
    else
      var n := |xs| - 1;
      ScoreAll(xs[..n], js[..n], score) + [Scored(xs[n], score(xs[n], js[n]))]
  }

  lemma ScoreAllSnoc(xs: seq<RssItem>, js: seq<real>, score: (RssItem, real) -> int, i: nat)
    requires |js| == |xs| && i < |xs|
    ensures ScoreAll(xs[..i + 1], js[..i + 1], score) == ScoreAll(xs[..i], js[..i], score) + [Scored(xs[i], score(xs[i], js[i]))]
  {
    assert xs[..i + 1][..i] == xs[..i] && js[..i + 1][..i] == js[..i];
  }

  /** One group of the ranking: its items scored, then sorted by score, highest first. */
  function RankGroup(xs: seq<RssItem>, js: seq<real>, windowDays: int, now: int,
                     parse: string -> Option<int>, hostname: string -> Option<string>): seq<Scored>
    requires windowDays > 0 && |js| == |xs|
  {
    SortDesc(ScoreAll(xs, js, Scorer(windowDays, now, parse, hostname)), ScoreKey)
  }

  /** The ranking before truncation: in-window items sorted by score, then the others
      sorted by score. `Math.random` is drawn for the in-window items first. */
  function Ranked(items: seq<RssItem>, windowDays: int, now: int, jitters: seq<real>,
                  parse: string -> Option<int>, hostname: string -> Option<string>): seq<Scored>
    requires windowDays > 0 && |jitters| == |items|
  {
    var p := Partition(items, Cutoff(now, windowDays), parse);
    RankGroup(p.0, jitters[..|p.0|], windowDays, now, parse, hostname)
    + RankGroup(p.1, jitters[|p.0|..], windowDays, now, parse, hostname)
  }

  predicate JittersInRange(jitters: seq<real>) {
    forall k :: 0 <= k < |jitters| ==> 0.0 <= jitters[k] < 5.0
  }

  /** No out-of-window item comes before an in-window one. */
  predicate WindowFirst(r: seq<Scored>, cutoff: int, parse: string -> Option<int>) {
    forall i, j :: 0 <= i < j < |r| && InWindow(r[j].item, cutoff, parse) ==> InWindow(r[i].item, cutoff, parse)
  }

  /** Scores never rise within the in-window group, nor within the other group. */
  predicate GroupsSorted(r: seq<Scored>, cutoff: int, parse: string -> Option<int>) {
    forall i, j :: 0 <= i < j < |r| && InWindow(r[i].item, cutoff, parse) == InWindow(r[j].item, cutoff, parse)
      ==> r[i].popularityScore >= r[j].popularityScore
  }

  /** Every score is its item's base score plus 0 to 5 points of jitter. */
  predicate ScoresNear(r: seq<Scored>, windowDays: int, now: int,
                       parse: string -> Option<int>, hostname: string -> Option<string>)
    requires windowDays > 0
  {
    forall i :: 0 <= i < |r| ==>
      BaseScore(r[i].item, windowDays, now, parse, hostname) <= r[i].popularityScore
      <= BaseScore(r[i].item, windowDays, now, parse, hostname) + 5
  }

  /** Every entry is one of the input items. */
  predicate FromItems(r: seq<Scored>, items: seq<RssItem>) {
    forall i :: 0 <= i < |r| ==> r[i].item in items
  }

  /** One sorted group: sorted by score, drawn from its items, each score near its base. */
  lemma SortedGroup(xs: seq<RssItem>, js: seq<real>, windowDays: int, now: int,
                    parse: string -> Option<int>, hostname: string -> Option<string>)
    requires windowDays > 0 && |js| == |xs| && JittersInRange(js)
    ensures var g := RankGroup(xs, js, windowDays, now, parse, hostname);
            && |g| == |xs|
            && SortedDesc(g, ScoreKey)
            && FromItems(g, xs)
            && ScoresNear(g, windowDays, now, parse, hostname)
  {
    var s := ScoreAll(xs, js, Scorer(windowDays, now, parse, hostname));
    var g := SortDesc(s, ScoreKey);
    forall i | 0 <= i < |g|
      ensures g[i].item in xs
      ensures BaseScore(g[i].item, windowDays, now, parse, hostname) <= g[i].popularityScore
              <= BaseScore(g[i].item, windowDays, now, parse, hostname) + 5
    {
      assert g[i] in multiset(s);
      var k :| 0 <= k < |s| && s[k] == g[i];
      JitterBounded(xs[k], windowDays, now, js[k], parse, hostname);
    }
  }

  /** A group holds exactly its items, each once per occurrence. */
  lemma GroupItems(xs: seq<RssItem>, js: seq<real>, windowDays: int, now: int,
                   parse: string -> Option<int>, hostname: string -> Option<string>)
    requires windowDays > 0 && |js| == |xs|
    ensures multiset(MapSeq(RankGroup(xs, js, windowDays, now, parse, hostname), ItemOf)) == multiset(xs)
  {
    var s := ScoreAll(xs, js, Scorer(windowDays, now, parse, hostname));
    SortDescMapMultiset(s, ScoreKey, ItemOf);
    assert MapSeq(s, ItemOf) == xs;
  }

  /** What the ranking promises: window items first, scores non-increasing within each
      group, every entry an input item, and each score the item's base score plus at most
      5 of jitter. */
  lemma RankedOrder(items: seq<RssItem>, windowDays: int, now: int, jitters: seq<real>,
                    parse: string -> Option<int>, hostname: string -> Option<string>)
    requires windowDays > 0 && |jitters| == |items| && JittersInRange(jitters)
    ensures |Ranked(items, windowDays, now, jitters, parse, hostname)| == |items|
    ensures WindowFirst(Ranked(items, windowDays, now, jitters, parse, hostname), Cutoff(now, windowDays), parse)
    ensures GroupsSorted(Ranked(items, windowDays, now, jitters, parse, hostname), Cutoff(now, windowDays), parse)
    ensures FromItems(Ranked(items, windowDays, now, jitters, parse, hostname), items)
    ensures ScoresNear(Ranked(items, windowDays, now, jitters, parse, hostname), windowDays, now, parse, hostname)
  {
    var cutoff := Cutoff(now, windowDays);
    var p := Partition(items, cutoff, parse);
    var jin, jout := jitters[..|p.0|], jitters[|p.0|..];
    assert JittersInRange(jin) && JittersInRange(jout);
    var a := RankGroup(p.0, jin, windowDays, now, parse, hostname);
    var b := RankGroup(p.1, jout, windowDays, now, parse, hostname);
    SortedGroup(p.0, jin, windowDays, now, parse, hostname);
    SortedGroup(p.1, jout, windowDays, now, parse, hostname);
    ConcatGroups(a, b, p.0, p.1, items, windowDays, now, parse, hostname);
  }

  /** Gluing an in-window group and an out-of-window group, each sorted. */
  lemma ConcatGroups(a: seq<Scored>, b: seq<Scored>, xa: seq<RssItem>, xb: seq<RssItem>, items: seq<RssItem>,
                     windowDays: int, now: int, parse: string -> Option<int>, hostname: string -> Option<string>)
    requires windowDays > 0
    requires forall k :: 0 <= k < |xa| ==> InWindow(xa[k], Cutoff(now, windowDays), parse)
    requires forall k :: 0 <= k < |xb| ==> !InWindow(xb[k], Cutoff(now, windowDays), parse)
    requires multiset(xa) + multiset(xb) == multiset(items)
    requires SortedDesc(a, ScoreKey) && FromItems(a, xa) && ScoresNear(a, windowDays, now, parse, hostname)
    requires SortedDesc(b, ScoreKey) && FromItems(b, xb) && ScoresNear(b, windowDays, now, parse, hostname)
    ensures WindowFirst(a + b, Cutoff(now, windowDays), parse) && GroupsSorted(a + b, Cutoff(now, windowDays), parse)
    ensures FromItems(a + b, items) && ScoresNear(a + b, windowDays, now, parse, hostname)
  {
    var cutoff := Cutoff(now, windowDays);
    var r := a + b;
    forall i | 0 <= i < |r|
      ensures i < |a| ==> r[i] == a[i] && InWindow(r[i].item, cutoff, parse)
      ensures i >= |a| ==> r[i] == b[i - |a|] && !InWindow(r[i].item, cutoff, parse)
      ensures r[i].item in items
    {
      if i < |a| {
        assert r[i] == a[i];
        var k :| 0 <= k < |xa| && xa[k] == a[i].item;
        assert a[i].item in multiset(items);
      } else {
        assert r[i] == b[i - |a|];
        var k :| 0 <= k < |xb| && xb[k] == b[i - |a|].item;
        assert b[i - |a|].item in multiset(items);
      }
    }
    assert GroupsSorted(r, cutoff, parse) by {
      forall i, j | 0 <= i < j < |r| && InWindow(r[i].item, cutoff, parse) == InWindow(r[j].item, cutoff, parse)
        ensures r[i].popularityScore >= r[j].popularityScore
      {
        if j < |a| {
          assert ScoreKey(a[i]) >= ScoreKey(a[j]);
        } else {
          assert ScoreKey(b[i - |a|]) >= ScoreKey(b[j - |a|]);
        }
      }
    }
  }

  /** Truncation keeps every one of these properties. */
  lemma PrefixKeeps(r: seq<Scored>, n: nat, items: seq<RssItem>, windowDays: int, now: int,
                    parse: string -> Option<int>, hostname: string -> Option<string>)
    requires windowDays > 0 && n <= |r|
    requires WindowFirst(r, Cutoff(now, windowDays), parse) && GroupsSorted(r, Cutoff(now, windowDays), parse)
    requires FromItems(r, items) && ScoresNear(r, windowDays, now, parse, hostname)
    ensures WindowFirst(r[..n], Cutoff(now, windowDays), parse) && GroupsSorted(r[..n], Cutoff(now, windowDays), parse)
    ensures FromItems(r[..n], items) && ScoresNear(r[..n], windowDays, now, parse, hostname)
  {
  }

  /** What `getPopularArticles` returns keeps the ranking's promises: window items first,
      scores non-increasing within each group, every entry an input item, every score its
      item's base score plus at most 5. */
  lemma PopularArticlesOrder(items: seq<RssItem>, count: int, windowDays: int, now: int, jitters: seq<real>,
                             parse: string -> Option<int>, hostname: string -> Option<string>)
    requires windowDays > 0 && |jitters| == |items| && JittersInRange(jitters)
    ensures var r := SliceTo(Ranked(items, windowDays, now, jitters, parse, hostname), count);
            && WindowFirst(r, Cutoff(now, windowDays), parse) && GroupsSorted(r, Cutoff(now, windowDays), parse)
            && FromItems(r, items) && ScoresNear(r, windowDays, now, parse, hostname)
  {
    var ranked := Ranked(items, windowDays, now, jitters, parse, hostname);
    RankedOrder(items, windowDays, now, jitters, parse, hostname);
    PrefixKeeps(ranked, |SliceTo(ranked, count)|, items, windowDays, now, parse, hostname);
  }

  /** Before truncation the ranking holds every input item exactly as often as the input does. */
  lemma RankedPermutation(items: seq<RssItem>, windowDays: int, now: int, jitters: seq<real>,
                          parse: string -> Option<int>, hostname: string -> Option<string>)
    requires windowDays > 0 && |jitters| == |items|
    ensures multiset(MapSeq(Ranked(items, windowDays, now, jitters, parse, hostname), ItemOf)) == multiset(items)
  {
    var p := Partition(items, Cutoff(now, windowDays), parse);
    var a := RankGroup(p.0, jitters[..|p.0|], windowDays, now, parse, hostname);
    var b := RankGroup(p.1, jitters[|p.0|..], windowDays, now, parse, hostname);
    GroupItems(p.0, jitters[..|p.0|], windowDays, now, parse, hostname);
    GroupItems(p.1, jitters[|p.0|..], windowDays, now, parse, hostname);
    MapSeqConcat(a, b, ItemOf);
  }

  /** `inWindow.map(item => ({ ...item, popularityScore: calculatePopularityScore(item, windowDays) }))`. */
  method ScoreEach(xs: seq<RssItem>, js: seq<real>, windowDays: int, now: int,
                   parse: string -> Option<int>, hostname: string -> Option<string>)
    returns (scored: seq<Scored>)
    requires windowDays > 0 && |js| == |xs| && JittersInRange(js)
    ensures scored == ScoreAll(xs, js, Scorer(windowDays, now, parse, hostname))
  {
    var f := Scorer(windowDays, now, parse, hostname);
    scored := [];
    for i := 0 to |xs|
      invariant scored == ScoreAll(xs[..i], js[..i], f)
    {
      var s := CalculatePopularityScore(xs[i], windowDays, now, js[i], parse, hostname);
      ScoreAllSnoc(xs, js, f, i);
      scored := scored + [Scored(xs[i], s)];
    }
    assert xs[..|xs|] == xs && js[..|js|] == js;
  }

  /** The loop of `getPopularArticles` that sorts the items into the two groups. */
  method SplitByWindow(items: seq<RssItem>, cutoff: int, parse: string -> Option<int>)
    returns (inWindow: seq<RssItem>, outWindow: seq<RssItem>)
    ensures (inWindow, outWindow) == Partition(items, cutoff, parse)
  {
    inWindow, outWindow := [], [];
    for i := 0 to |items|
      invariant (inWindow, outWindow) == Partition(items[..i], cutoff, parse)
    {
      var t := PubTime(items[i], parse);
      if t.Some? && t.value >= cutoff {
        inWindow := inWindow + [items[i]];
      } else {
        outWindow := outWindow + [items[i]];
      }
      assert items[..i + 1][..i] == items[..i];
    }
    assert items[..|items|] == items;
  }

  /** `getPopularArticles(items, count, windowDays)`. */
  method GetPopularArticles(items: seq<RssItem>, count: int, windowDays: int, now: int, jitters: seq<real>,
                            parse: string -> Option<int>, hostname: string -> Option<string>)
    returns (r: seq<Scored>)
    requires windowDays > 0
    requires |jitters| == |items| && JittersInRange(jitters)
    ensures r == SliceTo(Ranked(items, windowDays, now, jitters, parse, hostname), count)
    ensures count >= 0 ==> |r| == (if count < |items| then count else |items|)
  {
    var cutoff := Cutoff(now, windowDays);
    var inWindow, outWindow := SplitByWindow(items, cutoff, parse);
    var jin, jout := jitters[..|inWindow|], jitters[|inWindow|..];
    assert JittersInRange(jin) && JittersInRange(jout);
    var scoreIn := ScoreEach(inWindow, jin, windowDays, now, parse, hostname);
    var scoreOut := ScoreEach(outWindow, jout, windowDays, now, parse, hostname);
    var merged := SortDesc(scoreIn, ScoreKey) + SortDesc(scoreOut, ScoreKey);
    assert SortDesc(scoreIn, ScoreKey) == RankGroup(inWindow, jin, windowDays, now, parse, hostname);
    assert SortDesc(scoreOut, ScoreKey) == RankGroup(outWindow, jout, windowDays, now, parse, hostname);
    assert merged == Ranked(items, windowDays, now, jitters, parse, hostname);
    r := SliceTo(merged, count);
  }

  /** The window test and the recency term agree: items inside the window earn at least 12,
      items outside (or undated, with a present-day clock) at most 0. */
  lemma WindowMatchesRecency(item: RssItem, windowDays: int, now: int, parse: string -> Option<int>)
    requires windowDays > 0
    ensures InWindow(item, Cutoff(now, windowDays), parse) ==> RecencyTerm(DiffMs(item, now, parse), windowDays) >= 12
    ensures (!InWindow(item, Cutoff(now, windowDays), parse) && now > windowDays * MsPerDay)
              ==> RecencyTerm(DiffMs(item, now, parse), windowDays) <= 0
  {
    var diff := DiffMs(item, now, parse);
    if InWindow(item, Cutoff(now, windowDays), parse) {
      if diff < 0 { RecencyFuture(diff, windowDays); } else { RecencyInWindow(diff, windowDays); }
    } else if now > windowDays * MsPerDay {
      RecencyOutOfWindow(diff, windowDays);
    }
  }
}
