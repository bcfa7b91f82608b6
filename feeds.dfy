/** The list of extra RSS feeds: the entries of an environment setting, split on
    newlines and commas, trimmed, blanks dropped, followed by a fixed default list.
    Reading `process.env.EXTRA_RSS_FEEDS` is I/O; its value is the parameter `env`. */
module Feeds {
  import opened Wrappers
  import opened JsString
  import opened JsArray

  /** The default feeds, in source order, repetitions included. */
  const DefaultFeeds: seq<string> := [
    "https://rss.itmedia.co.jp/rss/2.0/itmedia_all.xml",
    "https://rss.itmedia.co.jp/rss/2.0/itmedia_enterprise.xml",
    "https://www.gizmodo.jp/index.xml",
    "https://k-tai.watch.impress.co.jp/rss/index.xml",
    "https://forest.watch.impress.co.jp/rss/index.xml",
    "https://www.gizmodo.jp/index.xml",
    "https://www.engadget.com/rss.xml",
    "https://jp.techcrunch.com/feed/",
    "https://www.cnet.com/rss/all/",
    "https://www.zdnet.com/news/rss.xml",
    "https://feeds.feedburner.com/TechCrunch",
    "https://www.wired.com/feed/rss",
    "https://feeds.arstechnica.com/arstechnica/index",
    "https://www.theverge.com/rss/index.xml",
    "https://feeds.feedburner.com/venturebeat/SZYF",
    "https://www.zdnet.com/news/rss.xml",
    "https://www.techradar.com/rss",
    "https://www.digitaltrends.com/feed/",
    "https://www.slashgear.com/feed/",
    "https://www.techspot.com/rss.xml"
  ]

  /** The separator class `/[\n,]/`. */
  predicate IsFeedSeparator(c: char) {
    c == '\n' || c == ','
  }

  /** `s.length > 0`. */
  predicate NonEmpty(s: string) {
    |s| > 0
  }

  /** `raw.split(/[\n,]/g).map(s => s.trim()).filter(s => s.length > 0)`. */
  function EnvFeeds(raw: string): seq<string> {
    Filter(MapSeq(Split(raw, IsFeedSeparator), Trim), NonEmpty)
  }

  /** `getExtraFeedUrls()`, with `EXTRA_RSS_FEEDS || ""` read from `env`. */
  function GetExtraFeedUrls(env: Option<string>): seq<string> {
    EnvFeeds(OrEmpty(env)) + DefaultFeeds
  }

  /** The pieces of a list that are not all white space. */
  function CountNonBlank(pieces: seq<string>): nat {
    if pieces == [] then 0 else (if AllWhite(pieces[0]) then 0 else 1) + CountNonBlank(pieces[1..])
  }

  /** Trimming and dropping empties keeps one entry per non-blank piece. */
  lemma {:induction false} KeptPieces(pieces: seq<string>)
    ensures |Filter(MapSeq(pieces, Trim), NonEmpty)| == CountNonBlank(pieces)
  {
    if pieces != [] {
      KeptPieces(pieces[1..]);
      TrimEmptyIffAllWhite(pieces[0]);
      assert MapSeq(pieces, Trim)[1..] == MapSeq(pieces[1..], Trim);
    }
  }

  /** Trimming never brings a separator back: a trimmed piece holds none. */
  lemma TrimKeepsNoSeparator(s: string)
    requires NoneWhere(s, IsFeedSeparator)
    ensures NoneWhere(Trim(s), IsFeedSeparator)
  {
    var i, j :| 0 <= i <= j <= |s| && Trim(s) == s[i..j] && AllWhite(s[..i]) && AllWhite(s[j..]);
    assert forall k :: 0 <= k < j - i ==> Trim(s)[k] == s[i + k];
  }

  /** An entry as the result holds it: non-empty, trimmed, without a separator. */
  predicate CleanEntry(s: string) {
    s != [] && Trimmed(s) && NoneWhere(s, IsFeedSeparator)
  }

  /** Trimming and dropping empties over separator-free pieces leaves clean entries. */
  lemma {:induction false} CleanEntries(pieces: seq<string>)
    requires forall m :: 0 <= m < |pieces| ==> NoneWhere(pieces[m], IsFeedSeparator)
    ensures forall k :: 0 <= k < |Filter(MapSeq(pieces, Trim), NonEmpty)| ==>
              CleanEntry(Filter(MapSeq(pieces, Trim), NonEmpty)[k])
  {
    if pieces != [] {
      CleanEntries(pieces[1..]);
      TrimKeepsNoSeparator(pieces[0]);
      var t := MapSeq(pieces, Trim);
      assert t[0] == Trim(pieces[0]) && t[1..] == MapSeq(pieces[1..], Trim);
      var rest := Filter(t[1..], NonEmpty);
      var head := if NonEmpty(t[0]) then [t[0]] else [];
      assert Filter(t, NonEmpty) == head + rest;
      assert forall e :: e in head ==> CleanEntry(e);
    }
  }

  /** The result is the environment entries followed by exactly the defaults, in order;
      the entries are trimmed, non-empty and hold no separator; there is one entry per
      non-blank piece of the setting. */
  lemma ExtraFeedsShape(env: Option<string>)
    ensures |GetExtraFeedUrls(env)| == CountNonBlank(Split(OrEmpty(env), IsFeedSeparator)) + |DefaultFeeds|
    ensures GetExtraFeedUrls(env)[|GetExtraFeedUrls(env)| - |DefaultFeeds|..] == DefaultFeeds
    ensures forall k :: 0 <= k < |GetExtraFeedUrls(env)| - |DefaultFeeds| ==> CleanEntry(GetExtraFeedUrls(env)[k])
  {
    var pieces := Split(OrEmpty(env), IsFeedSeparator);
    var e := EnvFeeds(OrEmpty(env));
    assert |e| == CountNonBlank(pieces) by {
      KeptPieces(pieces);
    }
    assert forall k :: 0 <= k < |e| ==> CleanEntry(e[k]) by {
      SplitPieces(OrEmpty(env), IsFeedSeparator);
      CleanEntries(pieces);
    }
    AppendParts(e, DefaultFeeds);
  }

  lemma AppendParts<T>(a: seq<T>, b: seq<T>)
    ensures |a + b| == |a| + |b|
    ensures (a + b)[|a + b| - |b|..] == b
    ensures forall k :: 0 <= k < |a| ==> (a + b)[k] == a[k]
  {
    assert (a + b)[|a|..] == b;
  }

  /** A separator in the setting splits its entries: those of the text before it, then
      those of the text after it. */
  lemma EntriesAtSeparator(a: string, c: char, b: string)
    requires IsFeedSeparator(c)
    ensures EnvFeeds(a + [c] + b) == EnvFeeds(a) + EnvFeeds(b)
  {
    SplitAtSeparator(a, c, b, IsFeedSeparator);
    MapSeqConcat(Split(a, IsFeedSeparator), Split(b, IsFeedSeparator), Trim);
    FilterConcat(MapSeq(Split(a, IsFeedSeparator), Trim), MapSeq(Split(b, IsFeedSeparator), Trim), NonEmpty);
  }

  /** Text without a separator is one entry, trimmed, or none when it is blank. */
  lemma EntryOfPiece(s: string)
    requires NoneWhere(s, IsFeedSeparator)
    ensures EnvFeeds(s) == (if Trim(s) == [] then [] else [Trim(s)])
  {
    SplitNoSeparator(s, IsFeedSeparator);
    assert MapSeq([s], Trim) == [Trim(s)];
    assert Filter([Trim(s)], NonEmpty) == (if Trim(s) == [] then [] else [Trim(s)]);
  }

  /** Two clean entries joined by a separator, such as "x.com,y.com", become exactly those
      two feeds in order, ahead of the defaults. */
  lemma TwoExtraFeeds(a: string, c: char, b: string)
    requires CleanEntry(a) && CleanEntry(b) && IsFeedSeparator(c)
    ensures GetExtraFeedUrls(Some(a + [c] + b)) == [a, b] + DefaultFeeds
  {
    assert EnvFeeds(a + [c] + b) == [a, b] by {
      EntriesAtSeparator(a, c, b);
      CleanPiece(a);
      CleanPiece(b);
    }
  }

  lemma CleanPiece(s: string)
    requires CleanEntry(s)
    ensures EnvFeeds(s) == [s]
  {
    EntryOfPiece(s);
    TrimFixpoint(s);
  }

  /** Without the setting, or with it empty, the result is just the defaults. */
  lemma UnsetEnvGivesDefaults(env: Option<string>)
    requires env.None? || env.value == []
    ensures GetExtraFeedUrls(env) == DefaultFeeds
  {
    assert OrEmpty(env) == [];
    assert Split([], IsFeedSeparator) == [""];
    assert Trim("") == "";
    assert MapSeq([""], Trim) == [""];
    assert Filter([""], NonEmpty) == [];
  }

  /** The defaults are 20 feeds; Gizmodo Japan and ZDNet each appear twice. */
  lemma DefaultFeedsRepeat()
    ensures |DefaultFeeds| == 20
    ensures DefaultFeeds[2] == DefaultFeeds[5] == "https://www.gizmodo.jp/index.xml"
    ensures DefaultFeeds[9] == DefaultFeeds[15] == "https://www.zdnet.com/news/rss.xml"
  {
  }
}
