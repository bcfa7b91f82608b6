/** The popular-news panel's split of the ranked items into a Japanese tab and an English
    tab, by whether the title or snippet holds a kana or CJK ideograph, and the ten-card cap
    on each tab. The tabs, the buttons and the cards themselves are rendering. */
module PopularNewsSection {
  import opened Wrappers
  import opened JsString
  import opened JsArray
  import opened NewsItems

  const MaxCards: int := 10

  /** The class `[\u3040-\u309F\u30A0-\u30FF\u4E00-\u9FAF]`: hiragana, katakana and the
      CJK unified ideographs up to U+9FAF. The ranges lie inside the Basic Multilingual
      Plane, so testing characters is the same as testing the UTF-16 code units the
      expression sees: a surrogate never falls in them. */
  predicate IsCjk(c: char) {
    ('\U{3040}' <= c <= '\U{309F}') || ('\U{30A0}' <= c <= '\U{30FF}') || ('\U{4E00}' <= c <= '\U{9FAF}')
  }

  /** `re.test(text)`. */
  predicate HasCjk(text: string) {
    exists i :: 0 <= i < |text| && IsCjk(text[i])
  }

  /** `${title || ""} ${contentSnippet || ""}`. */
  function ItemText(item: RssItem): string {
    OrEmpty(Title(item)) + " " + OrEmpty(ContentSnippet(item))
  }

  predicate IsJapanese(item: RssItem) {
    HasCjk(ItemText(item))
  }

  /** `japaneseItems`. */
  function JapaneseItems(items: seq<RssItem>): seq<RssItem> {
    Filter(items, IsJapanese)
  }

  /** `englishItems`. */
  function EnglishItems(items: seq<RssItem>): seq<RssItem> {
    FilterOut(items, IsJapanese)
  }

  /** `xs.slice(0, 10)`: the cards a tab shows. */
  function Shown(xs: seq<RssItem>): (r: seq<RssItem>)
    ensures |r| == (if |xs| < MaxCards then |xs| else MaxCards)
    ensures r == xs[..|r|]
  {
    SliceTo(xs, MaxCards)
  }

  /** The text holds a CJK character exactly when the title or the snippet does. */
  lemma ItemTextCjk(item: RssItem)
    ensures IsJapanese(item) <==> HasCjk(OrEmpty(Title(item))) || HasCjk(OrEmpty(ContentSnippet(item)))
  {
    var a := OrEmpty(Title(item));
    var b := OrEmpty(ContentSnippet(item));
    var t := ItemText(item);
    assert forall i :: 0 <= i < |a| ==> t[i] == a[i];
    assert forall i :: 0 <= i < |b| ==> t[|a| + 1 + i] == b[i];
    if HasCjk(t) {
      var i :| 0 <= i < |t| && IsCjk(t[i]);
      if i < |a| {
        assert IsCjk(a[i]);
      } else if i > |a| {
        assert IsCjk(b[i - |a| - 1]);
      }
    }
  }

  /** Every item lands in exactly one tab, decided by the same test; the two tabs together
      hold the items, counted with repetition. */
  lemma TabsPartition(items: seq<RssItem>)
    ensures forall x :: x in JapaneseItems(items) <==> x in items && IsJapanese(x)
    ensures forall x :: x in EnglishItems(items) <==> x in items && !IsJapanese(x)
    ensures multiset(JapaneseItems(items)) + multiset(EnglishItems(items)) == multiset(items)
    ensures |JapaneseItems(items)| + |EnglishItems(items)| == |items|
  {
    FilterMembers(items, IsJapanese);
    FilterPartition(items, IsJapanese);
  }

  /** Each tab keeps the input order: for any cut of the input, the tab lists what comes
      from the first part before what comes from the second. */
  lemma TabsKeepOrder(a: seq<RssItem>, b: seq<RssItem>)
    ensures JapaneseItems(a + b) == JapaneseItems(a) + JapaneseItems(b)
    ensures EnglishItems(a + b) == EnglishItems(a) + EnglishItems(b)
  {
    FilterConcat(a, b, IsJapanese);
  }

  /** A live item titled in katakana goes to the Japanese tab; a mock item, which has no
      title or snippet, goes to the English tab. */
  lemma TabExamples(l: LiveItem, m: MockItem)
    requires l.title == "ニュース"
    ensures IsJapanese(Live(l))
    ensures !IsJapanese(Mock(m))
  {
    assert ItemText(Live(l))[0] == 'ニ';
    assert IsCjk('ニ');
    var t := ItemText(Mock(m));
    assert t == " ";
    assert !IsCjk(t[0]);
  }
}
