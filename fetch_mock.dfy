/** The mock source: each record's `sourceUrl` is normalised, taking the address out of a
    Markdown link `[text](http://…)` when there is one. Reading and parsing the JSON file
    is I/O; its records are the input. */
module FetchMock {
  import opened Wrappers
  import opened JsString
  import opened JsArray
  import opened NewsItems

  predicate IsCloseBracket(c: char) {
    c == ']'
  }

  predicate IsCloseParen(c: char) {
    c == ')'
  }

  /** The first position at or after `from` holding `c`. */
  function IndexOf(s: string, from: nat, c: char): (r: Option<nat>)
    requires from <= |s|
    ensures r.Some? ==> from <= r.value < |s| && s[r.value] == c &&
                        forall k :: from <= k < r.value ==> s[k] != c
    ensures r.None? ==> forall k :: from <= k < |s| ==> s[k] != c
    decreases |s| - from
  {
    if from == |s| then None
    else if s[from] == c then Some(from)
    else IndexOf(s, from + 1, c)
  }

  /** `https?:\/\/` under the `i` flag at position `i`: the position just after it. */
  function SchemeEnd(s: string, i: nat): Option<nat>
    requires i <= |s|
  {
    if i + 4 <= |s| && LowerChar(s[i]) == 'h' && LowerChar(s[i + 1]) == 't'
       && LowerChar(s[i + 2]) == 't' && LowerChar(s[i + 3]) == 'p'
    then
      var j := if i + 4 < |s| && LowerChar(s[i + 4]) == 's' then i + 5 else i + 4;
      if j + 3 <= |s| && s[j] == ':' && s[j + 1] == '/' && s[j + 2] == '/' then Some(j + 3) else None
    else None
  }

  /** The regular expression `\[[^\]]*\]\((https?:\/\/[^)]+)\)` tried at position `p`:
      the first `]` closes the text, and the address runs to the first `)`. */
  function LinkAt(s: string, p: nat): Option<string>
    requires p <= |s|
  {
    if p == |s| || s[p] != '[' then None
    else
      match IndexOf(s, p + 1, ']')
      case None => None
      case Some(q) =>
        if q + 1 < |s| && s[q + 1] == '(' then
          match SchemeEnd(s, q + 2)
          case None => None
          case Some(k) =>
            match IndexOf(s, k, ')')
            case None => None
            case Some(e) => if e > k then Some(s[q + 2..e]) else None
        else None
  }

  /** `trimmed.match(...)`'s first group: the match at the leftmost position at or after `p`. */
  function FirstLink(s: string, p: nat): Option<string>
    requires p <= |s|
    decreases |s| - p
  {
    if p == |s| then None
    else if LinkAt(s, p).Some? then LinkAt(s, p)
    else FirstLink(s, p + 1)
  }

  /** An address the group can capture: `http://` or `https://` in any case, then at
      least one character, and no `)` anywhere. */
  predicate HttpAddress(url: string) {
    NoneWhere(url, IsCloseParen) &&
    |url| >= 5 && LowerChar(url[0]) == 'h' && LowerChar(url[1]) == 't' &&
    LowerChar(url[2]) == 't' && LowerChar(url[3]) == 'p' &&
    ((|url| > 7 && url[4] == ':' && url[5] == '/' && url[6] == '/') ||
     (|url| > 8 && LowerChar(url[4]) == 's' && url[5] == ':' && url[6] == '/' && url[7] == '/'))
  }

  /** The declarative reading of the regular expression: at `p` the input reads
      `[` text `](` url `)`, with no `]` in the text. */
  predicate LinkMatch(s: string, p: nat, text: string, url: string) {
    var n := p + |text| + |url| + 4;
    && n <= |s|
    && s[p] == '['
    && s[p + 1..p + 1 + |text|] == text
    && s[p + 1 + |text|] == ']'
    && s[p + 2 + |text|] == '('
    && s[p + 3 + |text|..n - 1] == url
    && s[n - 1] == ')'
    && NoneWhere(text, IsCloseBracket)
    && HttpAddress(url)
  }

  lemma SchemeEndShape(s: string, i: nat)
    requires i <= |s| && SchemeEnd(s, i).Some?
    ensures var k := SchemeEnd(s, i).value;
            i + 7 <= k <= i + 8 <= |s| + 1 && k <= |s|
            && (forall e :: k < e <= |s| && NoneWhere(s[i..e], IsCloseParen) ==> HttpAddress(s[i..e]))
  {
    var k := SchemeEnd(s, i).value;
    forall e | k < e <= |s| && NoneWhere(s[i..e], IsCloseParen)
      ensures HttpAddress(s[i..e])
    {
      var u := s[i..e];
      assert u[0] == s[i] && u[1] == s[i + 1] && u[2] == s[i + 2] && u[3] == s[i + 3];
      assert u[4] == s[i + 4] && u[5] == s[i + 5] && u[6] == s[i + 6];
      if k == i + 8 { assert u[7] == s[i + 7]; }
    }
  }

  /** `IndexOf` finds `c` at `r` when `r` holds it and nothing between `from` and `r` does. */
  lemma {:induction false} IndexOfAt(s: string, from: nat, c: char, r: nat)
    requires from <= r < |s| && s[r] == c
    requires forall m :: from <= m < r ==> s[m] != c
    ensures IndexOf(s, from, c) == Some(r)
    decreases r - from
  {
    if from < r {
      IndexOfAt(s, from + 1, c, r);
    }
  }

  /** The positions the matcher settles on, read back as the parts of a match. */
  lemma MatchFromParts(s: string, p: nat, q: nat, k: nat, e: nat)
    requires p < q && q + 1 < |s| && s[p] == '[' && s[q] == ']' && s[q + 1] == '('
    requires forall m :: p + 1 <= m < q ==> s[m] != ']'
    requires SchemeEnd(s, q + 2) == Some(k) && k < e < |s| && s[e] == ')'
    requires forall m :: k <= m < e ==> s[m] != ')'
    ensures LinkMatch(s, p, s[p + 1..q], s[q + 2..e])
  {
    var text := s[p + 1..q];
    var url := s[q + 2..e];
    SchemeEndShape(s, q + 2);
    assert NoneWhere(url, IsCloseParen) by {
      forall m | 0 <= m < |url| ensures !IsCloseParen(url[m]) {
        assert url[m] == s[q + 2 + m];
        if q + 2 + m < k {
          assert LowerChar(s[q + 2 + m]) != ')';
        }
      }
    }
    assert NoneWhere(text, IsCloseBracket) by {
      forall m | 0 <= m < |text| ensures !IsCloseBracket(text[m]) {
        assert text[m] == s[p + 1 + m];
      }
    }
  }

  /** What the matcher finds at `p` is a match in the declarative sense. */
  lemma LinkAtSound(s: string, p: nat)
    requires p <= |s| && LinkAt(s, p).Some?
    ensures exists text :: LinkMatch(s, p, text, LinkAt(s, p).value)
  {
    var q := IndexOf(s, p + 1, ']').value;
    var k := SchemeEnd(s, q + 2).value;
    var e := IndexOf(s, k, ')').value;
    assert LinkAt(s, p).value == s[q + 2..e];
    MatchFromParts(s, p, q, k, e);
  }

  /** A scheme followed by at least one character and no `)` ends before the first `)`. */
  lemma SchemeOfAddress(s: string, i: nat, url: string)
    requires i + |url| <= |s| && s[i..i + |url|] == url && HttpAddress(url)
    ensures SchemeEnd(s, i).Some? && SchemeEnd(s, i).value < i + |url|
    ensures forall m :: i <= m < i + |url| ==> s[m] != ')'
  {
    assert forall m :: 0 <= m < |url| ==> s[i + m] == url[m];
    assert forall m :: i <= m < i + |url| ==> s[m] == url[m - i] && !IsCloseParen(url[m - i]);
  }

  /** Every match in the declarative sense at `p` is the one the matcher finds. */
  lemma LinkAtComplete(s: string, p: nat, text: string, url: string)
    requires p <= |s| && LinkMatch(s, p, text, url)
    ensures LinkAt(s, p) == Some(url)
  {
    var q := p + 1 + |text|;
    var i := q + 2;
    var e := i + |url|;
    assert IndexOf(s, p + 1, ']') == Some(q) by {
      assert forall m :: p + 1 <= m < q ==> s[m] == text[m - p - 1];
      IndexOfAt(s, p + 1, ']', q);
    }
    SchemeOfAddress(s, i, url);
    var k := SchemeEnd(s, i).value;
    IndexOfAt(s, k, ')', e);
    assert s[q + 2..e] == url;
  }

  /** The leftmost-match search: its result is the match at the first position where one
      exists, or nothing when there is no match at or after `p`. */
  lemma {:induction false} FirstLinkLeftmost(s: string, p: nat)
    requires p <= |s|
    ensures FirstLink(s, p).Some? ==>
              exists i :: p <= i < |s| && LinkAt(s, i) == FirstLink(s, p) &&
                          forall j :: p <= j < i ==> LinkAt(s, j).None?
    ensures FirstLink(s, p).None? ==> forall j :: p <= j <= |s| ==> LinkAt(s, j).None?
    decreases |s| - p
  {
    if p < |s| && LinkAt(s, p).None? {
      FirstLinkLeftmost(s, p + 1);
    }
  }

  /** The search from `i` reaches a match at `p` when none lies between. */
  lemma {:induction false} FirstLinkReaches(s: string, i: nat, p: nat, text: string, url: string)
    requires i <= p <= |s| && LinkMatch(s, p, text, url)
    requires forall j :: i <= j < p ==> LinkAt(s, j).None?
    ensures FirstLink(s, i) == Some(url)
    decreases p - i
  {
    if i == p {
      LinkAtComplete(s, p, text, url);
    } else {
      FirstLinkReaches(s, i + 1, p, text, url);
    }
  }

  /** Whatever the search returns is an HTTP address. */
  lemma {:induction false} FirstLinkAddress(s: string, p: nat)
    requires p <= |s| && FirstLink(s, p).Some?
    ensures HttpAddress(FirstLink(s, p).value)
    decreases |s| - p
  {
    if LinkAt(s, p).Some? {
      LinkAtSound(s, p);
    } else {
      FirstLinkAddress(s, p + 1);
    }
  }

  /** Text without a `)` holds no Markdown link. */
  lemma {:induction false} NoParenNoLink(s: string, p: nat)
    requires p <= |s| && NoneWhere(s, IsCloseParen)
    ensures FirstLink(s, p).None?
    decreases |s| - p
  {
    if p < |s| {
      NoParenNoLink(s, p + 1);
    }
  }

  /** `normalizeUrl(url)`. */
  function NormalizeUrl(url: Option<string>): Option<string> {
    if url.None? || url.value == [] then url
    else
      var trimmed := Trim(url.value);
      match FirstLink(trimmed, 0)
      case Some(u) => Some(u)
      case None => Some(trimmed)
  }

  /** An undefined or empty input comes back as is. */
  lemma NormalizeUrlMissing(url: Option<string>)
    requires url.None? || url.value == []
    ensures NormalizeUrl(url) == url
  {
  }

  /** With a Markdown link in the trimmed input, the result is the address of the
      leftmost one. */
  lemma NormalizeUrlLink(raw: string, p: nat, text: string, url: string)
    requires raw != [] && p <= |Trim(raw)| && LinkMatch(Trim(raw), p, text, url)
    requires forall j :: 0 <= j < p ==> LinkAt(Trim(raw), j).None?
    ensures NormalizeUrl(Some(raw)) == Some(url)
  {
    FirstLinkReaches(Trim(raw), 0, p, text, url);
  }

  /** Without a Markdown link, the result is the trimmed input. */
  lemma NormalizeUrlPlain(raw: string)
    requires raw != [] && forall p :: 0 <= p <= |Trim(raw)| ==> LinkAt(Trim(raw), p).None?
    ensures NormalizeUrl(Some(raw)) == Some(Trim(raw))
  {
    FirstLinkLeftmost(Trim(raw), 0);
  }

  /** A normalised address is an HTTP address out of a Markdown link, or the trimmed input. */
  lemma NormalizedShape(raw: string)
    requires raw != []
    ensures NormalizeUrl(Some(raw)) == Some(Trim(raw)) || HttpAddress(NormalizeUrl(Some(raw)).value)
  {
    if FirstLink(Trim(raw), 0).Some? {
      FirstLinkAddress(Trim(raw), 0);
    }
  }

  /** Normalising twice is normalising once, whenever the first result has no white space
      at its ends; the trimmed-input case always has none. */
  lemma NormalizeTwice(url: Option<string>)
    requires NormalizeUrl(url).Some? ==> Trimmed(NormalizeUrl(url).value)
    ensures NormalizeUrl(NormalizeUrl(url)) == NormalizeUrl(url)
  {
    if url.Some? && url.value != [] {
      var t := Trim(url.value);
      match FirstLink(t, 0)
      case None =>
        assert NormalizeUrl(url) == Some(t);
        if t != [] {
          TrimIdempotent(url.value);
          assert NormalizeUrl(Some(t)) == Some(t);
        }
      case Some(u) =>
        assert NormalizeUrl(url) == Some(u);
        FirstLinkAddress(t, 0);
        TrimFixpoint(u);
        NoParenNoLink(u, 0);
        assert NormalizeUrl(Some(u)) == Some(u);
    }
  }

  /** Trimming a trimmed text with one space after it removes just the space. */
  lemma TrimTrailingSpace(a: string)
    requires a != [] && Trimmed(a)
    ensures Trim(a + " ") == a
  {
    var s := a + " ";
    assert s[0] == a[0];
    assert TrimStart(s) == s;
    assert s[..|s| - 1] == a;
    assert TrimEnd(a) == a;
  }

  /** `[` text `](` url `)` is a Markdown link at position 0 whenever its parts are. */
  lemma LinkOfParts(text: string, url: string)
    requires NoneWhere(text, IsCloseBracket) && HttpAddress(url)
    ensures LinkMatch(['['] + text + "](" + url + ")", 0, text, url)
  {
    var s := ['['] + text + "](" + url + ")";
    assert s[1..1 + |text|] == text;
    assert s[3 + |text|..|s| - 1] == url;
  }

  /** `[a](http://x )` is a Markdown link at position 0 with address `http://x `. */
  lemma SpacedLinkMatches()
    ensures Trimmed("[a](http://x )")
    ensures LinkMatch("[a](http://x )", 0, "a", "http://x ")
  {
    SpacedAddressValid();
    assert NoneWhere("a", IsCloseBracket);
    LinkOfParts("a", "http://x ");
    SpacedLinkSpelled();
  }

  lemma SpacedAddressValid()
    ensures HttpAddress("http://x ")
  {
    assert NoneWhere("http://x ", IsCloseParen);
  }

  lemma SpacedLinkSpelled()
    ensures "[a](http://x )" == ['['] + "a" + "](" + "http://x " + ")"
  {
  }

  /** `http://x ` normalises to `http://x`. */
  lemma SpacedAddressTrims()
    ensures NormalizeUrl(Some("http://x ")) == Some("http://x")
  {
    TrimSpacedAddress();
    AddressHasNoLink();
  }

  lemma TrimSpacedAddress()
    ensures Trim("http://x ") == "http://x"
  {
    var v := "http://x";
    assert "http://x " == v + " ";
    assert Trimmed(v);
    TrimTrailingSpace(v);
  }

  lemma AddressHasNoLink()
    ensures FirstLink("http://x", 0).None?
  {
    assert NoneWhere("http://x", IsCloseParen);
    NoParenNoLink("http://x", 0);
  }

  /** A link whose address ends in a space is not normalised in one step:
      `[a](http://x )` gives `http://x `, and that gives `http://x`. */
  lemma NormalizeNotIdempotent()
    ensures NormalizeUrl(Some("[a](http://x )")) == Some("http://x ")
    ensures NormalizeUrl(NormalizeUrl(Some("[a](http://x )"))) == Some("http://x")
  {
    assert NormalizeUrl(Some("[a](http://x )")) == Some("http://x ") by {
      SpacedLinkMatches();
      TrimFixpoint("[a](http://x )");
      NormalizeUrlLink("[a](http://x )", 0, "a", "http://x ");
    }
    SpacedAddressTrims();
  }

  /** The per-record rewrite: `sourceUrl` normalised when the key is present. */
  function NormalizeItem(it: MockItem): MockItem {
    if it.sourceUrl.Some? then it.(sourceUrl := NormalizeUrl(it.sourceUrl)) else it
  }

  /** `fetchMock`'s `data.map(...)`. */
  function NormalizeMock(data: seq<MockItem>): seq<MockItem> {
    MapSeq(data, NormalizeItem)
  }

  /** The map keeps length and order, rewrites only `sourceUrl`, and leaves records without
      that key untouched. */
  lemma NormalizeMockShape(data: seq<MockItem>)
    ensures |NormalizeMock(data)| == |data|
    ensures forall i :: 0 <= i < |data| ==>
              NormalizeMock(data)[i].(sourceUrl := data[i].sourceUrl) == data[i] &&
              NormalizeMock(data)[i].sourceUrl == NormalizeUrl(data[i].sourceUrl)
    ensures forall i :: 0 <= i < |data| && data[i].sourceUrl.None? ==> NormalizeMock(data)[i] == data[i]
  {
  }
}
