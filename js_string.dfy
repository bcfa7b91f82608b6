/** The JavaScript string built-ins the news utilities rely on, stated on Dafny strings.
    A Dafny `char` is a Unicode scalar value; where JavaScript counts UTF-16 code units
    (`.length`, `charCodeAt`) the conversion is written out below. */
module JsString {
  import opened Wrappers

  // ---------------------------------------------------------------------------
  // White space and trim

  /** The code points that `String.prototype.trim` removes and the regex class `\s`
      matches: ECMAScript's WhiteSpace (TAB, VT, FF, SP, NBSP, ZWNBSP and the Zs
      category) and LineTerminator (LF, CR, LS, PS). */
  predicate IsWhite(c: char) {
    || c == '\t' || c == '\n' || c == '\U{000B}' || c == '\U{000C}' || c == '\r' || c == ' '
    || c == '\U{00A0}' || c == '\U{1680}' || ('\U{2000}' <= c <= '\U{200A}')
    || c == '\U{2028}' || c == '\U{2029}' || c == '\U{202F}' || c == '\U{205F}'
    || c == '\U{3000}' || c == '\U{FEFF}'
  }

  predicate AllWhite(s: string) {
    forall i :: 0 <= i < |s| ==> IsWhite(s[i])
  }

  /** True when `s` neither starts nor ends with white space. */
  predicate Trimmed(s: string) {
    s == [] || (!IsWhite(s[0]) && !IsWhite(s[|s| - 1]))
  }

  /** The number of white-space characters `s` starts with. */
  function LeadingWhite(s: string): (n: nat)
    ensures n <= |s| && AllWhite(s[..n])
    ensures n == |s| || !IsWhite(s[n])
  {
    if |s| > 0 && IsWhite(s[0]) then
      var n := 1 + LeadingWhite(s[1..]);
      assert forall m :: 1 <= m < n ==> s[..n][m] == s[1..][..n - 1][m - 1];
      n
    else 0
  }

  /** The number of white-space characters `s` ends with. */
  function TrailingWhite(s: string): (n: nat)
    ensures n <= |s| && AllWhite(s[|s| - n..])
    ensures n == |s| || !IsWhite(s[|s| - n - 1])
  {
    if |s| > 0 && IsWhite(s[|s| - 1]) then
      var n := 1 + TrailingWhite(s[..|s| - 1]);
      assert s[|s| - n..] == s[..|s| - 1][|s| - n..] + [s[|s| - 1]];
      n
    else 0
  }

  /** `s.trimStart()`: the longest suffix of `s` that does not start with white space. */
  function TrimStart(s: string): (r: string)
    ensures |r| <= |s| && r == s[|s| - |r|..]
    ensures AllWhite(s[..|s| - |r|])
    ensures r == [] || !IsWhite(r[0])
  {
    s[LeadingWhite(s)..]
  }

  /** `s.trimEnd()`: the longest prefix of `s` that does not end with white space. */
  function TrimEnd(s: string): (r: string)
    ensures |r| <= |s| && r == s[..|r|]
    ensures AllWhite(s[|r|..])
    ensures r == [] || !IsWhite(r[|r| - 1])
  {
    s[..|s| - TrailingWhite(s)]
  }

  /** Trimming both ends leaves a slice of `s` with white space on either side of it. */
  lemma TrimParts(s: string)
    ensures var i := |s| - |TrimStart(s)|;
            var r := TrimEnd(TrimStart(s));
            i + |r| <= |s| && r == s[i..i + |r|] && AllWhite(s[..i]) && AllWhite(s[i + |r|..])
  {
    var t := TrimStart(s);
    var i := |s| - |t|;
    var r := TrimEnd(t);
    PrefixOfSuffix(s, i, |r|);
    AllWhiteSame(t[|r|..], s[i + |r|..]);
  }

  lemma AllWhiteSame(a: string, b: string)
    requires AllWhite(a) && a == b
    ensures AllWhite(b)
  {
  }

  /** A prefix of a suffix is a slice, and what follows it is the rest of the sequence. */
  lemma PrefixOfSuffix<T>(s: seq<T>, i: nat, n: nat)
    requires i + n <= |s|
    ensures s[i..][..n] == s[i..i + n] && s[i..][n..] == s[i + n..]
  {
  }

  /** `s.trim()`: the slice of `s` left once white space is removed from both ends. */
  function Trim(s: string): (r: string)
    ensures Trimmed(r)
    ensures exists i, j :: 0 <= i <= j <= |s| && r == s[i..j] && AllWhite(s[..i]) && AllWhite(s[j..])
  {
    var t := TrimStart(s);
    var r := TrimEnd(t);
    TrimParts(s);
    assert r != [] ==> r[0] == t[0];
    r
  }

  /** A string is its own trim exactly when it has no white space at either end. */
  lemma {:induction false} TrimFixpoint(s: string)
    ensures Trim(s) == s <==> Trimmed(s)
  {
    if Trimmed(s) {
      assert TrimStart(s) == s;
      assert TrimEnd(s) == s;
    }
  }

  lemma TrimIdempotent(s: string)
    ensures Trim(Trim(s)) == Trim(s)
  {
    TrimFixpoint(Trim(s));
  }

  /** The trim is empty exactly for all-white strings: JavaScript's "blank" test. */
  lemma {:induction false} TrimEmptyIffAllWhite(s: string)
    ensures Trim(s) == [] <==> AllWhite(s)
  {
    var t := TrimStart(s);
    if !AllWhite(s) {
      var k :| 0 <= k < |s| && !IsWhite(s[k]);
      assert k >= |s| - |t|;
      assert t != [] && !IsWhite(t[0]);
    }
  }

  // ---------------------------------------------------------------------------
  // toLowerCase, includes, startsWith

  /** `toLowerCase` on one character, for the ASCII letters. */
  function LowerChar(c: char): (r: char)
    ensures 'A' <= c <= 'Z' ==> r as int == c as int + 32
    ensures !('A' <= c <= 'Z') ==> r == c
  {
    if 'A' <= c <= 'Z' then (c as int + 32) as char else c
  }

  /** `s.toLowerCase()`, character by character. */
  function Lower(s: string): (r: string)
    ensures |r| == |s|
    ensures forall i :: 0 <= i < |s| ==> r[i] == LowerChar(s[i])
  {
    seq(|s|, i requires 0 <= i < |s| => LowerChar(s[i]))
  }

  lemma LowerConcat(a: string, b: string)
    ensures Lower(a + b) == Lower(a) + Lower(b)
  {
    assert forall i :: 0 <= i < |a + b| ==> Lower(a + b)[i] == (Lower(a) + Lower(b))[i];
  }

  /** `pat` occurs in `text` starting at index `i`. */
  predicate OccursAt(text: string, pat: string, i: int) {
    0 <= i <= |text| - |pat| && text[i..i + |pat|] == pat
  }

  /** `text.includes(pat)`: `pat` occurs as a contiguous piece of `text`. */
  predicate Includes(text: string, pat: string) {
    exists i | 0 <= i <= |text| - |pat| :: OccursAt(text, pat, i)
  }

  /** An occurrence stays an occurrence when text is added at either end. */
  lemma IncludesExtend(text: string, pre: string, post: string, pat: string)
    requires Includes(text, pat)
    ensures Includes(pre + text + post, pat)
  {
    var i: int :| 0 <= i <= |text| - |pat| && OccursAt(text, pat, i);
    var whole := pre + text + post;
    assert whole[|pre|..|pre| + |text|] == text;
    assert whole[|pre| + i..|pre| + i + |pat|] == whole[|pre|..|pre| + |text|][i..i + |pat|];
    assert OccursAt(whole, pat, |pre| + i);
  }

  predicate StartsWith(s: string, p: string) {
    |p| <= |s| && s[..|p|] == p
  }

  // ---------------------------------------------------------------------------
  // UTF-16 view: `.length` and `charCodeAt`

  /** The UTF-16 code units of one code point: one below U+10000, else a surrogate pair. */
  function CharUnits(c: char): (r: seq<int>)
    ensures |r| == (if c as int < 0x1_0000 then 1 else 2)
    ensures forall k :: 0 <= k < |r| ==> 0 <= r[k] < 0x1_0000
  {
    var v := c as int;
    if v < 0x1_0000 then [v]
    else [0xD800 + (v - 0x1_0000) / 0x400, 0xDC00 + (v - 0x1_0000) % 0x400]
  }

  /** The code units `s.split('')` and `charCodeAt` walk over. */
  function CodeUnits(s: string): (r: seq<int>)
    ensures |r| >= |s|
    ensures forall k :: 0 <= k < |r| ==> 0 <= r[k] < 0x1_0000
  {
    if s == [] then [] else CharUnits(s[0]) + CodeUnits(s[1..])
  }

  /** `s.length` in JavaScript. */
  function Utf16Length(s: string): nat {
    |CodeUnits(s)|
  }

  /** For text in the Basic Multilingual Plane (all of Japanese and English) `.length` counts characters. */
  lemma {:induction false} Utf16LengthBmp(s: string)
    requires forall i :: 0 <= i < |s| ==> s[i] as int < 0x1_0000
    ensures Utf16Length(s) == |s|
  {
    if s != [] {
      Utf16LengthBmp(s[1..]);
    }
  }

  // ---------------------------------------------------------------------------
  // String(n) for integers

  function DigitChar(d: nat): (c: char)
    requires d < 10
    ensures '0' <= c <= '9' && c as int - '0' as int == d
  {
    "0123456789"[d]
  }

  predicate IsDigits(s: string) {
    forall i :: 0 <= i < |s| ==> '0' <= s[i] <= '9'
  }

  /** `String(n)` for a non-negative integer: decimal, no leading zero. */
  function NatToString(n: nat): (r: string)
    ensures |r| >= 1 && IsDigits(r)
    ensures |r| > 1 ==> r[0] != '0'
  {
    if n < 10 then [DigitChar(n)] else NatToString(n / 10) + [DigitChar(n % 10)]
  }

  /** The value of a string of decimal digits: the reading partner of NatToString. */
  function DigitsValue(s: string): nat
    requires IsDigits(s)
  {
    if s == [] then 0 else DigitsValue(s[..|s| - 1]) * 10 + (s[|s| - 1] as int - '0' as int)
  }

  lemma {:induction false} NatToStringRoundTrip(n: nat)
    ensures DigitsValue(NatToString(n)) == n
  {
    if n >= 10 {
      NatToStringRoundTrip(n / 10);
      var r := NatToString(n);
      assert r[..|r| - 1] == NatToString(n / 10);
    }
  }

  /** Distinct numbers print differently. */
  lemma NatToStringInjective(m: nat, n: nat)
    requires NatToString(m) == NatToString(n)
    ensures m == n
  {
    NatToStringRoundTrip(m);
    NatToStringRoundTrip(n);
  }

  /** `String(n)` for any integer: a minus sign, then the digits of |n|. */
  function IntToString(n: int): (r: string)
    ensures |r| >= 1
    ensures (r[0] == '-') <==> n < 0
  {
    if n < 0 then "-" + NatToString(-n) else NatToString(n)
  }

  lemma IntToStringInjective(m: int, n: int)
    requires IntToString(m) == IntToString(n)
    ensures m == n
  {
    if m < 0 {
      assert IntToString(m)[1..] == NatToString(-m);
      assert IntToString(n)[1..] == NatToString(-n);
      NatToStringInjective(-m, -n);
    } else {
      NatToStringInjective(m, n);
    }
  }

  /** `String(v)` for a value that may be `undefined`, as `+` and template strings convert it. */
  function StringOf(v: Option<string>): string {
    match v
    case Some(s) => s
    case None => "undefined"
  }

  /** `v || ""`: a missing or empty string reads as the empty string. */
  function OrEmpty(v: Option<string>): string {
    match v
    case Some(s) => s
    case None => ""
  }

  // ---------------------------------------------------------------------------
  // split and join

  /** `s.split(re)` for a global regex that matches exactly the single characters
      `isSep` accepts (a character class such as `/[\n,]/g`). */
  function Split(s: string, isSep: char -> bool): (r: seq<string>)
    ensures |r| >= 1
  {
    if s == [] then [""]
    else
      var rest := Split(s[1..], isSep);
      if isSep(s[0]) then [""] + rest else [[s[0]] + rest[0]] + rest[1..]
  }

  /** Number of characters of `s` that `p` accepts. */
  function CountWhere(s: string, p: char -> bool): nat {
    if s == [] then 0 else (if p(s[0]) then 1 else 0) + CountWhere(s[1..], p)
  }

  /** `s` with the characters `p` accepts removed. */
  function Drop(s: string, p: char -> bool): string {
    if s == [] then [] else (if p(s[0]) then [] else [s[0]]) + Drop(s[1..], p)
  }

  /** Removing characters distributes over concatenation. */
  lemma {:induction false} DropConcat(a: string, b: string, p: char -> bool)
    ensures Drop(a + b, p) == Drop(a, p) + Drop(b, p)
  {
    if a == [] {
      assert a + b == b;
    } else {
      DropConcat(a[1..], b, p);
      assert (a + b)[1..] == a[1..] + b;
    }
  }

  /** Removing white space from all-white text leaves nothing. */
  lemma {:induction false} DropAllWhite(s: string)
    requires AllWhite(s)
    ensures Drop(s, IsWhite) == []
  {
    if s != [] {
      DropAllWhite(s[1..]);
    }
  }

  lemma SliceAround(s: string, i: nat, j: nat)
    requires i <= j <= |s|
    ensures s == s[..i] + s[i..j] + s[j..]
  {
    assert s[..j] == s[..i] + s[i..j];
  }

  /** Trimming removes only white space: what is left once white space is removed is the
      same before and after. */
  lemma DropWhiteTrim(s: string)
    ensures Drop(Trim(s), IsWhite) == Drop(s, IsWhite)
  {
    TrimParts(s);
    var i := |s| - |TrimStart(s)|;
    var r := TrimEnd(TrimStart(s));
    SliceAround(s, i, i + |r|);
    DropWhiteAround(s[..i], r, s[i + |r|..]);
  }

  lemma DropWhiteAround(pre: string, r: string, post: string)
    requires AllWhite(pre) && AllWhite(post)
    ensures Drop(pre + r + post, IsWhite) == Drop(r, IsWhite)
  {
    DropConcat(pre + r, post, IsWhite);
    DropConcat(pre, r, IsWhite);
    DropAllWhite(pre);
    DropAllWhite(post);
  }

  function Concat(parts: seq<string>): string {
    if parts == [] then [] else parts[0] + Concat(parts[1..])
  }

  predicate NoneWhere(s: string, p: char -> bool) {
    forall i :: 0 <= i < |s| ==> !p(s[i])
  }

  /** What split promises: one more piece than separators, no separator inside a piece,
      and the pieces laid end to end are the input without its separators. Where the cuts
      fall is fixed by SplitNoSeparator and SplitAtSeparator. */
  lemma {:induction false} SplitPieces(s: string, isSep: char -> bool)
    ensures |Split(s, isSep)| == CountWhere(s, isSep) + 1
    ensures forall k :: 0 <= k < |Split(s, isSep)| ==> NoneWhere(Split(s, isSep)[k], isSep)
    ensures Concat(Split(s, isSep)) == Drop(s, isSep)
  {
    if s != [] {
      SplitPieces(s[1..], isSep);
      var rest := Split(s[1..], isSep);
      if !isSep(s[0]) {
        var r := Split(s, isSep);
        assert r[0] == [s[0]] + rest[0];
        assert r[1..] == rest[1..];
        forall k | 0 <= k < |r| ensures NoneWhere(r[k], isSep) {
          if k == 0 {
            assert forall i :: 0 < i < |r[0]| ==> r[0][i] == rest[0][i - 1];
          } else {
            assert r[k] == rest[k];
          }
        }
        assert Concat(r) == r[0] + Concat(r[1..]);
        assert Concat(rest) == rest[0] + Concat(rest[1..]);
      } else {
        var r := Split(s, isSep);
        assert r[1..] == rest;
      }
    }
  }

  /** Text without a separator is not cut: it is its own single piece. */
  lemma {:induction false} SplitNoSeparator(s: string, isSep: char -> bool)
    requires NoneWhere(s, isSep)
    ensures Split(s, isSep) == [s]
  {
    if s != [] {
      assert NoneWhere(s[1..], isSep) by {
        assert forall i :: 0 <= i < |s| - 1 ==> s[1..][i] == s[i + 1];
      }
      SplitNoSeparator(s[1..], isSep);
      assert [s[0]] + s[1..] == s;
    }
  }

  /** A separator cuts: the pieces of `a + [c] + b` are the pieces of `a` followed by the
      pieces of `b`. With SplitNoSeparator this fixes where every cut falls. */
  lemma {:induction false} SplitAtSeparator(a: string, c: char, b: string, isSep: char -> bool)
    requires isSep(c)
    ensures Split(a + [c] + b, isSep) == Split(a, isSep) + Split(b, isSep)
  {
    if a == [] {
      assert a + [c] + b == [c] + b;
      assert ([c] + b)[1..] == b;
    } else {
      assert (a + [c] + b)[1..] == a[1..] + [c] + b;
      SplitAtSeparator(a[1..], c, b, isSep);
    }
  }

  /** `parts.join(sep)`. */
  function Join(parts: seq<string>, sep: string): string {
    if |parts| == 0 then "" else if |parts| == 1 then parts[0] else parts[0] + sep + Join(parts[1..], sep)
  }

  /** Joining a list of two or more parts puts the separator after the first. */
  lemma JoinCons(a: string, rest: seq<string>, sep: string)
    requires rest != []
    ensures Join([a] + rest, sep) == a + sep + Join(rest, sep)
  {
    assert ([a] + rest)[1..] == rest;
  }

  /** Four parts joined: each followed by the separator, except the last. */
  lemma JoinFour(a: string, b: string, c: string, d: string, sep: string)
    ensures Join([a, b, c, d], sep) == a + sep + (b + sep + (c + sep + d))
  {
    assert Join([c, d], sep) == c + sep + d by { JoinCons(c, [d], sep); assert [c] + [d] == [c, d]; }
    assert Join([b, c, d], sep) == b + sep + Join([c, d], sep) by { JoinCons(b, [c, d], sep); assert [b] + [c, d] == [b, c, d]; }
    JoinCons(a, [b, c, d], sep);
    assert [a] + [b, c, d] == [a, b, c, d];
  }
}
