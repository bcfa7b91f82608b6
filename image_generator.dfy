/** Deterministic article images: a 32-bit string hash of the title picks an image from
    a range of a fixed library, the range chosen by the article's tags. */
module ImageGenerator {
  import opened JsString

  /** An Unsplash image of the library: the photo id and the query parameters that follow
      the common `?w=300&h=200&fit=crop`. */
  datatype Image = Image(photo: string, extra: string)

  /** The URL the library lists for an image. */
  function Url(img: Image): string {
    "https://images.unsplash.com/photo-" + img.photo + "?w=300&h=200&fit=crop" + img.extra
  }

  /** `IMAGE_LIBRARY`, in source order: AI (0-4), programming (5-9), business (10-13),
      news (14-17), research (18-21) and further images (22-33). */
  const Library: seq<Image> := [
    Image("1677442136019-21780ecad995", ""),
    Image("1676299081846-490cbb1a6c0e", ""),
    Image("1673187736167-4d81e3b6c0c5", ""),
    Image("1673187736167-4d81e3b6c0c5", "&sat=-50"),
    Image("1673187736167-4d81e3b6c0c5", "&brightness=0.8"),
    Image("1517077304055-6e89abbf09b0", ""),
    Image("1461749280684-dccba630e2f6", ""),
    Image("1555066931-4365d14bab8c", ""),
    Image("1555066931-4365d14bab8c", "&sat=-30"),
    Image("1555066931-4365d14bab8c", "&brightness=0.9"),
    Image("1556761175-b413da4baf72", ""),
    Image("1556761175-b413da4baf72", "&sat=-20"),
    Image("1556761175-b413da4baf72", "&brightness=0.8"),
    Image("1556761175-b413da4baf72", "&contrast=1.2"),
    Image("1504711434969-e33886168f5c", ""),
    Image("1504711434969-e33886168f5c", "&sat=-15"),
    Image("1504711434969-e33886168f5c", "&brightness=0.85"),
    Image("1504711434969-e33886168f5c", "&contrast=1.15"),
    Image("1507003211169-0a1dd7228f2d", ""),
    Image("1507003211169-0a1dd7228f2d", "&sat=-30"),
    Image("1507003211169-0a1dd7228f2d", "&brightness=0.9"),
    Image("1507003211169-0a1dd7228f2d", "&contrast=1.1"),
    Image("1517077304055-6e89abbf09b0", "&sat=-10"),
    Image("1461749280684-dccba630e2f6", "&brightness=0.9"),
    Image("1555066931-4365d14bab8c", "&contrast=1.1"),
    Image("1555066931-4365d14bab8c", "&sat=-40"),
    Image("1517077304055-6e89abbf09b0", "&sat=-25"),
    Image("1461749280684-dccba630e2f6", "&brightness=0.95"),
    Image("1555066931-4365d14bab8c", "&sat=-35"),
    Image("1555066931-4365d14bab8c", "&contrast=1.05"),
    Image("1556761175-b413da4baf72", "&sat=-10"),
    Image("1556761175-b413da4baf72", "&brightness=0.95"),
    Image("1556761175-b413da4baf72", "&contrast=1.05"),
    Image("1556761175-b413da4baf72", "&sat=-25")
  ]

  const TwoTo32: int := 0x1_0000_0000
  const TwoTo31: int := 0x8000_0000

  /** ECMAScript ToInt32: wraps an integer to the signed 32-bit range. */
  function ToInt32(x: int): (r: int)
    ensures -TwoTo31 <= r < TwoTo31
    ensures (x - r) % TwoTo32 == 0
  {
    var m := x % TwoTo32;
    if m >= TwoTo31 then m - TwoTo32 else m
  }

  /** Two integers that agree modulo 2^32 wrap to the same value. */
  lemma ToInt32Congruent(x: int, y: int)
    requires (x - y) % TwoTo32 == 0
    ensures ToInt32(x) == ToInt32(y)
  {
    var k := (x - y) / TwoTo32;
    assert x == y + k * TwoTo32;
    ModShift(y, k);
  }

  lemma ModShift(y: int, k: int)
    ensures (y + k * TwoTo32) % TwoTo32 == y % TwoTo32
  {
    var q := y / TwoTo32;
    var m := y % TwoTo32;
    assert y + k * TwoTo32 == (q + k) * TwoTo32 + m;
  }

  /** One step of the reducer: `a = ((a << 5) - a) + code; return a & a`. The shift and
      the `&` each wrap to 32 bits; the subtraction and addition are exact. */
  function HashStep(a: int, code: int): int {
    ToInt32(ToInt32(a * 32) - a + code)
  }

  /** The step is the classic `31 * a + code`, wrapped to 32 bits. */
  lemma HashStepIsTimes31(a: int, code: int)
    ensures HashStep(a, code) == ToInt32(31 * a + code)
  {
    var s := ToInt32(a * 32);
    var k := (a * 32 - s) / TwoTo32;
    assert a * 32 - s == k * TwoTo32;
    assert (s - a + code) - (31 * a + code) == -(k * TwoTo32);
    assert (-(k * TwoTo32)) % TwoTo32 == 0 by { ModShift(0, -k); }
    ToInt32Congruent(s - a + code, 31 * a + code);
  }

  /** `title.split('').reduce(step, 0)` over the UTF-16 code units. */
  function Hash(units: seq<int>): (h: int)
    ensures -TwoTo31 <= h < TwoTo31
  {
    if units == [] then 0 else HashStep(Hash(units[..|units| - 1]), units[|units| - 1])
  }

  /** The textbook polynomial string hash, without wrapping: sum of code * 31^(n-1-i). */
  function Polynomial(units: seq<int>): int {
    if units == [] then 0 else 31 * Polynomial(units[..|units| - 1]) + units[|units| - 1]
  }

  /** The reducer computes the polynomial hash reduced to signed 32 bits. */
  lemma {:induction false} HashIsWrappedPolynomial(units: seq<int>)
    ensures Hash(units) == ToInt32(Polynomial(units))
  {
    if units != [] {
      var init, c := units[..|units| - 1], units[|units| - 1];
      HashIsWrappedPolynomial(init);
      HashStepIsTimes31(Hash(init), c);
      var h, p := Hash(init), Polynomial(init);
      var k := (p - h) / TwoTo32;
      assert p - h == k * TwoTo32;
      assert (31 * p + c) - (31 * h + c) == (31 * k) * TwoTo32;
      ModShift(0, 31 * k);
      ToInt32Congruent(31 * p + c, 31 * h + c);
    }
  }

  function Abs(x: int): nat {
    if x < 0 then -x else x
  }

  /** The `[startIndex, endIndex)` range of the library the tags select. */
  datatype Range = Range(start: nat, end: nat)

  /** The first of AI, ENGINEERING, BUSINESS, NEWS, RESEARCH present in `tags` decides the
      range; with none of them the whole library is used. */
  function ImageRange(tags: seq<string>): (r: Range)
    ensures 0 <= r.start < r.end <= |Library|
  {
    if "AI" in tags then Range(0, 5)
    else if "ENGINEERING" in tags then Range(5, 10)
    else if "BUSINESS" in tags then Range(10, 14)
    else if "NEWS" in tags then Range(14, 18)
    else if "RESEARCH" in tags then Range(18, 22)
    else Range(0, |Library|)
  }

  /** The library position `generateArticleImage` reads: `start + |hash| % (end - start)`. */
  function ImageIndex(tags: seq<string>, title: string): (k: nat)
    ensures ImageRange(tags).start <= k < ImageRange(tags).end
  {
    var range := ImageRange(tags);
    range.start + Abs(Hash(CodeUnits(title))) % (range.end - range.start)
  }

  /** The body of `generateArticleImage` over any library: `availableImages` is the
      range's slice and the index is `|hash| % availableImages.length`. */
  function PickFromRange<T>(library: seq<T>, range: Range, hash: int): (r: T)
    requires range.start < range.end <= |library|
    ensures r == library[range.start + Abs(hash) % (range.end - range.start)]
  {
    var availableImages := library[range.start..range.end];
    var index := Abs(hash) % |availableImages|;
    availableImages[index]
  }

  /** `generateArticleImage(tags, title)`. */
  function GenerateArticleImage(tags: seq<string>, title: string): string {
    Url(PickFromRange(Library, ImageRange(tags), Hash(CodeUnits(title))))
  }

  /** The result is the library image at `ImageIndex`, so it lies in the selected range. */
  lemma ImageInRange(tags: seq<string>, title: string)
    ensures GenerateArticleImage(tags, title) == Url(Library[ImageIndex(tags, title)])
    ensures exists k :: ImageRange(tags).start <= k < ImageRange(tags).end && GenerateArticleImage(tags, title) == Url(Library[k])
  {
    var k := ImageIndex(tags, title);
    var image := PickFromRange(Library, ImageRange(tags), Hash(CodeUnits(title)));
    assert image == Library[k];
  }

  /** Only the title and which of the five priority tags occur matter: the order of the
      tags, repetitions and every other tag are ignored. */
  lemma ImageDependsOnPriorityTags(t1: seq<string>, t2: seq<string>, title: string)
    requires forall name :: name in ["AI", "ENGINEERING", "BUSINESS", "NEWS", "RESEARCH"] ==> (name in t1 <==> name in t2)
    ensures GenerateArticleImage(t1, title) == GenerateArticleImage(t2, title)
  {
    assert ImageRange(t1) == ImageRange(t2);
  }
}
