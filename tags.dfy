/** Tag classification: an article gets every category one of whose keywords occurs
    in its lower-cased title and content, in the categories' declaration order. */
module Tags {
  import opened Wrappers
  import opened JsString

  /** The keys of `TAG_CATEGORIES`. */
  datatype Category = Ai | Engineering | Business | Tools | News | Tutorial | Research | Trends

  /** The categories in declaration order, the order `Object.entries` visits them. */
  const Categories: seq<Category> := [Ai, Engineering, Business, Tools, News, Tutorial, Research, Trends]

  /** Position of a category in declaration order. */
  function Rank(c: Category): (r: nat)
    ensures r < |Categories| && Categories[r] == c
  {
    match c
    case Ai => 0
    case Engineering => 1
    case Business => 2
    case Tools => 3
    case News => 4
    case Tutorial => 5
    case Research => 6
    case Trends => 7
  }

  /** The keyword list of each category. */
  function Keywords(c: Category): seq<string> {
    match c
    case Ai => ["AI", "人工知能", "機械学習", "ML", "ディープラーニング", "ChatGPT", "OpenAI", "Gemini", "Claude"]
    case Engineering => ["エンジニア", "プログラミング", "開発", "コード", "技術", "テック", "IT", "ソフトウェア"]
    case Business => ["企業", "導入", "活用", "ビジネス", "経営", "戦略", "ROI", "投資"]
    case Tools => ["ツール", "サービス", "プラットフォーム", "アプリ", "ソフトウェア"]
    case News => ["ニュース", "発表", "リリース", "アップデート", "新機能"]
    case Tutorial => ["チュートリアル", "ガイド", "使い方", "実装", "サンプル"]
    case Research => ["研究", "論文", "調査", "分析", "データ"]
    case Trends => ["トレンド", "流行", "注目", "話題", "人気"]
  }

  /** `` `${title} ${content || ''}`.toLowerCase() ``. */
  function TagText(title: string, content: Option<string>): string {
    Lower(title + " " + OrEmpty(content))
  }

  /** `keywords.some(keyword => text.includes(keyword.toLowerCase()))`, short-circuiting
      at the first keyword found. */
  function AnyIncludes(text: string, keywords: seq<string>): bool {
    keywords != [] && (Includes(text, Lower(keywords[0])) || AnyIncludes(text, keywords[1..]))
  }

  /** Some keyword occurs iff the search finds one. */
  lemma {:induction false} AnyIncludesIff(text: string, keywords: seq<string>)
    ensures AnyIncludes(text, keywords) <==> exists k :: 0 <= k < |keywords| && Includes(text, Lower(keywords[k]))
  {
    if keywords != [] {
      AnyIncludesIff(text, keywords[1..]);
      if exists k :: 0 <= k < |keywords| && Includes(text, Lower(keywords[k])) {
        var k :| 0 <= k < |keywords| && Includes(text, Lower(keywords[k]));
        if k > 0 {
          assert keywords[1..][k - 1] == keywords[k];
        }
      }
      if AnyIncludes(text, keywords[1..]) {
        var k :| 0 <= k < |keywords[1..]| && Includes(text, Lower(keywords[1..][k]));
        assert keywords[k + 1] == keywords[1..][k];
      }
    }
  }

  /** The categories of `cats` that match `text`, in the order of `cats`. */
  function Detected(text: string, cats: seq<Category>): seq<Category> {
    if cats == [] then []
    else
      var c := cats[|cats| - 1];
      Detected(text, cats[..|cats| - 1]) + (if AnyIncludes(text, Keywords(c)) then [c] else [])
  }

  /** `generateTags(title, content)`: one pass over the categories, pushing each match. */
  method GenerateTags(title: string, content: Option<string>) returns (tags: seq<Category>)
    ensures tags == Detected(TagText(title, content), Categories)
  {
    var text := TagText(title, content);
    tags := [];
    for i := 0 to |Categories|
      invariant tags == Detected(text, Categories[..i])
    {
      var category := Categories[i];
      var hasKeyword := AnyIncludes(text, Keywords(category));
      if hasKeyword {
        tags := tags + [category];
      }
      assert Categories[..i + 1][..i] == Categories[..i];
    }
    assert Categories[..|Categories|] == Categories;
  }

  /** What detection keeps: exactly the listed categories with a matching keyword. */
  lemma {:induction false} DetectedMembers(text: string, cats: seq<Category>)
    ensures forall c :: c in Detected(text, cats) <==> c in cats && AnyIncludes(text, Keywords(c))
  {
    if cats != [] {
      DetectedMembers(text, cats[..|cats| - 1]);
      assert cats == cats[..|cats| - 1] + [cats[|cats| - 1]];
    }
  }

  /** Strictly increasing in declaration order: no category twice, none out of order. */
  predicate InDeclarationOrder(cats: seq<Category>) {
    forall i, j :: 0 <= i < j < |cats| ==> Rank(cats[i]) < Rank(cats[j])
  }

  lemma AppendOrdered(d: seq<Category>, c: Category)
    requires InDeclarationOrder(d)
    requires forall x :: x in d ==> Rank(x) < Rank(c)
    ensures InDeclarationOrder(d + [c])
  {
    var e := d + [c];
    forall i, j | 0 <= i < j < |e| ensures Rank(e[i]) < Rank(e[j]) {
      assert e[i] == d[i];
      if j < |d| { assert e[j] == d[j]; }
    }
  }

  /** Everything detected among the earlier categories ranks below the last one. */
  lemma DetectedBelowLast(text: string, cats: seq<Category>)
    requires InDeclarationOrder(cats) && cats != []
    ensures forall x :: x in Detected(text, cats[..|cats| - 1]) ==> Rank(x) < Rank(cats[|cats| - 1])
  {
    var init := cats[..|cats| - 1];
    DetectedMembers(text, init);
    forall x | x in Detected(text, init) ensures Rank(x) < Rank(cats[|cats| - 1]) {
      var k :| 0 <= k < |init| && init[k] == x;
      assert cats[k] == x;
    }
  }

  lemma {:induction false} DetectedOrdered(text: string, cats: seq<Category>)
    requires InDeclarationOrder(cats)
    ensures InDeclarationOrder(Detected(text, cats))
    ensures |Detected(text, cats)| <= |cats|
  {
    if cats != [] {
      var init := cats[..|cats| - 1];
      var c := cats[|cats| - 1];
      assert InDeclarationOrder(init);
      DetectedOrdered(text, init);
      var d := Detected(text, init);
      if AnyIncludes(text, Keywords(c)) {
        assert Detected(text, cats) == d + [c];
        DetectedBelowLast(text, cats);
        AppendOrdered(d, c);
      } else {
        assert Detected(text, cats) == d;
      }
    }
  }

  /** One category: it is a tag iff one of its keywords occurs. */
  lemma TagIff(text: string, c: Category)
    ensures c in Detected(text, Categories) <==>
              exists k :: 0 <= k < |Keywords(c)| && Includes(text, Lower(Keywords(c)[k]))
  {
    DetectedMembers(text, Categories);
    assert Categories[Rank(c)] == c;
    AnyIncludesIff(text, Keywords(c));
  }

  /** A category is a tag iff one of its keywords, lower-cased, occurs in the lower-cased
      text; the tags are listed in declaration order without repetition, at most 8. */
  lemma GenerateTagsSpec(title: string, content: Option<string>)
    ensures forall c :: c in Detected(TagText(title, content), Categories) <==>
              exists k :: 0 <= k < |Keywords(c)| && Includes(TagText(title, content), Lower(Keywords(c)[k]))
    ensures InDeclarationOrder(Detected(TagText(title, content), Categories))
    ensures |Detected(TagText(title, content), Categories)| <= 8
  {
    var text := TagText(title, content);
    CategoriesOrdered();
    DetectedOrdered(text, Categories);
    forall c ensures c in Detected(text, Categories) <==>
                       exists k :: 0 <= k < |Keywords(c)| && Includes(text, Lower(Keywords(c)[k]))
    {
      TagIff(text, c);
    }
  }

  /** Appending text keeps every keyword found. */
  lemma {:induction false} AnyIncludesGrows(a: string, b: string, keywords: seq<string>)
    requires AnyIncludes(Lower(a), keywords)
    ensures AnyIncludes(Lower(a + b), keywords)
  {
    LowerConcat(a, b);
    if Includes(Lower(a), Lower(keywords[0])) {
      IncludesExtend(Lower(a), [], Lower(b), Lower(keywords[0]));
      assert [] + Lower(a) + Lower(b) == Lower(a + b);
    } else {
      AnyIncludesGrows(a, b, keywords[1..]);
    }
  }

  /** Every tag of the title alone is also a tag of the title with content. */
  lemma ContentOnlyAddsTags(title: string, content: string)
    ensures forall c :: c in Detected(TagText(title, None), Categories) ==> c in Detected(TagText(title, Some(content)), Categories)
  {
    DetectedMembers(TagText(title, None), Categories);
    DetectedMembers(TagText(title, Some(content)), Categories);
    forall c | c in Detected(TagText(title, None), Categories)
      ensures c in Detected(TagText(title, Some(content)), Categories)
    {
      assert title + " " + OrEmpty(None) == title + " ";
      assert title + " " + OrEmpty(Some(content)) == (title + " ") + content;
      AnyIncludesGrows(title + " ", content, Keywords(c));
    }
  }

  /** "ソフトウェア" is a keyword of both ENGINEERING and TOOLS, so it earns both tags. */
  lemma SoftwareIsTwoTags()
    ensures Engineering in Detected(TagText("ソフトウェア", None), Categories)
    ensures Tools in Detected(TagText("ソフトウェア", None), Categories)
  {
    var text := TagText("ソフトウェア", None);
    var kw := "ソフトウェア";
    assert Lower(kw) == kw;
    assert text == kw + " " by {
      assert "ソフトウェア" + " " + OrEmpty(None) == kw + " ";
    }
    assert OccursAt(text, Lower(kw), 0) by {
      assert text[..|kw|] == kw;
    }
    assert Keywords(Engineering)[7] == kw && Keywords(Tools)[4] == kw;
    AnyIncludesIff(text, Keywords(Engineering));
    AnyIncludesIff(text, Keywords(Tools));
    DetectedMembers(text, Categories);
  }

  /** `getTagDisplayName(category)`. */
  function DisplayName(c: Category): (r: string)
    ensures r != []
  {
    match c
    case Ai => "🤖 AI"
    case Engineering => "⚙️ エンジニア"
    case Business => "💼 ビジネス"
    case Tools => "🛠️ ツール"
    case News => "📰 ニュース"
    case Tutorial => "📚 チュートリアル"
    case Research => "🔬 研究"
    case Trends => "📈 トレンド"
  }

  /** The Tailwind hue of a category's tag. */
  function Hue(c: Category): (r: string)
    ensures |r| >= 2
  {
    match c
    case Ai => "purple"
    case Engineering => "blue"
    case Business => "green"
    case Tools => "orange"
    case News => "red"
    case Tutorial => "yellow"
    case Research => "indigo"
    case Trends => "pink"
  }

  /** `getTagColor(category)`: `bg-<hue>-100 text-<hue>-800`. */
  function Color(c: Category): (r: string)
    ensures r != []
  {
    "bg-" + Hue(c) + "-100 text-" + Hue(c) + "-800"
  }

  /** Reads the category back from its display name (its leading emoji). */
  function CategoryOfDisplayName(s: string): Option<Category> {
    if s == [] then None
    else if s[0] == '🤖' then Some(Ai)
    else if s[0] == '⚙' then Some(Engineering)
    else if s[0] == '💼' then Some(Business)
    else if s[0] == '🛠' then Some(Tools)
    else if s[0] == '📰' then Some(News)
    else if s[0] == '📚' then Some(Tutorial)
    else if s[0] == '🔬' then Some(Research)
    else if s[0] == '📈' then Some(Trends)
    else None
  }

  /** Reads the category back from its colour classes (the colour's first two letters). */
  function CategoryOfColor(s: string): Option<Category> {
    if |s| < 5 then None
    else if s[3] == 'p' && s[4] == 'u' then Some(Ai)
    else if s[3] == 'b' && s[4] == 'l' then Some(Engineering)
    else if s[3] == 'g' && s[4] == 'r' then Some(Business)
    else if s[3] == 'o' && s[4] == 'r' then Some(Tools)
    else if s[3] == 'r' && s[4] == 'e' then Some(News)
    else if s[3] == 'y' && s[4] == 'e' then Some(Tutorial)
    else if s[3] == 'i' && s[4] == 'n' then Some(Research)
    else if s[3] == 'p' && s[4] == 'i' then Some(Trends)
    else None
  }

  /** Each label names its category, so no two categories share a display name or a colour. */
  lemma LabelsDistinct(c: Category, d: Category)
    requires c != d
    ensures DisplayName(c) != DisplayName(d)
    ensures Color(c) != Color(d)
  {
    LabelsDecode(c);
    LabelsDecode(d);
  }

  lemma LabelsDecode(c: Category)
    ensures CategoryOfDisplayName(DisplayName(c)) == Some(c)
    ensures CategoryOfColor(Color(c)) == Some(c)
  {
    DisplayNameDecode(c);
    ColorDecode(c);
  }

  lemma DisplayNameDecode(c: Category)
    ensures CategoryOfDisplayName(DisplayName(c)) == Some(c)
  {
    match c
    case Ai =>
    case Engineering =>
    case Business =>
    case Tools =>
    case News =>
    case Tutorial =>
    case Research =>
    case Trends =>
  }

  lemma ColorDecode(c: Category)
    ensures CategoryOfColor(Color(c)) == Some(c)
  {
    assert Color(c)[3] == Hue(c)[0] && Color(c)[4] == Hue(c)[1];
  }

  /** The categories are listed in declaration order. */
  lemma CategoriesOrdered()
    ensures InDeclarationOrder(Categories)
  {
    assert Rank(Categories[0]) == 0 && Rank(Categories[1]) == 1 && Rank(Categories[2]) == 2;
    assert Rank(Categories[3]) == 3 && Rank(Categories[4]) == 4 && Rank(Categories[5]) == 5;
    assert Rank(Categories[6]) == 6 && Rank(Categories[7]) == 7;
  }
}
