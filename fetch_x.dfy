/** The X (Twitter) source: a recent-search request assembled from the query and the
    settings, and each returned tweet turned into a `LiveItem` with a status link, a chosen
    image and its text on one line. The HTTP call is the parameter `respond` (request to
    response); the settings `X_BEARER_TOKEN`, `X_ENABLE_MEDIA_ONLY` and `X_RESULT_LIMIT`
    are parameters; `Number(...)` on a string is the parameter `toNumber`. */
module FetchX {
  import opened Wrappers
  import opened JsString
  import opened JsArray
  import opened NewsItems
  import Id

  // ---------------------------------------------------------------------------
  // The request

  /** `Number(...)`'s result: a finite value, an infinity, or NaN. */
  datatype JsNumber = NaN | Finite(value: real) | PosInfinity | NegInfinity

  datatype Request = Request(query: string, maxResults: real, token: string)

  /** `process.env.X_ENABLE_MEDIA_ONLY === "true" ? ... : ...`. */
  function MediaPref(mediaOnly: Option<string>): string {
    if mediaOnly == Some("true") then "has:media" else "(has:links OR has:media)"
  }

  /** `Boolean` on a string. */
  predicate NonEmpty(s: string) {
    s != []
  }

  /** The four fixed filters. */
  function Filters(mediaOnly: Option<string>): seq<string> {
    ["lang:ja", "-is:retweet", "-is:reply", MediaPref(mediaOnly)]
  }

  /** `[rawQuery.trim(), langJa, noRT, noReply, mediaPref].filter(Boolean).join(" ")`. */
  function BuildQuery(rawQuery: string, mediaOnly: Option<string>): string {
    Join(Filter([Trim(rawQuery)] + Filters(mediaOnly), NonEmpty), " ")
  }

  lemma FiltersKept(mediaOnly: Option<string>)
    ensures Filter(Filters(mediaOnly), NonEmpty) == Filters(mediaOnly)
  {
    var t := Filters(mediaOnly);
    assert MediaPref(mediaOnly) != [];
    var t3 := t[3..];
    var t2 := t[2..];
    var t1 := t[1..];
    assert Filter(t3, NonEmpty) == t3 by { assert t3[1..] == []; }
    assert Filter(t2, NonEmpty) == t2 by { assert t2[1..] == t3; }
    assert Filter(t1, NonEmpty) == t1 by { assert t1[1..] == t2; }
  }

  lemma FiltersJoined(mediaOnly: Option<string>)
    ensures Join(Filters(mediaOnly), " ") == "lang:ja -is:retweet -is:reply " + MediaPref(mediaOnly)
  {
    var m := MediaPref(mediaOnly);
    JoinFour("lang:ja", "-is:retweet", "-is:reply", m, " ");
    assert "lang:ja" + " " + ("-is:retweet" + " " + ("-is:reply" + " " + m)) == "lang:ja -is:retweet -is:reply " + m;
  }

  /** The query is the trimmed input followed by the four filters, space separated; an
      input that is blank is dropped, leaving no leading space. */
  lemma QueryShape(rawQuery: string, mediaOnly: Option<string>)
    ensures BuildQuery(rawQuery, mediaOnly) ==
              (if Trim(rawQuery) == [] then "" else Trim(rawQuery) + " ") + Join(Filters(mediaOnly), " ")
  {
    var q := Trim(rawQuery);
    var tail := Filters(mediaOnly);
    FiltersKept(mediaOnly);
    assert Filter([q] + tail, NonEmpty) == (if q == [] then [] else [q]) + tail by {
      assert ([q] + tail)[1..] == tail;
    }
    if q != [] {
      assert ([q] + tail)[1..] == tail;
      assert Join([q] + tail, " ") == q + " " + Join(tail, " ");
    } else {
      assert [] + tail == tail;
    }
  }

  /** `Math.min(100, Math.max(10, Number(limit) || 20))`. */
  function MaxResults(limit: Option<string>, toNumber: string -> JsNumber): (r: real)
    ensures 10.0 <= r <= 100.0
  {
    var n := match limit case None => NaN case Some(s) => toNumber(s);
    var v := if n.NaN? || n == Finite(0.0) then Finite(20.0) else n;
    match v
    case PosInfinity => 100.0
    case NegInfinity => 10.0
    case NaN => 20.0
    case Finite(x) => if x < 10.0 then 10.0 else if x > 100.0 then 100.0 else x
  }

  /** A missing, zero or non-numeric limit gives 20; a limit inside [10, 100] is kept;
      other limits go to the nearer end. */
  lemma MaxResultsCases(limit: Option<string>, toNumber: string -> JsNumber)
    ensures limit.None? ==> MaxResults(limit, toNumber) == 20.0
    ensures limit.Some? && (toNumber(limit.value).NaN? || toNumber(limit.value) == Finite(0.0)) ==>
              MaxResults(limit, toNumber) == 20.0
    ensures limit.Some? && toNumber(limit.value).Finite? && 10.0 <= toNumber(limit.value).value <= 100.0 ==>
              MaxResults(limit, toNumber) == toNumber(limit.value).value
    ensures limit.Some? && toNumber(limit.value).Finite? && toNumber(limit.value).value > 100.0 ==>
              MaxResults(limit, toNumber) == 100.0
    ensures (limit.Some? && toNumber(limit.value).Finite? && toNumber(limit.value).value != 0.0 &&
             toNumber(limit.value).value < 10.0) ==> MaxResults(limit, toNumber) == 10.0
  {
  }

  /** The request `fetchX` sends. */
  function RequestFor(token: string, rawQuery: string, mediaOnly: Option<string>, limit: Option<string>,
                      toNumber: string -> JsNumber): Request {
    Request(BuildQuery(rawQuery, mediaOnly), MaxResults(limit, toNumber), token)
  }

  // ---------------------------------------------------------------------------
  // The response

  datatype Tweet = Tweet(id: string, text: Option<string>, createdAt: Option<string>,
                         authorId: Option<string>, mediaKeys: Option<seq<string>>)
  datatype User = User(id: string, username: string, name: string)
  datatype Media = Media(mediaKey: string, kind: string, url: Option<string>, previewImageUrl: Option<string>)

  datatype Response = Response(ok: bool, data: Option<seq<Tweet>>,
                               users: Option<seq<User>>, media: Option<seq<Media>>)

  function UserId(u: User): string { u.id }
  function MediaKey(m: Media): string { m.mediaKey }

  /** The map `forEach(x => map.set(key(x), x))` leaves: later entries overwrite earlier ones. */
  function IndexBy<T>(xs: seq<T>, key: T -> string): map<string, T> {
    if xs == [] then map[] else IndexBy(xs[..|xs| - 1], key)[key(xs[|xs| - 1]) := xs[|xs| - 1]]
  }

  /** The keys are exactly the entries' keys, and each maps to the last entry with that key. */
  lemma {:induction false} IndexByLastWins<T>(xs: seq<T>, key: T -> string)
    ensures forall k :: k in IndexBy(xs, key) <==> exists i :: 0 <= i < |xs| && key(xs[i]) == k
    ensures forall i :: 0 <= i < |xs| && (forall j :: i < j < |xs| ==> key(xs[j]) != key(xs[i])) ==>
              IndexBy(xs, key)[key(xs[i])] == xs[i]
  {
    if xs != [] {
      var init := xs[..|xs| - 1];
      IndexByLastWins(init, key);
      assert forall i :: 0 <= i < |init| ==> init[i] == xs[i];
    }
  }

  /** The `forEach(set)` loop. */
  method FillIndex<T>(xs: seq<T>, key: T -> string) returns (m: map<string, T>)
    ensures m == IndexBy(xs, key)
  {
    m := map[];
    var i := 0;
    while i < |xs|
      invariant 0 <= i <= |xs|
      invariant m == IndexBy(xs[..i], key)
    {
      assert xs[..i + 1][..i] == xs[..i];
      m := m[key(xs[i]) := xs[i]];
      i := i + 1;
    }
    assert xs[..|xs|] == xs;
  }

  // ---------------------------------------------------------------------------
  // The image

  /** The url a key offers as a photo: `m.type === "photo" && m.url`. */
  function PhotoUrl(k: string, media: map<string, Media>): Option<string> {
    if k in media && media[k].kind == "photo" && Truthy(media[k].url) then media[k].url else None
  }

  /** The preview a key offers: `m.preview_image_url`. */
  function PreviewUrl(k: string, media: map<string, Media>): Option<string> {
    if k in media && Truthy(media[k].previewImageUrl) then media[k].previewImageUrl else None
  }

  predicate Truthy(v: Option<string>) {
    v.Some? && v.value != []
  }

  /** The first photo url among the keys. */
  function FirstPhoto(keys: seq<string>, media: map<string, Media>): Option<string> {
    if keys == [] then None
    else if PhotoUrl(keys[0], media).Some? then PhotoUrl(keys[0], media)
    else FirstPhoto(keys[1..], media)
  }

  /** The first preview among the keys. */
  function FirstPreview(keys: seq<string>, media: map<string, Media>): Option<string> {
    if keys == [] then None
    else
      var earlier := FirstPreview(keys[..|keys| - 1], media);
      if earlier.Some? then earlier else PreviewUrl(keys[|keys| - 1], media)
  }

  /** The image a tweet gets: a photo url if any, else a preview. */
  function ImageChoice(keys: seq<string>, media: map<string, Media>): Option<string> {
    if FirstPhoto(keys, media).Some? then FirstPhoto(keys, media) else FirstPreview(keys, media)
  }

  lemma {:induction false} FirstPhotoAt(keys: seq<string>, media: map<string, Media>, k: nat)
    requires k <= |keys| && forall j :: 0 <= j < k ==> PhotoUrl(keys[j], media).None?
    ensures k < |keys| && PhotoUrl(keys[k], media).Some? ==> FirstPhoto(keys, media) == PhotoUrl(keys[k], media)
    ensures k == |keys| ==> FirstPhoto(keys, media).None?
  {
    if k > 0 {
      FirstPhotoAt(keys[1..], media, k - 1);
    } else if keys != [] && k == |keys| {
      assert false;
    }
  }

  lemma {:induction false} FirstPreviewAt(keys: seq<string>, media: map<string, Media>, k: nat)
    requires k <= |keys| && forall j :: 0 <= j < k ==> PreviewUrl(keys[j], media).None?
    ensures k < |keys| && PreviewUrl(keys[k], media).Some? ==> FirstPreview(keys, media) == PreviewUrl(keys[k], media)
    ensures k == |keys| ==> FirstPreview(keys, media).None?
  {
    if keys != [] {
      var init := keys[..|keys| - 1];
      assert forall j :: 0 <= j < |init| ==> init[j] == keys[j];
      if k < |keys| - 1 {
        FirstPreviewAt(init, media, k);
      } else {
        FirstPreviewAt(init, media, |init|);
      }
    }
  }

  /** The choice, case by case: the first photo with a url wins; without one, the first
      preview in key order; without either, no image. */
  lemma ImageChoiceCases(keys: seq<string>, media: map<string, Media>)
    ensures forall k :: 0 <= k < |keys| && PhotoUrl(keys[k], media).Some? &&
                        (forall j :: 0 <= j < k ==> PhotoUrl(keys[j], media).None?) ==>
                        ImageChoice(keys, media) == PhotoUrl(keys[k], media)
    ensures (forall j :: 0 <= j < |keys| ==> PhotoUrl(keys[j], media).None?) ==>
              forall k :: 0 <= k < |keys| && PreviewUrl(keys[k], media).Some? &&
                          (forall j :: 0 <= j < k ==> PreviewUrl(keys[j], media).None?) ==>
                          ImageChoice(keys, media) == PreviewUrl(keys[k], media)
    ensures ImageChoice(keys, media).None? <==>
              forall j :: 0 <= j < |keys| ==> PhotoUrl(keys[j], media).None? && PreviewUrl(keys[j], media).None?
  {
    forall k | 0 <= k < |keys| && PhotoUrl(keys[k], media).Some? &&
               (forall j :: 0 <= j < k ==> PhotoUrl(keys[j], media).None?)
      ensures ImageChoice(keys, media) == PhotoUrl(keys[k], media)
    {
      FirstPhotoAt(keys, media, k);
    }
    if forall j :: 0 <= j < |keys| ==> PhotoUrl(keys[j], media).None? {
      FirstPhotoAt(keys, media, |keys|);
      forall k | 0 <= k < |keys| && PreviewUrl(keys[k], media).Some? &&
                 (forall j :: 0 <= j < k ==> PreviewUrl(keys[j], media).None?)
        ensures ImageChoice(keys, media) == PreviewUrl(keys[k], media)
      {
        FirstPreviewAt(keys, media, k);
      }
      if forall j :: 0 <= j < |keys| ==> PreviewUrl(keys[j], media).None? {
        FirstPreviewAt(keys, media, |keys|);
      }
    }
    if ImageChoice(keys, media).None? {
      FirstPhotoNone(keys, media);
      FirstPreviewNone(keys, media);
    }
  }

  lemma {:induction false} FirstPhotoNone(keys: seq<string>, media: map<string, Media>)
    requires FirstPhoto(keys, media).None?
    ensures forall j :: 0 <= j < |keys| ==> PhotoUrl(keys[j], media).None?
  {
    if keys != [] {
      FirstPhotoNone(keys[1..], media);
      assert forall j :: 1 <= j < |keys| ==> keys[j] == keys[1..][j - 1];
    }
  }

  lemma {:induction false} FirstPreviewNone(keys: seq<string>, media: map<string, Media>)
    requires FirstPreview(keys, media).None?
    ensures forall j :: 0 <= j < |keys| ==> PreviewUrl(keys[j], media).None?
  {
    if keys != [] {
      var init := keys[..|keys| - 1];
      FirstPreviewNone(init, media);
      assert forall j :: 0 <= j < |init| ==> init[j] == keys[j];
    }
  }

  /** The media loop: it stops at the first photo with a url and otherwise keeps the first
      preview it meets. */
  method ChooseImage(keys: seq<string>, media: map<string, Media>) returns (image: Option<string>)
    ensures image == ImageChoice(keys, media)
  {
    image := None;
    var i := 0;
    while i < |keys|
      invariant 0 <= i <= |keys|
      invariant forall j :: 0 <= j < i ==> PhotoUrl(keys[j], media).None?
      invariant image == FirstPreview(keys[..i], media)
    {
      var k := keys[i];
      assert keys[..i + 1][..i] == keys[..i];
      if k !in media {
        i := i + 1;
        continue;
      }
      var m := media[k];
      if m.kind == "photo" && Truthy(m.url) {
        image := m.url;
        FirstPhotoAt(keys, media, i);
        return;
      }
      if image.None? && Truthy(m.previewImageUrl) {
        image := m.previewImageUrl;
      }
      i := i + 1;
    }
    assert keys[..|keys|] == keys;
    FirstPhotoAt(keys, media, |keys|);
  }

  // ---------------------------------------------------------------------------
  // The text

  /** `text.replace(/\s+/g, " ")`: every run of white space becomes one space. */
  function CollapseWhite(s: string): (r: string)
    decreases |s|
  {
    if s == [] then []
    else if IsWhite(s[0]) then
      var rest := TrimStart(s);
      assert rest != s;
      [' '] + CollapseWhite(rest)
    else [s[0]] + CollapseWhite(s[1..])
  }

  /** The only white space is the plain space, and no two spaces are adjacent. */
  predicate SingleSpaced(s: string) {
    && (forall i :: 0 <= i < |s| && IsWhite(s[i]) ==> s[i] == ' ')
    && (forall i :: 0 <= i < |s| - 1 ==> !(s[i] == ' ' && s[i + 1] == ' '))
  }

  lemma {:induction false} CollapseSingleSpaced(s: string)
    ensures SingleSpaced(CollapseWhite(s))
    ensures s != [] ==> CollapseWhite(s) != [] && CollapseWhite(s)[0] == (if IsWhite(s[0]) then ' ' else s[0])
    decreases |s|
  {
    if s != [] {
      var r := CollapseWhite(s);
      if IsWhite(s[0]) {
        var rest := TrimStart(s);
        assert rest != s;
        CollapseSingleSpaced(rest);
        var c := CollapseWhite(rest);
        assert r == [' '] + c;
        assert forall i :: 1 <= i < |r| ==> r[i] == c[i - 1];
      } else {
        CollapseSingleSpaced(s[1..]);
        var c := CollapseWhite(s[1..]);
        assert r == [s[0]] + c;
        assert forall i :: 1 <= i < |r| ==> r[i] == c[i - 1];
      }
    }
  }

  /** Collapsing keeps every character that is not white space, in order. */
  lemma {:induction false} CollapseKeepsText(s: string)
    ensures Drop(CollapseWhite(s), IsWhite) == Drop(s, IsWhite)
    decreases |s|
  {
    if s != [] {
      if IsWhite(s[0]) {
        var rest := TrimStart(s);
        assert rest != s;
        CollapseKeepsText(rest);
        var k := |s| - |rest|;
        assert s == s[..k] + rest;
        DropConcat(s[..k], rest, IsWhite);
        DropAllWhite(s[..k]);
        DropConcat([' '], CollapseWhite(rest), IsWhite);
      } else {
        CollapseKeepsText(s[1..]);
      }
    }
  }

  /** The tail of a single-spaced text is single-spaced. */
  lemma SingleSpacedTail(s: string)
    requires s != [] && SingleSpaced(s)
    ensures SingleSpaced(s[1..])
  {
    assert forall i :: 0 <= i < |s| - 1 ==> s[1..][i] == s[i + 1];
  }

  /** Skipping one space before a character that is not white space. */
  lemma TrimStartOneSpace(s: string)
    requires s != [] && IsWhite(s[0]) && (|s| == 1 || !IsWhite(s[1]))
    ensures TrimStart(s) == s[1..]
  {
    assert TrimStart(s) == TrimStart(s[1..]);
  }

  /** Text already single-spaced is left as it is. */
  lemma {:induction false} CollapseFixpoint(s: string)
    requires SingleSpaced(s)
    ensures CollapseWhite(s) == s
    decreases |s|
  {
    if s != [] {
      SingleSpacedTail(s);
      CollapseFixpoint(s[1..]);
      if IsWhite(s[0]) {
        assert s[0] == ' ';
        if |s| > 1 { assert !(s[0] == ' ' && s[1] == ' '); }
        TrimStartOneSpace(s);
      }
    }
  }

  /** A slice of a single-spaced text is single-spaced. */
  lemma SliceSingleSpaced(s: string, i: nat, j: nat)
    requires SingleSpaced(s) && i <= j <= |s|
    ensures SingleSpaced(s[i..j])
  {
    assert forall k :: 0 <= k < j - i ==> s[i..j][k] == s[i + k];
  }

  lemma TrimSingleSpaced(s: string)
    requires SingleSpaced(s)
    ensures SingleSpaced(Trim(s))
  {
    TrimParts(s);
    var i := |s| - |TrimStart(s)|;
    SliceSingleSpaced(s, i, i + |Trim(s)|);
  }

  /** `text.replace(/\s+/g, " ").trim()`. */
  function OneLine(text: string): string {
    Trim(CollapseWhite(text))
  }

  /** The one-line text: no white space at its ends, single spaces inside, and the same
      non-white characters in the same order as the original. */
  lemma OneLineShape(text: string)
    ensures Trimmed(OneLine(text))
    ensures SingleSpaced(OneLine(text))
    ensures Drop(OneLine(text), IsWhite) == Drop(text, IsWhite)
  {
    var c := CollapseWhite(text);
    assert SingleSpaced(Trim(c)) by {
      CollapseSingleSpaced(text);
      TrimSingleSpaced(c);
    }
    assert Drop(Trim(c), IsWhite) == Drop(text, IsWhite) by {
      CollapseKeepsText(text);
      DropWhiteTrim(c);
    }
  }

  /** Putting a text on one line twice changes nothing more. */
  lemma OneLineIdempotent(text: string)
    ensures OneLine(OneLine(text)) == OneLine(text)
  {
    OneLineShape(text);
    CollapseFixpoint(OneLine(text));
    TrimFixpoint(OneLine(text));
  }

  // ---------------------------------------------------------------------------
  // Tweets to items

  /** The author's screen name, when `author_id` resolves to a user with one. */
  function ScreenName(t: Tweet, users: map<string, User>): Option<string> {
    if Truthy(t.authorId) && t.authorId.value in users && users[t.authorId.value].username != []
    then Some(users[t.authorId.value].username) else None
  }

  /** The status link. */
  function StatusLink(t: Tweet, users: map<string, User>): string {
    match ScreenName(t, users)
    case Some(screen) => "https://x.com/" + screen + "/status/" + t.id
    case None => "https://x.com/i/web/status/" + t.id
  }

  /** A link always names the tweet by its id at the end, under the author's name when it
      resolves, else under `i/web`. */
  lemma StatusLinkShape(t: Tweet, users: map<string, User>)
    ensures var link := StatusLink(t, users);
            && StartsWith(link, "https://x.com/")
            && link[|link| - |t.id|..] == t.id
            && (ScreenName(t, users).Some? ==>
                  link[14..|link| - |t.id|] == ScreenName(t, users).value + "/status/")
            && (ScreenName(t, users).None? ==> link[14..|link| - |t.id|] == "i/web/status/")
  {
    var link := StatusLink(t, users);
    var who := match ScreenName(t, users) case Some(s) => s case None => "i/web";
    assert link == "https://x.com/" + (who + "/status/") + t.id;
  }

  /** The item built from a tweet once its link and image are known. */
  function ItemOf(t: Tweet, i: nat, link: string, image: Option<string>, hashLink: string -> string): LiveItem {
    var oneline := OneLine(OrEmpty(t.text));
    LiveItem(Id.StableId(None, Some(link), Some(i), hashLink), oneline, link, OrEmpty(t.createdAt), oneline,
             if Truthy(image) then image else None)
  }

  /** One entry of `(json.data || []).map((t, i) => ...)`. */
  function TweetItem(t: Tweet, i: nat, users: map<string, User>, media: map<string, Media>,
                     hashLink: string -> string): LiveItem {
    ItemOf(t, i, StatusLink(t, users), ImageChoice(t.mediaKeys.GetOr([]), media), hashLink)
  }

  /** A status link is never blank: it starts with `h`. */
  lemma StatusLinkHasText(t: Tweet, users: map<string, User>)
    ensures Id.HasText(Some(StatusLink(t, users)))
  {
    StatusLinkShape(t, users);
    var link := StatusLink(t, users);
    assert link[..14] == "https://x.com/";
    assert link[0] == 'h';
  }

  /** The id of a tweet's item is the digest of its link; the title and the snippet are the
      same one-line text; the enclosure is the chosen image. */
  lemma TweetItemShape(t: Tweet, i: nat, users: map<string, User>, media: map<string, Media>,
                       hashLink: string -> string)
    ensures TweetItem(t, i, users, media, hashLink).id == hashLink(StatusLink(t, users))
    ensures TweetItem(t, i, users, media, hashLink).link == StatusLink(t, users)
    ensures TweetItem(t, i, users, media, hashLink).title == OneLine(OrEmpty(t.text))
    ensures TweetItem(t, i, users, media, hashLink).contentSnippet == OneLine(OrEmpty(t.text))
    ensures TweetItem(t, i, users, media, hashLink).pubDate == OrEmpty(t.createdAt)
    ensures TweetItem(t, i, users, media, hashLink).enclosure == ImageChoice(t.mediaKeys.GetOr([]), media)
  {
    StatusLinkHasText(t, users);
    ImageChoiceTruthy(t.mediaKeys.GetOr([]), media);
  }

  /** Every image the choice offers is non-empty. */
  lemma ImageChoiceTruthy(keys: seq<string>, media: map<string, Media>)
    ensures ImageChoice(keys, media).Some? ==> Truthy(ImageChoice(keys, media))
  {
    PhotoTruthy(keys, media);
    PreviewTruthy(keys, media);
  }

  lemma {:induction false} PhotoTruthy(keys: seq<string>, media: map<string, Media>)
    ensures FirstPhoto(keys, media).Some? ==> Truthy(FirstPhoto(keys, media))
  {
    if keys != [] {
      PhotoTruthy(keys[1..], media);
    }
  }

  lemma {:induction false} PreviewTruthy(keys: seq<string>, media: map<string, Media>)
    ensures FirstPreview(keys, media).Some? ==> Truthy(FirstPreview(keys, media))
  {
    if keys != [] {
      PreviewTruthy(keys[..|keys| - 1], media);
    }
  }

  /** The map callback, as a function of the tweet and its position. */
  function TweetToItem(users: map<string, User>, media: map<string, Media>, hashLink: string -> string):
    (Tweet, nat) -> LiveItem
  {
    (t: Tweet, i: nat) => TweetItem(t, i, users, media, hashLink)
  }

  /** The items of a successful response. */
  function ResponseItems(resp: Response, hashLink: string -> string): seq<LiveItem> {
    MapIndexed(resp.data.GetOr([]),
               TweetToItem(IndexBy(resp.users.GetOr([]), UserId), IndexBy(resp.media.GetOr([]), MediaKey), hashLink))
  }

  /** The per-tweet map, with the media loop run for each tweet. */
  method MapTweets(tweets: seq<Tweet>, users: map<string, User>, media: map<string, Media>,
                   hashLink: string -> string) returns (items: seq<LiveItem>)
    ensures items == MapIndexed(tweets, TweetToItem(users, media, hashLink))
  {
    var f := TweetToItem(users, media, hashLink);
    items := [];
    var i := 0;
    while i < |tweets|
      invariant 0 <= i <= |tweets|
      invariant items == MapIndexed(tweets[..i], f)
    {
      var t := tweets[i];
      var link := StatusLink(t, users);
      var image := ChooseImage(t.mediaKeys.GetOr([]), media);
      var item := ItemOf(t, i, link, image, hashLink);
      assert items + [item] == MapIndexed(tweets[..i + 1], f) by {
        assert item == f(t, i);
        MapIndexedSnoc(tweets, i, f);
      }
      items := items + [item];
      i := i + 1;
    }
    assert tweets[..|tweets|] == tweets;
  }

  /** `fetchX(rawQuery)`: no token or a failed response gives no items; otherwise one item
      per returned tweet, with authors and media looked up in the response's includes. */
  method FetchX(token: Option<string>, rawQuery: string, mediaOnly: Option<string>, limit: Option<string>,
                toNumber: string -> JsNumber, respond: Request -> Response, hashLink: string -> string)
    returns (items: seq<LiveItem>)
    ensures !Truthy(token) ==> items == []
    ensures Truthy(token) && !respond(RequestFor(token.value, rawQuery, mediaOnly, limit, toNumber)).ok ==>
              items == []
    ensures Truthy(token) && respond(RequestFor(token.value, rawQuery, mediaOnly, limit, toNumber)).ok ==>
              items == ResponseItems(respond(RequestFor(token.value, rawQuery, mediaOnly, limit, toNumber)), hashLink)
  {
    if !Truthy(token) {
      return [];
    }
    var request := Request(BuildQuery(rawQuery, mediaOnly), MaxResults(limit, toNumber), token.value);
    var res := respond(request);
    if !res.ok {
      return [];
    }
    var users := FillIndex(res.users.GetOr([]), UserId);
    var media := FillIndex(res.media.GetOr([]), MediaKey);
    items := MapTweets(res.data.GetOr([]), users, media, hashLink);
  }
}
