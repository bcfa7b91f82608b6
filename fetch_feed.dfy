/** The live-feed source: each parsed RSS entry becomes a `LiveItem`, with defaults for
    missing fields, a stable id and an image picked by a fixed priority. Fetching and
    parsing the feed are I/O; the parsed entries are the input. The `<img src>` search in
    HTML enters as the parameter `imgSrc`, the first group of that regular expression. */
module FetchFeed {
  import opened Wrappers
  import opened JsString
  import opened NewsItems
  import Id

  /** A media element as rss-parser gives it: a `url` property or a `$.url` attribute. */
  datatype MediaRef = MediaRef(url: Option<string>, attrUrl: Option<string>)

  /** `media:content`, kept as an array, a single object, or absent. */
  datatype MediaContent = NoMedia | MediaList(entries: seq<Option<MediaRef>>) | MediaSingle(entry: MediaRef)

  /** A parsed feed entry: the fields the mapping reads. */
  datatype FeedEntry = FeedEntry(
    guid: Option<string>,
    title: Option<string>,
    link: Option<string>,
    pubDate: Option<string>,
    contentSnippet: Option<string>,
    enclosureUrl: Option<string>,
    mediaContent: MediaContent,
    mediaThumbnail: Option<MediaRef>,
    contentEncoded: Option<string>)

  /** JavaScript truthiness of an optional string: present and not empty. */
  predicate Truthy(v: Option<string>) {
    v.Some? && v.value != []
  }

  /** `v?.url || v?.$?.url`. */
  function MediaUrl(v: Option<MediaRef>): Option<string> {
    match v
    case None => None
    case Some(m) => if Truthy(m.url) then m.url else m.attrUrl
  }

  /** The `for (const v of mc)` search: the first entry whose url is truthy. */
  function FirstMediaUrl(entries: seq<Option<MediaRef>>): (r: Option<string>)
    ensures r.Some? ==> Truthy(r)
  {
    if entries == [] then None
    else if Truthy(MediaUrl(entries[0])) then MediaUrl(entries[0])
    else FirstMediaUrl(entries[1..])
  }

  /** The search returns the url of the first entry that has one, and nothing when none has. */
  lemma {:induction false} FirstMediaUrlIsFirst(entries: seq<Option<MediaRef>>)
    ensures FirstMediaUrl(entries).None? <==> forall k :: 0 <= k < |entries| ==> !Truthy(MediaUrl(entries[k]))
    ensures forall k :: 0 <= k < |entries| && Truthy(MediaUrl(entries[k])) &&
                        (forall j :: 0 <= j < k ==> !Truthy(MediaUrl(entries[j]))) ==>
                        FirstMediaUrl(entries) == MediaUrl(entries[k])
  {
    if entries != [] {
      FirstMediaUrlIsFirst(entries[1..]);
      assert forall k :: 1 <= k < |entries| ==> entries[k] == entries[1..][k - 1];
    }
  }

  /** The url `media:content` offers: from the array search, or from the single object. */
  function ContentUrl(mc: MediaContent): (r: Option<string>)
    ensures r.Some? ==> Truthy(r)
  {
    match mc
    case NoMedia => None
    case MediaList(entries) => FirstMediaUrl(entries)
    case MediaSingle(m) => if Truthy(MediaUrl(Some(m))) then MediaUrl(Some(m)) else None
  }

  /** `firstImgFromHtml(html)`: nothing for missing or empty HTML. */
  function FirstImgFromHtml(html: Option<string>, imgSrc: string -> Option<string>): (r: Option<string>)
    ensures !Truthy(html) ==> r.None?
  {
    if !Truthy(html) then None else imgSrc(html.value)
  }

  /** `pickImage(item)`: the enclosure, then media content, then the thumbnail, then the
      first image in the HTML body, each taken only when truthy. */
  function PickImage(e: FeedEntry, imgSrc: string -> Option<string>): (r: Option<string>)
    ensures r.Some? ==> Truthy(r)
  {
    if Truthy(e.enclosureUrl) then e.enclosureUrl
    else if ContentUrl(e.mediaContent).Some? then ContentUrl(e.mediaContent)
    else if Truthy(MediaUrl(e.mediaThumbnail)) then MediaUrl(e.mediaThumbnail)
    else if Truthy(FirstImgFromHtml(e.contentEncoded, imgSrc)) then FirstImgFromHtml(e.contentEncoded, imgSrc)
    else None
  }

  /** The priority chain: a source is used exactly when every earlier one offers nothing, and
      there is no image exactly when none of them offers one. */
  lemma PickImagePriority(e: FeedEntry, imgSrc: string -> Option<string>)
    ensures Truthy(e.enclosureUrl) ==> PickImage(e, imgSrc) == e.enclosureUrl
    ensures (!Truthy(e.enclosureUrl) && e.mediaContent.MediaList?) ==>
              forall k :: 0 <= k < |e.mediaContent.entries| && Truthy(MediaUrl(e.mediaContent.entries[k])) &&
                          (forall j :: 0 <= j < k ==> !Truthy(MediaUrl(e.mediaContent.entries[j]))) ==>
                          PickImage(e, imgSrc) == MediaUrl(e.mediaContent.entries[k])
    ensures (!Truthy(e.enclosureUrl) && e.mediaContent.MediaSingle? && Truthy(MediaUrl(Some(e.mediaContent.entry)))) ==>
              PickImage(e, imgSrc) == MediaUrl(Some(e.mediaContent.entry))
    ensures (!Truthy(e.enclosureUrl) && ContentUrl(e.mediaContent).None? && Truthy(MediaUrl(e.mediaThumbnail))) ==>
              PickImage(e, imgSrc) == MediaUrl(e.mediaThumbnail)
    ensures (!Truthy(e.enclosureUrl) && ContentUrl(e.mediaContent).None? && !Truthy(MediaUrl(e.mediaThumbnail))) ==>
              PickImage(e, imgSrc) == (if Truthy(FirstImgFromHtml(e.contentEncoded, imgSrc))
                                       then FirstImgFromHtml(e.contentEncoded, imgSrc) else None)
    ensures PickImage(e, imgSrc).None? <==>
              !Truthy(e.enclosureUrl) && ContentUrl(e.mediaContent).None? && !Truthy(MediaUrl(e.mediaThumbnail))
              && !Truthy(FirstImgFromHtml(e.contentEncoded, imgSrc))
  {
    if e.mediaContent.MediaList? {
      FirstMediaUrlIsFirst(e.mediaContent.entries);
    }
  }

  /** One entry of `items.map((entry, i) => ...)`. */
  function ToLiveItem(e: FeedEntry, i: nat, hashLink: string -> string, imgSrc: string -> Option<string>): LiveItem {
    LiveItem(
      Id.StableId(e.guid, Some(OrEmpty(e.link)), Some(i), hashLink),
      OrEmpty(e.title),
      OrEmpty(e.link),
      OrEmpty(e.pubDate),
      OrEmpty(e.contentSnippet),
      var imageUrl := PickImage(e, imgSrc); if Truthy(imageUrl) then imageUrl else None)
  }

  /** `fetchFeed(url)` after parsing: `feed.items` when it is an array, else no items. */
  function FetchFeed(items: Option<seq<FeedEntry>>, hashLink: string -> string,
                     imgSrc: string -> Option<string>): seq<LiveItem> {
    match items
    case None => []
    case Some(es) => seq(|es|, i requires 0 <= i < |es| => ToLiveItem(es[i], i, hashLink, imgSrc))
  }

  /** One item per entry, in order: the id is the stable id of the entry's guid, link and
      position; missing text fields become empty; the enclosure is present exactly when an
      image was picked, and is that image. */
  lemma FetchFeedShape(es: seq<FeedEntry>, hashLink: string -> string, imgSrc: string -> Option<string>)
    ensures |FetchFeed(Some(es), hashLink, imgSrc)| == |es|
    ensures forall i :: 0 <= i < |es| ==>
              var r := FetchFeed(Some(es), hashLink, imgSrc)[i];
              && r.id == Id.StableId(es[i].guid, Some(OrEmpty(es[i].link)), Some(i), hashLink)
              && r.title == OrEmpty(es[i].title)
              && r.link == OrEmpty(es[i].link)
              && r.pubDate == OrEmpty(es[i].pubDate)
              && r.contentSnippet == OrEmpty(es[i].contentSnippet)
              && (r.enclosure.Some? <==> PickImage(es[i], imgSrc).Some?)
              && r.enclosure == PickImage(es[i], imgSrc)
  {
  }

  /** A feed without an item array yields no items. */
  lemma NoItemsNoOutput(hashLink: string -> string, imgSrc: string -> Option<string>)
    ensures FetchFeed(None, hashLink, imgSrc) == []
  {
  }

  /** Entries with neither a guid nor a link get their positions as ids, so they never
      share one. */
  lemma PositionalIdsDistinct(es: seq<FeedEntry>, hashLink: string -> string, imgSrc: string -> Option<string>,
                              i: nat, j: nat)
    requires i < j < |es|
    requires !Id.HasText(es[i].guid) && !Id.HasText(es[i].link)
    requires !Id.HasText(es[j].guid) && !Id.HasText(es[j].link)
    ensures FetchFeed(Some(es), hashLink, imgSrc)[i].id != FetchFeed(Some(es), hashLink, imgSrc)[j].id
  {
    Id.NonBlankIff(es[i].guid);
    Id.NonBlankIff(es[j].guid);
    Id.NonBlankIff(Some(OrEmpty(es[i].link)));
    Id.NonBlankIff(Some(OrEmpty(es[j].link)));
    if es[i].link.None? { assert AllWhite(OrEmpty(es[i].link)); }
    if es[j].link.None? { assert AllWhite(OrEmpty(es[j].link)); }
    Id.FallbackIdsDistinct(es[i].guid, Some(OrEmpty(es[i].link)), es[j].guid, Some(OrEmpty(es[j].link)), i, j, hashLink);
  }
}
