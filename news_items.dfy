/** The item records that flow through the news utilities. The live adapters build
    `LiveItem`s; the mock adapter reads `MockItem`s from a JSON file; the rest of the
    code accepts either (`RssItem`) and reads fields off them without knowing which. */
module NewsItems {
  import opened Wrappers

  /** A normalised feed item; `enclosure` holds the image URL when there is one. */
  datatype LiveItem = LiveItem(
    id: string,
    title: string,
    link: string,
    pubDate: string,
    contentSnippet: string,
    enclosure: Option<string>)

  /** A record of the mock data file. Absent optional keys are `None`. */
  datatype MockItem = MockItem(
    id: string,
    summary: string,
    pubDate: Option<string>,
    content: Option<string>,
    author: Option<string>,
    category: Option<string>,
    tags: Option<seq<string>>,
    sourceUrl: Option<string>)

  /** Either kind of item. */
  datatype RssItem = Live(live: LiveItem) | Mock(mock: MockItem)

  // Field reads `(item as any).f`: a mock record has no title, link or snippet.

  function Title(item: RssItem): Option<string> {
    match item
    case Live(l) => Some(l.title)
    case Mock(_) => None
  }

  function Link(item: RssItem): Option<string> {
    match item
    case Live(l) => Some(l.link)
    case Mock(_) => None
  }

  function ContentSnippet(item: RssItem): Option<string> {
    match item
    case Live(l) => Some(l.contentSnippet)
    case Mock(_) => None
  }

  function PubDate(item: RssItem): Option<string> {
    match item
    case Live(l) => Some(l.pubDate)
    case Mock(m) => m.pubDate
  }
}
