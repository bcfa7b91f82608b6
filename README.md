# News utilities — a Dafny model

This project models the item-processing rules of a Japanese tech-news web app in
Dafny and proves properties about them. The app collects articles from RSS feeds, a
mock data file and the X (Twitter) recent-search API, and turns each one into a news
item. The rules modelled here are:

- how an item is scored for popularity and ranked, window items first;
- how keyword tags are detected;
- how an article image is picked;
- how an age becomes Japanese relative time;
- how a stable id is chosen;
- how news is ordered by date or relevance;
- how the extra feed list is built;
- how a Markdown link in a mock record's source URL is normalised;
- how parsed feed entries and tweets become items;
- how the popular-news panel splits items into a Japanese tab and an English tab.

There is one module per source file:

| module | source |
|---|---|
| `Popularity` | `utils/popularity.ts` |
| `Tags` | `utils/tags.ts` |
| `ImageGenerator` | `utils/imageGenerator.ts` |
| `RelativeDate` | `utils/date.ts` |
| `Id` | `utils/id.ts` |
| `FetchNews` | `utils/fetchNews.ts` |
| `Feeds` | `utils/feeds.ts` |
| `FetchMock` | `utils/fetchMock.ts` |
| `FetchFeed` | `utils/fetchFeed.ts` |
| `FetchX` | `utils/fetchX.ts` |
| `PopularNewsSection` | `src/components/news/PopularNewsSection.tsx` |

Four helper modules support them:

- `Wrappers` holds `Option`, which stands for `undefined`.
- `NewsItems` holds the item records.
- `JsString` holds the string built-ins the code calls: `trim`, `toLowerCase`, `includes`, `split`, `join`, `String(n)` and UTF-16 `length`.
- `JsArray` holds the array built-ins: `filter`, `slice`, `map`, and the stable `sort` with a numeric comparator.

Where the source updates state step by step, the model is a method with a loop:
- the keyword sum, the scoring accumulator, the window split and the per-group scoring map;
- the tag push loop;
- the `Map.set` loops, the media loop and the tweet map in `fetchX`.

Each such method is proved equal to a specification function. The lemmas about that function carry the properties.

Calls into code outside the model become parameters:
- `parse` stands for `new Date(s).getTime()`, and is `None` for an invalid date;
- `hostname` stands for `new URL(s).hostname`, and is `None` when the constructor throws;
- `hashLink` stands for SHA-1 in hex;
- `now` is `Date.now()`;
- `jitters` holds one `Math.random() * 5` draw per scored item;
- `imgSrc` is the first group of the `<img … src=…>` regular expression;
- `toNumber` is `Number(...)`;
- `respond` is the HTTP exchange in `fetchX`;
- environment variables are plain arguments.

## Model

| member | source | states |
|---|---|---|
| Popularity.Round | utils/popularity.ts:17 | `Math.round` gives the integer `r` with `r <= x + 0.5 < r + 1`, so halves round up |
| Popularity.RecencyInWindow | utils/popularity.ts:13-17 | an age from 0 to the window's length earns between 12 and 25 |
| Popularity.RecencyFuture | utils/popularity.ts:14-17 | a date in the future (negative age) earns at least 25 |
| Popularity.RecencyOutOfWindow | utils/popularity.ts:18-22 | an age past the window costs between 0 and 15 points |
| Popularity.RecencyFullPenalty | utils/popularity.ts:20-21 | from 29 days past the window on, the term is exactly -15 |
| Popularity.RecencyMonotone | utils/popularity.ts:13-22 | an older item never earns a higher recency term, including across the window boundary |
| Popularity.DomainPopularityScore | utils/popularity.ts:63-91 | a listed host gets its table weight and any other host gets 10; because no weight is 0, `|| 10` changes nothing; the term always lies in [10, 30] |
| Popularity.DomainTermOfUrl | utils/popularity.ts:53-60 | a URL that does not parse scores 10; a host without `www.` is looked up as it is; `www.` + h is looked up as h |
| Popularity.TitleTerm | utils/popularity.ts:31-33 | 10 iff the length is in [20, 80]; 5 iff it is in [10, 100] outside [20, 80]; 0 otherwise |
| Popularity.ContentTerm | utils/popularity.ts:36-39 | 15 iff the length is ≥ 100; 10 iff it is in [50, 100); 5 iff it is in [20, 50); 0 iff it is < 20 |
| Popularity.ContentTermMonotone | utils/popularity.ts:36-39 | a longer snippet never earns less |
| Popularity.GetKeywordPopularityScore | utils/popularity.ts:94-132 | the loop over the table returns the sum of the weights of the keywords found in the lower-cased text |
| Popularity.KeywordSumBounds | utils/popularity.ts:122-131 | each keyword counts at most once, so the term lies between 0 and the table's total weight |
| Popularity.KeywordSumMonotone | utils/popularity.ts:122-131 | appending text never lowers the keyword term |
| Popularity.JitterBounded | utils/popularity.ts:45-49 | with a draw in [0, 5), the rounded score lies between the base score and the base score + 5 |
| Popularity.UnparseableDatePenalised | utils/popularity.ts:8-22 | an undated item is aged from epoch 0; with a present-day clock it takes the full -15, and is not treated as new |
| Popularity.CalculatePopularityScore | utils/popularity.ts:4-50 | the accumulation of the six terms, in the source's order, rounds to the popularity score |
| Popularity.WindowMatchesRecency | utils/popularity.ts:137-145 | an item the window test keeps earns a recency term ≥ 12; an excluded item earns ≤ 0 while the clock is past the first window |
| Popularity.Partition | utils/popularity.ts:140-146 | the two groups together hold the input as a multiset; the first holds only in-window items, the second only the rest |
| Popularity.SplitByWindow | utils/popularity.ts:143-146 | the push loop builds exactly the partition |
| Popularity.ScoreAll | utils/popularity.ts:149-150 | one scored entry per item, in order, each pairing the item with its own score |
| Popularity.ScoreEach | utils/popularity.ts:149-150 | the scoring map, calling the score method once per item, yields the scored group |
| Popularity.SortedGroup | utils/popularity.ts:149-154 | a sorted group has its items' length, is non-increasing by score, draws every entry from its items, and scores each entry within 5 of its base |
| Popularity.GroupItems | utils/popularity.ts:149-154 | a sorted group holds exactly its items, counted with repetition |
| Popularity.ConcatGroups | utils/popularity.ts:156 | an in-window group followed by an out-of-window group puts window items first and keeps each group sorted |
| Popularity.PrefixKeeps | utils/popularity.ts:157 | truncation keeps the ordering, membership and score properties |
| Popularity.RankedOrder | utils/popularity.ts:143-156 | before truncation: length = input length, window items first, scores non-increasing within each group, every entry an input item |
| Popularity.RankedPermutation | utils/popularity.ts:143-156 | before truncation the items of the ranking are a permutation of the input |
| Popularity.PopularArticlesOrder | utils/popularity.ts:135-157 | the truncated result keeps window-first order, per-group score order, membership and score bounds |
| Popularity.GetPopularArticles | utils/popularity.ts:135-157 | the method computes the ranking truncated to `count`; for count ≥ 0 its length is min(count, number of items) |
| Tags.Rank | utils/tags.ts:4-13 | every category has a position in the declaration order, and that position holds it |
| Tags.CategoriesOrdered | utils/tags.ts:4-13 | the category list is strictly increasing in declaration order |
| Tags.AnyIncludesIff | utils/tags.ts:24-26 | the short-circuit `some` is true iff some keyword, lower-cased, occurs in the text |
| Tags.GenerateTags | utils/tags.ts:18-33 | the push loop over the categories returns the detected categories of the lower-cased `title + " " + (content or "")` |
| Tags.DetectedMembers | utils/tags.ts:23-30 | a category is detected iff it is listed and one of its keywords matches |
| Tags.DetectedOrdered | utils/tags.ts:23-30 | detection keeps declaration order, so there are no repeats, and it returns no more categories than were listed |
| Tags.TagIff | utils/tags.ts:19-29 | one category is a tag iff one of its keywords, lower-cased, occurs in the text |
| Tags.GenerateTagsSpec | utils/tags.ts:18-33 | tag iff a keyword occurs; in declaration order; no repeats; at most 8 tags |
| Tags.AnyIncludesGrows | utils/tags.ts:19-26 | a keyword found in a text is still found after more text is appended |
| Tags.ContentOnlyAddsTags | utils/tags.ts:19 | every tag of the title alone is also a tag of the title with content |
| Tags.SoftwareIsTwoTags | utils/tags.ts:6-8 | "ソフトウェア" gets both ENGINEERING and TOOLS |
| Tags.DisplayName | utils/tags.ts:36-48 | defined for all eight categories and never empty |
| Tags.Color | utils/tags.ts:51-63 | defined for all eight categories and never empty |
| Tags.DisplayNameDecode | utils/tags.ts:36-48 | the leading emoji of a display name identifies its category |
| Tags.ColorDecode | utils/tags.ts:51-63 | the colour classes identify their category |
| Tags.LabelsDecode | utils/tags.ts:36-63 | both labels decode back to their category |
| Tags.LabelsDistinct | utils/tags.ts:36-63 | no two categories share a display name or a colour |
| ImageGenerator.ToInt32 | utils/imageGenerator.ts:56-57 | the wrap lands in the signed 32-bit range and agrees with its input modulo 2^32 |
| ImageGenerator.HashStepIsTimes31 | utils/imageGenerator.ts:56-57 | `((a << 5) - a) + c`, then `& a`, equals `31·a + c` wrapped to 32 bits |
| ImageGenerator.Hash | utils/imageGenerator.ts:55-58 | the fold over the UTF-16 code units stays a signed 32-bit integer |
| ImageGenerator.HashIsWrappedPolynomial | utils/imageGenerator.ts:55-58 | the fold is the polynomial hash Σ code·31^(n-1-i), wrapped once at the end |
| ImageGenerator.ImageRange | utils/imageGenerator.ts:61-79 | the range the tags select is non-empty and lies inside the 34-entry library |
| ImageGenerator.ImageIndex | utils/imageGenerator.ts:81-84 | `start + |hash| % (end - start)` lies in the selected range |
| ImageGenerator.PickFromRange | utils/imageGenerator.ts:81-84 | indexing the range's slice at `|hash| % length` reads the library at `start + |hash| % length` |
| ImageGenerator.ImageInRange | utils/imageGenerator.ts:53-85 | the result is a library image at a position inside the selected range |
| ImageGenerator.ImageDependsOnPriorityTags | utils/imageGenerator.ts:53-85 | two tag lists with the same five priority tags present give the same image for the same title, whatever the order, repetitions or other tags |
| RelativeDate.UndefinedCases | utils/date.ts:2-5 | there is no text iff the input is missing, empty or unparseable; otherwise the text renders the age bucket of `now - t` |
| RelativeDate.UnitsCompose | utils/date.ts:7-13 | the chained floor divisions are the age floored by a minute, an hour or a day |
| RelativeDate.ShortBuckets | utils/date.ts:7-14 | seconds iff the age is under a minute, and a future or just-now date reads 1 second; then minutes, hours and days, iff the age is under an hour, a day, a week, each counted by floor division |
| RelativeDate.LongBuckets | utils/date.ts:15-20 | weeks iff days 7–34; months iff days 35–359; years from day 360 on, with their counts |
| RelativeDate.ZeroYears | utils/date.ts:17-20 | ages of 360–364 days read "0年前" |
| Id.NonBlankIff | utils/id.ts:9-10 | `trim().length > 0` holds iff some character is not white space |
| Id.StableId | utils/id.ts:8-12 | a non-blank guid, untrimmed; else the digest of a non-blank link; else `String(idx)`, or "" without an index |
| Id.FallbackIdsDistinct | utils/id.ts:11 | items with neither guid nor link at different positions get different ids |
| Id.GuidWins | utils/id.ts:9 | an id taken from a guid is the guid itself, whatever the link and the position |
| FetchNews.ToTime | utils/fetchNews.ts:7-12 | 0 for a missing, empty or unparseable date; the parsed time otherwise |
| FetchNews.RelevanceKeepsOrder | utils/fetchNews.ts:24-25 | relevance order returns the items unchanged |
| FetchNews.DateOrder | utils/fetchNews.ts:24-26 | the date order, which is the default, is a permutation, newest first, and items with equal times keep their feed order |
| FetchNews.UndatedAfterDated | utils/fetchNews.ts:26 | after an item with time 0, no item has a positive time |
| JsArray.SortDesc | utils/fetchNews.ts:26 | the comparator sort gives a permutation that is non-increasing by key |
| JsArray.SortDescStable | utils/fetchNews.ts:26 | the sort is stable: elements with equal keys keep their input order |
| JsArray.SliceTo | utils/popularity.ts:157 | `slice(0, n)` is the prefix of length min(n, length), with a negative n counted from the back |
| Feeds.KeptPieces | utils/feeds.ts:5-8 | trimming and dropping empty pieces keeps one entry per non-blank piece |
| Feeds.TrimKeepsNoSeparator | utils/feeds.ts:6-7 | a trimmed piece still holds no newline or comma |
| Feeds.CleanEntries | utils/feeds.ts:5-8 | every entry kept is non-empty, trimmed and free of separators |
| Feeds.ExtraFeedsShape | utils/feeds.ts:3-40 | the result is the setting's entries followed by exactly the defaults in order; the entries are clean, one per non-blank piece (which text each entry holds is given by EntriesAtSeparator and EntryOfPiece) |
| Feeds.EntriesAtSeparator | utils/feeds.ts:5-8 | a newline or comma in the setting splits its entries: the entries of the text before it, then those of the text after it |
| Feeds.EntryOfPiece | utils/feeds.ts:5-8 | text without a separator gives one entry, its trim, or none when it is blank |
| Feeds.TwoExtraFeeds | utils/feeds.ts:3-40 | two clean entries joined by a separator, such as `x.com,y.com`, give exactly those two feeds in order, then the defaults |
| Feeds.UnsetEnvGivesDefaults | utils/feeds.ts:4-8 | an unset or empty setting gives exactly the defaults |
| Feeds.DefaultFeedsRepeat | utils/feeds.ts:11-37 | there are 20 defaults; Gizmodo Japan and ZDNet each appear twice |
| JsString.SplitPieces | utils/feeds.ts:6 | split gives one more piece than there are separators; no piece holds a separator; the pieces together are the input without its separators |
| JsString.SplitNoSeparator | utils/feeds.ts:6 | text without a separator splits into the single piece that is the text itself |
| JsString.SplitAtSeparator | utils/feeds.ts:6 | a separator cuts the text there: the pieces of `a + c + b` are the pieces of `a` followed by the pieces of `b`, so every cut falls at a separator and nowhere else |
| JsString.Trim | utils/fetchMock.ts:17 | the trim is a slice with only white space cut at either end, and has no white space at its ends |
| JsString.TrimFixpoint | utils/fetchMock.ts:17 | a string is its own trim iff it has no white space at either end |
| JsString.TrimEmptyIffAllWhite | utils/id.ts:9-10 | the trim is empty iff the string is all white space |
| JsString.IntToStringInjective | utils/id.ts:11 | different integers print differently |
| JsString.NatToStringRoundTrip | utils/date.ts:8 | reading back the decimal text of n gives n |
| FetchMock.IndexOf | utils/fetchMock.ts:19 | the first position at or after `from` holding the character, or none when there is none |
| FetchMock.LinkAtSound | utils/fetchMock.ts:19 | what the matcher finds at a position is a Markdown link `[text](url)` there, with no `]` in the text and an HTTP(S) address without `)` |
| FetchMock.LinkAtComplete | utils/fetchMock.ts:19 | every such link at a position is the one the matcher returns |
| FetchMock.FirstLinkLeftmost | utils/fetchMock.ts:19 | the search returns the match at the leftmost matching position, and nothing iff no position matches |
| FetchMock.FirstLinkReaches | utils/fetchMock.ts:19-20 | with a link at p and none before, the search returns that link's address |
| FetchMock.FirstLinkAddress | utils/fetchMock.ts:19-20 | whatever the search returns is an HTTP(S) address without `)` |
| FetchMock.NoParenNoLink | utils/fetchMock.ts:19 | text without `)` holds no link |
| FetchMock.NormalizeUrlMissing | utils/fetchMock.ts:16 | an undefined or empty input comes back as it is |
| FetchMock.NormalizeUrlLink | utils/fetchMock.ts:17-20 | with a link in the trimmed input, the result is the address of the leftmost one |
| FetchMock.NormalizeUrlPlain | utils/fetchMock.ts:17-21 | without a link, the result is the trimmed input |
| FetchMock.NormalizedShape | utils/fetchMock.ts:15-22 | the result is the trimmed input or an HTTP(S) address |
| FetchMock.NormalizeTwice | utils/fetchMock.ts:15-22 | normalising twice equals normalising once whenever the first result has no white space at its ends, which always holds for the trimmed-input case |
| FetchMock.NormalizeNotIdempotent | utils/fetchMock.ts:15-22 | `[a](http://x )` normalises to `http://x `, and that normalises again to `http://x` |
| FetchMock.NormalizeMockShape | utils/fetchMock.ts:28-33 | length and order are kept; only `sourceUrl` changes, to its normal form; records without the key pass through unchanged |
| FetchFeed.FirstMediaUrl | utils/fetchFeed.ts:28-31 | any url the array search returns is non-empty |
| FetchFeed.FirstMediaUrlIsFirst | utils/fetchFeed.ts:27-31 | the search returns the url of the first entry that has one, and nothing iff no entry has one |
| FetchFeed.ContentUrl | utils/fetchFeed.ts:26-35 | any url media content offers is non-empty |
| FetchFeed.FirstImgFromHtml | utils/fetchFeed.ts:18-22 | missing or empty HTML gives no image |
| FetchFeed.PickImage | utils/fetchFeed.ts:24-42 | any image picked is non-empty |
| FetchFeed.PickImagePriority | utils/fetchFeed.ts:24-42 | enclosure, then the first media-content url, then the single media object, then the thumbnail, then the HTML image; no image iff none offers one |
| FetchFeed.FetchFeedShape | utils/fetchFeed.ts:49-59 | one item per entry in order: id from guid, link and position; missing text fields become ""; enclosure present iff an image was picked, and equal to it |
| FetchFeed.NoItemsNoOutput | utils/fetchFeed.ts:46-48 | a feed without an item array gives no items |
| FetchFeed.PositionalIdsDistinct | utils/fetchFeed.ts:50 | entries with neither guid nor link never share an id |
| FetchX.FiltersKept | utils/fetchX.ts:37 | `filter(Boolean)` keeps all four fixed filters |
| FetchX.FiltersJoined | utils/fetchX.ts:31-37 | the filters join to `lang:ja -is:retweet -is:reply` followed by the media preference |
| FetchX.QueryShape | utils/fetchX.ts:37 | the query is the trimmed input and a space, dropped when the input is blank, followed by the joined filters |
| FetchX.MaxResults | utils/fetchX.ts:41 | `max_results` always lies in [10, 100] |
| FetchX.MaxResultsCases | utils/fetchX.ts:41 | a missing, zero or NaN limit gives 20; a limit inside [10, 100] is kept; others clamp to the nearer end |
| FetchX.IndexByLastWins | utils/fetchX.ts:60-63 | the map's keys are exactly the entries' keys, and each key maps to the last entry with it |
| FetchX.FillIndex | utils/fetchX.ts:62-63 | the `forEach(set)` loop builds that map |
| FetchX.ImageChoiceCases | utils/fetchX.ts:71-81 | the first photo with a url wins; without one, the first preview in key order; no image iff neither exists |
| FetchX.ChooseImage | utils/fetchX.ts:71-81 | the media loop, with its early exit, computes that choice |
| FetchX.ImageChoiceTruthy | utils/fetchX.ts:71-81 | any image chosen is non-empty |
| FetchX.CollapseSingleSpaced | utils/fetchX.ts:84 | after `replace(/\s+/g, " ")` the only white space is single spaces |
| FetchX.CollapseKeepsText | utils/fetchX.ts:84 | collapsing keeps every non-white character, in order |
| FetchX.CollapseFixpoint | utils/fetchX.ts:84 | single-spaced text is left as it is |
| FetchX.OneLineShape | utils/fetchX.ts:83-84 | the one-line text is trimmed, single-spaced, and has the original's non-white characters in order |
| FetchX.OneLineIdempotent | utils/fetchX.ts:84 | putting a text on one line twice changes nothing more |
| FetchX.StatusLinkShape | utils/fetchX.ts:66-68 | the link is `https://x.com/`, then the screen name or `i/web`, then `/status/` and the tweet id |
| FetchX.StatusLinkHasText | utils/fetchX.ts:68 | a status link is never blank |
| FetchX.TweetItemShape | utils/fetchX.ts:65-93 | the id is the digest of the link; title and snippet are the same one-line text; the date defaults to ""; the enclosure is the chosen image |
| FetchX.MapTweets | utils/fetchX.ts:65-94 | the per-tweet loop, running the media loop for each tweet, yields one item per tweet in order |
| FetchX.FetchX | utils/fetchX.ts:26-97 | no token or a non-ok response gives no items; otherwise the items of the response, with users and media looked up by key |
| PopularNewsSection.ItemTextCjk | src/components/news/PopularNewsSection.tsx:17-20 | an item is Japanese iff its title or its snippet holds a kana or CJK ideograph |
| PopularNewsSection.TabsPartition | src/components/news/PopularNewsSection.tsx:17-25 | each item is in exactly one tab, decided by the same test; the tabs together are the input as a multiset, and their lengths sum to the input's |
| PopularNewsSection.TabsKeepOrder | src/components/news/PopularNewsSection.tsx:17-25 | both tabs keep the input order: filtering a concatenation concatenates the filtered parts |
| PopularNewsSection.TabExamples | src/components/news/PopularNewsSection.tsx:17-25 | a katakana title goes to the Japanese tab; a mock record, which has no title or snippet, goes to the English tab |
| PopularNewsSection.Shown | src/components/news/PopularNewsSection.tsx:60 | a tab shows the first min(10, n) of its items |

## Left out

- I/O is not modelled: RSS fetching and parsing, reading and parsing the mock JSON file, the HTTP call to X, and `process.env`. Their results are the model's inputs. In particular the source choice in `fetchNews` (mock file or live feeds) is an input.
- SHA-1, date parsing, URL parsing, `Number(...)` and the clock are parameters. They are foreign calls with no source in the core.
- `toLowerCase` is modelled on the ASCII letters only: `LowerChar` maps `A`–`Z` and leaves every other character as it is. JavaScript also folds some non-ASCII capitals to ASCII letters: U+0130 (İ) becomes `i` followed by U+0307, and the Kelvin sign U+212A becomes `k`. On text holding such letters the model can differ from the code. For example, "OPENAİ" lower-cases in JavaScript to text containing `ai`, which gives the AI tag, the `ai` keyword weight and the AI image range; the model gives none of these. Full Unicode case mapping is a large table that is not modelled.
- The recency term uses exact reals in place of IEEE doubles. No bit-exact agreement with JavaScript floating point is claimed, so near a `.5` the true rounding may differ.
- Popularity.RecencyInWindow: like every popularity member, it requires `windowDays > 0`. With 0, JavaScript divides by zero and produces NaN or Infinity, which the model does not represent.
- Popularity.DomainPopularityScore: hosts named like `Object.prototype` members (`constructor`, `__proto__`) read inherited properties in JavaScript; the model treats them as unlisted hosts.
- `calculatePopularityScore` reads the clock once per item, and `getPopularArticles` reads it once more for the cutoff. The model uses one `now` for all of these reads, so it does not cover the clock moving during a call.
- JsArray.SortDesc: `Array.prototype.sort` sorts an array in place. The model sorts a sequence value, which ECMAScript's stability requirement makes unique. Aliasing of the sorted array is not modelled.
- `getRandomImage` is left out. It is a random index into the library and has no properties beyond its range.
- React rendering, tab state and button handlers in `PopularNewsSection.tsx` are left out; only the two filters and the ten-card cap are modelled.
- FetchMock.NormalizeTwice: normalisation is idempotent only when the first result has no white space at its ends. NormalizeNotIdempotent gives an input where a second pass changes the result. The source never promises idempotence, so this is stated as a property of the code, not as a defect.
- JSON `null` and an absent key are both `None`, so the model does not tell them apart. `"sourceUrl" in it` is the key being present, and that includes a present `null`; a present `null` normalises to itself either way.
- FetchFeed.FirstImgFromHtml: the regular expression `<img[^>]+src=["']([^"']+)["']` is the parameter `imgSrc`. Its matching is not modelled.
- FetchX.ChooseImage: the source leaves the loop with `break` and then builds the item. The method returns the image instead, and the caller builds the item, so the result is the same.
- `String(...)` of the clamped `max_results` and the rest of the URL query string are not modelled. The request carries the number itself.
- The live RSS fan-out behind `fetchRSS`, the image scraper, the HTTP route and configuration files are not part of this model.
- ImageGenerator.GenerateArticleImage: the library is stored as photo id plus extra query parameters, and `Url` renders each entry's text. The 34 URLs rendered this way are the URLs the source lists.
- Tags.Color: the class string is built from a hue per category as `bg-<hue>-100 text-<hue>-800`. That is the same text as the source's table.
