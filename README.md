# Sitemap generator: crawl and serialiser

A Dafny model of the two pieces of logic in `server.mjs`.

- `crawlSite(baseUrl, limit)` is a bounded breadth-first crawl. It keeps a
  visited set, a FIFO frontier and an output list of `{ loc, lastmod }`
  records.
  - A URL is marked visited before it is fetched.
  - A URL whose fetch fails is skipped for good.
  - A link found on a page is enqueued only if it starts with `baseUrl`, is
    not yet visited, and contains neither `#` nor `mailto:`.
- `buildSitemap(pages, options)` renders these records and the caller's
  `changeFreq` and `priority` as a Sitemaps XML document (protocol 0.9 of
  sitemaps.org). It is built by string templates that insert every field
  verbatim.

Modules:

- `Wrappers`: `Option`.
- `Text`: `startsWith` and `includes` on `seq<char>`.
- `Crawler`: `CrawlSite`, a `while` loop with an injected fetch oracle. Its
  proof keeps the whole loop state as one ghost `CrawlState` value, advanced
  by one step function per kind of iteration. The ghost function `Crawl`
  applies those steps, one dequeued URL at a time, until the loop guard
  fails. `CrawlSite` is proved to produce exactly `Crawl`'s output.
- `Sitemap`: `BuildSitemap`, plus a reader `ParseSitemap` that gives the
  round-trip lemma its partner.
- `Xml`: XML character data and escaping of `&`, `<` and `>`.
- `EscapedSitemap`: the missing escaping (see "## Findings") and the
  corrected builder.
- `CrawlScenarios`: small fixed sites, each crawled by a fake fetcher.

### The fetch oracle

The network is a parameter `fetch: string -> Outcome`. The oracle also
stands in for the HTML parser, URL resolution and date normalisation. The
`try` block of one iteration can end in three ways, and `Outcome` has one
case for each:

- `Failed`: `axios.get`, `cheerio.load` or the date conversion threw before
  `pages.push`, so nothing is recorded.
- `Fetched(lastmod, links)`: the page is recorded, and its anchors resolve
  to `links`, in document order.
- `LinksFailed(lastmod)`: the page is recorded (the push happens first),
  then `new URL(...)` threw on one of the hrefs, so no link is enqueued.

### Escaping and the limit

A well-formed Sitemaps document needs `&`, `<` and `>` escaped in element
content. The code escapes nothing. `Sitemap.BuildSitemap` follows the code;
`EscapedSitemap.BuildSitemapEscaped` is the corrected builder (see
"## Findings").

`limit` is meant to be positive: the handler passes 100 (server.mjs:82). The
model takes any `int`, as the code does. With `limit <= 0` the loop guard
fails at once and the result is empty.

## Model

| member | source | states |
|---|---|---|
| Crawler.CrawlSite | server.mjs:11-52 | The crawl as a verified loop. The output, the visiting order and each page's finder are exactly those of `Crawl`, the run of the loop's steps one dequeued URL at a time. So the order is fixed: each page's admissible, unvisited links go to the back of the queue in document order, and the queue is consumed from the front. At most `limit` URLs are visited, each at most once, `baseUrl` first, and none when `limit <= 0`. The output is exactly the visited URLs whose fetch was recorded, in visiting order, each with the oracle's date, so it has no repeats, contains only visited URLs and starts with `baseUrl` when that page is recorded. A URL whose fetch fails is visited, absent from the output and never visited again. Every visited URL except the seed is an admissible link of an earlier recorded page. Each page was found by an earlier page, and the finders never go back (breadth-first order). Below the limit, every admissible link of every recorded page was visited. The loop terminates with measure (`limit - |visited|`, `|toVisit|`). |
| Crawler.FilterLinks | server.mjs:35-44 | A link is kept if and only if it is among the page's links and passes the prefix, not-visited, no-`#` and no-`mailto:` tests; no more links come out than went in. |
| Crawler.FilterLinksAppend | server.mjs:38-46 | Filtering keeps discovery order: filtering two batches one after the other is the same as filtering their concatenation. |
| Crawler.FilterLinksCount | server.mjs:38-44 | Repeats within one page are not merged: a kept link appears as often as on the page, and a rejected one not at all. |
| Crawler.RecordedOnly | server.mjs:20-33 | The output of a run that visited `urls` holds exactly the visited URLs whose attempt was recorded, and is no longer than `urls`. |
| Crawler.RecordedOnlyDistinct | server.mjs:18-20 | A run that never visits a URL twice never outputs one twice. |
| Crawler.RecordedOnlyFirst | server.mjs:13-17 | When the first visited URL is recorded, it heads the output. |
| Crawler.StartInv | server.mjs:12-14 | The initial state satisfies the loop invariant: visited empty, frontier `[baseUrl]`, no pages. |
| Crawler.SkipInv | server.mjs:17-18 | Dequeuing an already-visited URL keeps the invariant and changes nothing but the frontier. |
| Crawler.FailInv | server.mjs:20-49 | A visit whose fetch throws keeps the invariant: the URL joins `visited`, no page is added, nothing is enqueued. |
| Crawler.RecordInv | server.mjs:20-46 | A recorded visit keeps the invariant: the page is appended, and its filtered links go to the back of the frontier. |
| Crawler.ExitBounds | server.mjs:16 | At loop exit, the visit count is within the limit, `baseUrl` was visited first when `limit > 0`, and the frontier is empty unless the limit was reached. |
| Crawler.ExitFound | server.mjs:35-46 | At exit, every visited URL except the seed is an admissible link of some recorded page, and every recorded page after the first is an admissible link of its finder `pages[parent[i]]`. |
| Crawler.ExitClosed | server.mjs:16-46 | When the frontier runs out, every admissible link of every recorded page has been visited. |
| Crawler.ExitPages | server.mjs:18-33 | The recorded pages are distinct, never more than the visits, are exactly the recorded visited URLs, and begin with a recorded seed. |
| Text.IncludesIffOccurs | server.mjs:42-43 | The computed `includes` holds exactly when the needle occurs at some start position, in both directions. |
| Text.IncludesChar | server.mjs:42 | For a one-character needle such as `#`, `includes` is membership. |
| Text.MissingFirstChar | server.mjs:42-43 | Text lacking the needle's first character does not include the needle. |
| Sitemap.BuildSitemap | server.mjs:55-72 | The document starts with the XML declaration and `urlset` lines and ends with a newline and `</urlset>`; it is exactly that envelope, with no `<url>` element, if and only if there are no pages. |
| Sitemap.JoinLength | server.mjs:66 | A non-empty join starts with its first entry. |
| Sitemap.ParseJoined | server.mjs:56-66 | For fields without `<`, the newline-joined entries of a non-empty page list are read back as one block per page, in order. |
| Sitemap.ParseEntryOf | server.mjs:58-64 | For fields without `<`, one `<url>` block is read back as its page's `loc` and `lastmod` and the two options, whatever follows it. |
| Sitemap.RoundTrip | server.mjs:56-71 | For fields without `<`, reading the document back gives exactly one entry per page, in page order, holding that page's `loc` and `lastmod` and the same `changeFreq` and `priority` in every block, copied verbatim. |
| Xml.Escape | server.mjs:60-63 | Escaped text holds no `<` and is never shorter than the input. |
| Xml.UnescapeEscape | server.mjs:60-63 | Unescaping undoes escaping for every text. |
| Xml.EscapeCharData | server.mjs:60-63 | Escaped text is well-formed XML character data. |
| Xml.EscapePlain | server.mjs:60-63 | Text without `&`, `<` and `>` is its own escape. |
| EscapedSitemap.AsWrittenParses | server.mjs:60 | For the location `http://x/?a=1&b=2`, `buildSitemap`'s document reads back with the raw `&` inside `<loc>`. |
| EscapedSitemap.AsWrittenNotWellFormed | server.mjs:60 | That document is not well-formed: its `<loc>` content is not XML character data. |
| EscapedSitemap.BuildSitemapEscaped | server.mjs:55-72 | The corrected builder keeps the same envelope, empty exactly when there are no pages. |
| EscapedSitemap.EscapedParses | server.mjs:56-71 | The corrected document reads back as the escaped fields, for any pages and options. |
| EscapedSitemap.EscapedRoundTrip | server.mjs:56-71 | The corrected document is well-formed for all inputs, and unescaping each entry read back gives exactly its page and the options. |
| EscapedSitemap.EscapedAgreesOnPlain | server.mjs:55-72 | On fields without `&`, `<` and `>`, the corrected builder writes exactly what `buildSitemap` writes. |
| CrawlScenarios.PlainLinkAdmissible | server.mjs:38-44 | A link under `baseUrl` with neither `#` nor `m` passes the filter. |
| CrawlScenarios.IsolatedPage | server.mjs:11-52 | A seed page without links is crawled to exactly that one page. |
| CrawlScenarios.IsolatedRun | server.mjs:16-46 | On that site the run visits only the seed and outputs its page. |
| CrawlScenarios.Cycle | server.mjs:11-52 | Two pages linking to each other are each output once, the seed first. |
| CrawlScenarios.CycleRun | server.mjs:16-46 | On the cycle the run visits exactly the seed and then the other page; the link back is filtered out because the seed is visited. |
| CrawlScenarios.FailedLink | server.mjs:11-52 | A seed linking to a failing page and then to a leaf: the visits are exactly the seed, the failing page and the leaf, in that order; the output is the seed and the leaf. The crawl goes on past the failure. |
| CrawlScenarios.FailedLinkRun | server.mjs:16-49 | The run on that site, step by step: record the seed, fail on the first link, record the second link, stop. |
| CrawlScenarios.SeedEnqueuesBoth | server.mjs:35-46 | Both of the seed's links pass the filter and are enqueued in document order. |
| CrawlScenarios.IsolatedExample | server.mjs:11-52 | `IsolatedPage` on concrete URLs. |
| CrawlScenarios.CycleExample | server.mjs:11-52 | `Cycle` on concrete URLs. |
| CrawlScenarios.FailedLinkExample | server.mjs:11-52 | `FailedLink` on concrete URLs. |

## Left out

- The Express app, CORS, the `/generate-sitemap` route with its `startsWith("http")` guard, status codes and `app.listen` (server.mjs:6-8 and 75-92). They are HTTP plumbing around the two functions.
- `axios.get` and its 8000 ms timeout. The network is the `fetch` parameter, and a timeout is one more way to reach `Failed`.
- `cheerio` HTML parsing and the `a[href]` selection. The oracle returns the links directly, in document order.
- Relative-reference resolution with `new URL(href, baseUrl)`. The oracle yields resolved strings; a throw is the `LinksFailed` outcome.
- Date handling (the Last-Modified header, `new Date()` and `toISOString`). It depends on the clock and a foreign date parser; `lastmod` is an opaque string from the oracle.
- `console.warn` logging in the `catch` block.
- `async` and `await`. The crawl is strictly sequential, so it is an ordinary loop.
- The default `limit = 100`. `CrawlSite` always takes the limit explicitly; the scenarios pass 100.
- A `RangeError` from `push(...links)` when a page has more links than the engine allows as call arguments. The model appends any number of links.
- `undefined` options, which the template would render as the text `undefined`. `Options` always holds two strings.
- Crawler.CrawlSite: `visited` and `toVisit` are locals and are not returned. The ensures clauses speak of them through `Crawl` and the ghost result `fetched`: `visited` holds exactly the URLs of `fetched`.
- Sitemap.ParseEntryOf: proved only for fields without `<`, for the reason given for `RoundTrip`.
- Sitemap.ParseJoined: proved only for fields without `<`, for the reason given for `RoundTrip`.
- Sitemap.RoundTrip: proved only for fields without `<`. A raw `<` inside a field would end that field's text early for any reader, and `EscapedSitemap.EscapedRoundTrip` covers arbitrary fields.

## Findings

| source | as written | input that shows it | evidently intended | confidence | as-written member | corrected member |
|---|---|---|---|---|---|---|
| server.mjs:60-63 | `loc`, `lastmod` and the options are inserted between tags verbatim | the page `{ loc: "http://x/?a=1&b=2", lastmod: "2024-01-01" }`: the `&b=2` inside `<loc>` is not an entity reference | escape `&`, `<` and `>` so that every element's content is well-formed XML character data | not executed | EscapedSitemap.AsWrittenNotWellFormed | EscapedSitemap.EscapedRoundTrip |
