/**
  The bounded breadth-first crawl of `crawlSite` (server.mjs).

  The network is an injected oracle: `fetch(url)` says what the `try` block
  of one iteration gets to do for `url`.  Parsing the HTML, resolving each
  `href` against the base URL and normalising the Last-Modified date all
  happen inside the oracle; the crawl only sees their outcome.
 */
module Crawler {
  import opened Text

  /** What one attempt to crawl a URL comes to. */
  datatype Outcome =
      /** The request, the HTML load or the date conversion threw: nothing is recorded. */
    | Failed
      /** The page was recorded with `lastmod`, and its anchors resolved to `links`, in document order. */
    | Fetched(lastmod: string, links: seq<string>)
      /** The page was recorded with `lastmod`, then resolving one of its anchors threw: no link is enqueued. */
    | LinksFailed(lastmod: string)

  type Fetcher = string -> Outcome

  /** One record of the crawl's output: `{ loc, lastmod }`. */
  datatype Page = Page(loc: string, lastmod: string)

  /** The attempt got as far as `pages.push`. */
  predicate Recorded(o: Outcome)
  {
    !o.Failed?
  }

  /** The links that reach the filter when the attempt ends as `o`. */
  function LinksOf(o: Outcome): seq<string>
  {
    if o.Fetched? then o.links else []
  }

  /** The part of the link filter that does not depend on the crawl's state. */
  predicate Admissible(baseUrl: string, href: string)
  {
    StartsWith(href, baseUrl) && !Includes(href, "#") && !Includes(href, "mailto:")
  }

  /** The whole filter applied to each resolved link: admissible and not yet visited. */
  predicate KeepLink(baseUrl: string, visited: set<string>, href: string)
  {
    Admissible(baseUrl, href) && href !in visited
  }

  /** `links.filter(...)`: the links that pass, in their original order, repeats included. */
  function FilterLinks(baseUrl: string, visited: set<string>, links: seq<string>): (kept: seq<string>)
    ensures forall href :: href in kept <==> href in links && KeepLink(baseUrl, visited, href)
    ensures |kept| <= |links|
  {
    if links == [] then []
    else
      var rest := FilterLinks(baseUrl, visited, links[1..]);
      assert links == [links[0]] + links[1..];
      if KeepLink(baseUrl, visited, links[0]) then [links[0]] + rest else rest
  }

  /** Filtering keeps discovery order: filtering two batches is filtering each and appending. */
  lemma {:induction false} FilterLinksAppend(baseUrl: string, visited: set<string>, a: seq<string>, b: seq<string>)
    ensures FilterLinks(baseUrl, visited, a + b) == FilterLinks(baseUrl, visited, a) + FilterLinks(baseUrl, visited, b)
  {
    if a == [] {
      assert a + b == b;
    } else {
      assert (a + b)[0] == a[0] && (a + b)[1..] == a[1..] + b;
      FilterLinksAppend(baseUrl, visited, a[1..], b);
      var rest := FilterLinks(baseUrl, visited, a[1..]);
      if KeepLink(baseUrl, visited, a[0]) {
        assert FilterLinks(baseUrl, visited, a) == [a[0]] + rest;
      } else {
        assert FilterLinks(baseUrl, visited, a) == rest;
      }
    }
  }

  /** A link that passes is kept as often as it occurs; one that fails is dropped entirely. */
  lemma {:induction false} FilterLinksCount(baseUrl: string, visited: set<string>, links: seq<string>, href: string)
    ensures multiset(FilterLinks(baseUrl, visited, links))[href]
         == if KeepLink(baseUrl, visited, href) then multiset(links)[href] else 0
  {
    if links != [] {
      FilterLinksCount(baseUrl, visited, links[1..], href);
      assert links == [links[0]] + links[1..];
    }
  }

  /** The `loc` of every page, in order. */
  function Locs(pages: seq<Page>): seq<string>
  {
    seq(|pages|, i requires 0 <= i < |pages| => pages[i].loc)
  }

  /** No URL occurs twice. */
  predicate Distinct(urls: seq<string>)
  {
    forall i, j :: 0 <= i < j < |urls| ==> urls[i] != urls[j]
  }

  /** The URLs of `urls` whose attempt was recorded, in order: the output a run that fetched `urls` produces. */
  function RecordedOnly(fetch: Fetcher, urls: seq<string>): (recorded: seq<string>)
    ensures forall u :: u in recorded <==> u in urls && Recorded(fetch(u))
    ensures |recorded| <= |urls|
  {
    if urls == [] then []
    else
      var last := urls[|urls| - 1];
      assert urls == urls[..|urls| - 1] + [last];
      RecordedOnly(fetch, urls[..|urls| - 1]) + if Recorded(fetch(last)) then [last] else []
  }

  /** Fetching one more URL adds it to the output exactly when its attempt is recorded. */
  lemma RecordedOnlySnoc(fetch: Fetcher, urls: seq<string>, u: string)
    ensures RecordedOnly(fetch, urls + [u]) == RecordedOnly(fetch, urls) + if Recorded(fetch(u)) then [u] else []
  {
    assert (urls + [u])[..|urls|] == urls;
  }

  /** A run that never fetches a URL twice never outputs one twice. */
  lemma {:induction false} RecordedOnlyDistinct(fetch: Fetcher, urls: seq<string>)
    requires Distinct(urls)
    ensures Distinct(RecordedOnly(fetch, urls))
  {
    if urls != [] {
      var init := urls[..|urls| - 1];
      var last := urls[|urls| - 1];
      assert Distinct(init);
      RecordedOnlyDistinct(fetch, init);
      assert last !in init;
    }
  }

  /** When the first URL fetched is recorded, it heads the output. */
  lemma {:induction false} RecordedOnlyFirst(fetch: Fetcher, urls: seq<string>)
    requires |urls| > 0 && Recorded(fetch(urls[0]))
    ensures |RecordedOnly(fetch, urls)| > 0 && RecordedOnly(fetch, urls)[0] == urls[0]
  {
    if |urls| > 1 {
      var init := urls[..|urls| - 1];
      assert init[0] == urls[0];
      RecordedOnlyFirst(fetch, init);
    }
  }

  /** `href` is a link of the page recorded at index `j` that satisfies the state-independent filter. */
  ghost predicate DiscoveredBy(fetch: Fetcher, baseUrl: string, pages: seq<Page>, j: int, href: string)
  {
    0 <= j < |pages| && href in LinksOf(fetch(pages[j].loc)) && Admissible(baseUrl, href)
  }

  /**
    The proof of the crawl reasons about the state-independent filter as an
    opaque test `adm`; only the steps that enqueue links use that it is
    `Admissible(baseUrl, _)`.
   */
  ghost predicate AdmitsLike(adm: string -> bool, baseUrl: string)
  {
    forall href :: adm(href) == Admissible(baseUrl, href)
  }

  /** `DiscoveredBy`, with the filter passed as `adm`. */
  ghost predicate FoundBy(fetch: Fetcher, adm: string -> bool, pages: seq<Page>, j: int, href: string)
  {
    0 <= j < |pages| && href in LinksOf(fetch(pages[j].loc)) && adm(href)
  }

  /**
    The crawl's state between two iterations.  `visited`, `toVisit` and
    `pages` are the source's own variables; the rest is bookkeeping for the
    proof: `fetched` lists the URLs added to `visited` in order, `parent[i]`
    is the index of the page that found `pages[i]`, and `foundBy[k]` the
    index of the page whose links enqueued `toVisit[k]` (-1 for the seed).
   */
  datatype CrawlState = CrawlState(
    visited: set<string>, toVisit: seq<string>, pages: seq<Page>,
    fetched: seq<string>, parent: seq<nat>, foundBy: seq<int>)

  /** The visited set: the fetched URLs, each once, within the limit, `baseUrl` first. */
  ghost predicate VisitedOk(baseUrl: string, limit: int, s: CrawlState)
  {
    (forall u :: u in s.visited <==> u in s.fetched) &&
    |s.visited| == |s.fetched| && Distinct(s.fetched) &&
    (s.fetched == [] ==> s.toVisit == [baseUrl] && s.foundBy == [-1]) &&
    (s.fetched != [] ==> |s.fetched| <= limit && s.fetched[0] == baseUrl)
  }

  /** The output so far: the recorded fetched URLs, in order, with the oracle's date, `baseUrl` first. */
  ghost predicate PagesOk(fetch: Fetcher, baseUrl: string, s: CrawlState)
  {
    Locs(s.pages) == RecordedOnly(fetch, s.fetched) &&
    (forall i :: 0 <= i < |s.pages| ==>
       Recorded(fetch(s.pages[i].loc)) && s.pages[i].lastmod == fetch(s.pages[i].loc).lastmod) &&
    (|s.pages| > 0 ==> s.pages[0].loc == baseUrl)
  }

  /** Every fetched URL but the seed was found, admissibly, on a recorded page. */
  ghost predicate ExploredOk(fetch: Fetcher, baseUrl: string, adm: string -> bool, s: CrawlState)
  {
    forall u :: u in s.fetched && u != baseUrl ==> exists j :: FoundBy(fetch, adm, s.pages, j, u)
  }

  /** The breadth-first tree: each page's finder comes earlier, and finders never go back. */
  ghost predicate TreeOk(fetch: Fetcher, baseUrl: string, adm: string -> bool, s: CrawlState)
  {
    |s.parent| == |s.pages| &&
    (forall i :: 0 < i < |s.pages| ==> s.parent[i] < i && FoundBy(fetch, adm, s.pages, s.parent[i], s.pages[i].loc)) &&
    (forall i, k :: 0 < i < k < |s.pages| ==> s.parent[i] <= s.parent[k])
  }

  /** Every frontier entry is the seed or an admissible link of its finder. */
  ghost predicate FrontierFound(fetch: Fetcher, baseUrl: string, adm: string -> bool, s: CrawlState)
  {
    |s.foundBy| == |s.toVisit| && |s.parent| == |s.pages| &&
    forall k :: 0 <= k < |s.toVisit| ==>
      (s.foundBy[k] == -1 && s.toVisit[k] == baseUrl) || FoundBy(fetch, adm, s.pages, s.foundBy[k], s.toVisit[k])
  }

  /** The frontier is a FIFO queue: entries are ordered by their finder. */
  ghost predicate FrontierOrdered(s: CrawlState)
  {
    forall k, m :: 0 <= k < m < |s.foundBy| ==> s.foundBy[k] <= s.foundBy[m]
  }

  /** No frontier entry's finder precedes the parent of a recorded page. */
  ghost predicate FrontierAfterTree(s: CrawlState)
  {
    forall i, k :: 0 < i < |s.pages| && 0 <= i < |s.parent| && 0 <= k < |s.foundBy| && s.foundBy[k] != -1 ==>
      s.parent[i] <= s.foundBy[k]
  }

  ghost predicate FrontierOk(fetch: Fetcher, baseUrl: string, adm: string -> bool, s: CrawlState)
  {
    FrontierFound(fetch, baseUrl, adm, s) && FrontierOrdered(s) && FrontierAfterTree(s)
  }

  /** No admissible link of a recorded page is lost: it is visited or still waiting. */
  ghost predicate ClosedOk(fetch: Fetcher, baseUrl: string, adm: string -> bool, s: CrawlState)
  {
    forall i, href :: 0 <= i < |s.pages| && href in LinksOf(fetch(s.pages[i].loc)) && adm(href) ==>
      href in s.visited || href in s.toVisit
  }

  /** The loop invariant of `crawlSite`. */
  ghost predicate CrawlInv(fetch: Fetcher, baseUrl: string, adm: string -> bool, limit: int, s: CrawlState)
  {
    VisitedOk(baseUrl, limit, s) && PagesOk(fetch, baseUrl, s) && ExploredOk(fetch, baseUrl, adm, s) &&
    TreeOk(fetch, baseUrl, adm, s) && FrontierOk(fetch, baseUrl, adm, s) && ClosedOk(fetch, baseUrl, adm, s)
  }

  /** The state before the first iteration (server.mjs lines 12-14). */
  function Start(baseUrl: string): CrawlState
  {
    CrawlState({}, [baseUrl], [], [], [], [-1])
  }

  /** Dropping the head of the frontier because it was already visited (`continue` at line 18). */
  function Skip(s: CrawlState): CrawlState
    requires |s.toVisit| > 0 && |s.foundBy| > 0
  {
    s.(toVisit := s.toVisit[1..], foundBy := s.foundBy[1..])
  }

  /** Marking the head of the frontier visited when its fetch fails (the `catch` branch). */
  function Fail(s: CrawlState): CrawlState
    requires |s.toVisit| > 0 && |s.foundBy| > 0
  {
    var u := s.toVisit[0];
    CrawlState(s.visited + {u}, s.toVisit[1..], s.pages, s.fetched + [u], s.parent, s.foundBy[1..])
  }

  /** Marking the head visited, recording its page and enqueueing the links that pass the filter. */
  function Record(fetch: Fetcher, baseUrl: string, s: CrawlState): CrawlState
    requires |s.toVisit| > 0 && |s.foundBy| > 0 && Recorded(fetch(s.toVisit[0]))
  {
    var u := s.toVisit[0];
    var visited := s.visited + {u};
    var found := FilterLinks(baseUrl, visited, LinksOf(fetch(u)));
    CrawlState(
      visited,
      s.toVisit[1..] + found,
      s.pages + [Page(u, fetch(u).lastmod)],
      s.fetched + [u],
      s.parent + [if s.foundBy[0] < 0 then 0 else s.foundBy[0]],
      s.foundBy[1..] + seq(|found|, _ => |s.pages|))
  }

  /**
    The iterations still to come from state `s`, one step per dequeued URL,
    until the frontier is empty or `limit` URLs have been visited.
   */
  ghost function Run(fetch: Fetcher, baseUrl: string, limit: int, s: CrawlState): CrawlState
    requires |s.foundBy| == |s.toVisit|
    decreases limit - |s.visited|, |s.toVisit|
  {
    if |s.toVisit| > 0 && |s.visited| < limit then
      var u := s.toVisit[0];
      if u in s.visited then Run(fetch, baseUrl, limit, Skip(s))
      else if !Recorded(fetch(u)) then Run(fetch, baseUrl, limit, Fail(s))
      else Run(fetch, baseUrl, limit, Record(fetch, baseUrl, s))
    else s
  }

  /** The final state of `crawlSite(baseUrl, limit)`, as a function of the fetcher. */
  ghost function Crawl(fetch: Fetcher, baseUrl: string, limit: int): CrawlState
  {
    Run(fetch, baseUrl, limit, Start(baseUrl))
  }

  /** A skip is the next step of the run. */
  lemma RunSkips(fetch: Fetcher, baseUrl: string, limit: int, s: CrawlState)
    requires |s.foundBy| == |s.toVisit| && |s.toVisit| > 0 && |s.visited| < limit && s.toVisit[0] in s.visited
    ensures Run(fetch, baseUrl, limit, s) == Run(fetch, baseUrl, limit, Skip(s))
  {
  }

  /** A failed visit is the next step of the run. */
  lemma RunFails(fetch: Fetcher, baseUrl: string, limit: int, s: CrawlState)
    requires |s.foundBy| == |s.toVisit| && |s.toVisit| > 0 && |s.visited| < limit
    requires s.toVisit[0] !in s.visited && !Recorded(fetch(s.toVisit[0]))
    ensures Run(fetch, baseUrl, limit, s) == Run(fetch, baseUrl, limit, Fail(s))
  {
  }

  /** A recorded visit is the next step of the run. */
  lemma RunRecords(fetch: Fetcher, baseUrl: string, limit: int, s: CrawlState)
    requires |s.foundBy| == |s.toVisit| && |s.toVisit| > 0 && |s.visited| < limit
    requires s.toVisit[0] !in s.visited && Recorded(fetch(s.toVisit[0]))
    ensures Run(fetch, baseUrl, limit, s) == Run(fetch, baseUrl, limit, Record(fetch, baseUrl, s))
  {
  }

  /** Once the frontier is empty or the limit reached, the run is over. */
  lemma RunDone(fetch: Fetcher, baseUrl: string, limit: int, s: CrawlState)
    requires |s.foundBy| == |s.toVisit| && !(|s.toVisit| > 0 && |s.visited| < limit)
    ensures Run(fetch, baseUrl, limit, s) == s
  {
  }

  lemma StartInv(fetch: Fetcher, baseUrl: string, adm: string -> bool, limit: int)
    ensures CrawlInv(fetch, baseUrl, adm, limit, Start(baseUrl))
  {
  }

  /** Taking the head off a frontier leaves every other entry waiting. */
  lemma TailKeeps(toVisit: seq<string>, href: string)
    requires |toVisit| > 0 && href in toVisit && href != toVisit[0]
    ensures href in toVisit[1..]
  {
    assert toVisit == [toVisit[0]] + toVisit[1..];
  }

  lemma SkipClosed(fetch: Fetcher, baseUrl: string, adm: string -> bool, s: CrawlState)
    requires ClosedOk(fetch, baseUrl, adm, s) && |s.toVisit| > 0 && |s.foundBy| > 0 && s.toVisit[0] in s.visited
    ensures ClosedOk(fetch, baseUrl, adm, Skip(s))
  {
    forall i, href | 0 <= i < |s.pages| && href in LinksOf(fetch(s.pages[i].loc)) && adm(href)
      ensures href in s.visited || href in s.toVisit[1..]
    {
      if href !in s.visited {
        TailKeeps(s.toVisit, href);
      }
    }
  }

  /** A skip iteration keeps the invariant. */
  lemma SkipInv(fetch: Fetcher, baseUrl: string, adm: string -> bool, limit: int, s: CrawlState)
    requires CrawlInv(fetch, baseUrl, adm, limit, s)
    requires |s.toVisit| > 0 && s.toVisit[0] in s.visited
    ensures CrawlInv(fetch, baseUrl, adm, limit, Skip(s))
  {
    SkipKeeps(fetch, baseUrl, adm, limit, s);
    SkipClosed(fetch, baseUrl, adm, s);
  }

  lemma SkipKeeps(fetch: Fetcher, baseUrl: string, adm: string -> bool, limit: int, s: CrawlState)
    requires VisitedOk(baseUrl, limit, s) && PagesOk(fetch, baseUrl, s) && ExploredOk(fetch, baseUrl, adm, s)
    requires TreeOk(fetch, baseUrl, adm, s) && FrontierOk(fetch, baseUrl, adm, s)
    requires |s.toVisit| > 0 && s.toVisit[0] in s.visited
    ensures VisitedOk(baseUrl, limit, Skip(s)) && PagesOk(fetch, baseUrl, Skip(s)) && ExploredOk(fetch, baseUrl, adm, Skip(s))
    ensures TreeOk(fetch, baseUrl, adm, Skip(s)) && FrontierOk(fetch, baseUrl, adm, Skip(s))
  {
    var t := Skip(s);
    assert t.visited == s.visited && t.fetched == s.fetched && t.pages == s.pages && t.parent == s.parent;
    assert s.fetched != [];
    SkipFrontier(fetch, baseUrl, adm, s);
  }

  lemma SkipFrontier(fetch: Fetcher, baseUrl: string, adm: string -> bool, s: CrawlState)
    requires FrontierOk(fetch, baseUrl, adm, s) && |s.toVisit| > 0
    ensures FrontierOk(fetch, baseUrl, adm, Skip(s))
  {
    var t := Skip(s);
    forall k | 0 <= k < |t.toVisit|
      ensures t.foundBy[k] == s.foundBy[k + 1] && t.toVisit[k] == s.toVisit[k + 1]
    {
    }
  }

  /** Marking the head of the frontier visited keeps the visited set's properties. */
  lemma VisitKeepsVisited(baseUrl: string, limit: int, s: CrawlState, t: CrawlState)
    requires VisitedOk(baseUrl, limit, s) && |s.toVisit| > 0 && s.toVisit[0] !in s.visited && |s.visited| < limit
    requires t.visited == s.visited + {s.toVisit[0]} && t.fetched == s.fetched + [s.toVisit[0]]
    ensures VisitedOk(baseUrl, limit, t)
  {
  }

  /** Recording nothing for a failed URL keeps the output's properties. */
  lemma FailKeepsPages(fetch: Fetcher, baseUrl: string, s: CrawlState)
    requires PagesOk(fetch, baseUrl, s)
    requires |s.toVisit| > 0 && |s.foundBy| > 0 && !Recorded(fetch(s.toVisit[0]))
    ensures PagesOk(fetch, baseUrl, Fail(s))
  {
    RecordedOnlySnoc(fetch, s.fetched, s.toVisit[0]);
  }

  /** Recording the page of the head keeps the output's properties. */
  lemma RecordKeepsPages(fetch: Fetcher, baseUrl: string, s: CrawlState, t: CrawlState)
    requires PagesOk(fetch, baseUrl, s) && |s.toVisit| > 0 && Recorded(fetch(s.toVisit[0]))
    requires s.pages == [] ==> s.toVisit[0] == baseUrl
    requires t.fetched == s.fetched + [s.toVisit[0]]
    requires t.pages == s.pages + [Page(s.toVisit[0], fetch(s.toVisit[0]).lastmod)]
    ensures PagesOk(fetch, baseUrl, t)
  {
    var u := s.toVisit[0];
    RecordedOnlySnoc(fetch, s.fetched, u);
    LocsSnoc(s.pages, Page(u, fetch(u).lastmod));
    forall i | 0 <= i < |t.pages|
      ensures Recorded(fetch(t.pages[i].loc)) && t.pages[i].lastmod == fetch(t.pages[i].loc).lastmod
    {
      if i < |s.pages| {
        assert t.pages[i] == s.pages[i];
      }
    }
    assert t.pages[0] == if s.pages == [] then Page(u, fetch(u).lastmod) else s.pages[0];
  }

  /** Appending a page appends its location. */
  lemma LocsSnoc(pages: seq<Page>, p: Page)
    ensures Locs(pages + [p]) == Locs(pages) + [p.loc]
  {
  }

  /** A failed visit keeps the discovery, tree, frontier and closure properties. */
  lemma FailKeepsSearch(fetch: Fetcher, baseUrl: string, adm: string -> bool, s: CrawlState)
    requires ExploredOk(fetch, baseUrl, adm, s) && TreeOk(fetch, baseUrl, adm, s) && FrontierOk(fetch, baseUrl, adm, s) && ClosedOk(fetch, baseUrl, adm, s)
    requires |s.toVisit| > 0
    ensures ExploredOk(fetch, baseUrl, adm, Fail(s)) && TreeOk(fetch, baseUrl, adm, Fail(s))
    ensures FrontierOk(fetch, baseUrl, adm, Fail(s)) && ClosedOk(fetch, baseUrl, adm, Fail(s))
  {
    var u := s.toVisit[0];
    var t := Fail(s);
    forall v | v in t.fetched && v != baseUrl ensures exists j :: FoundBy(fetch, adm, t.pages, j, v) {
      if v == u {
        assert FoundBy(fetch, adm, t.pages, s.foundBy[0], v);
      }
    }
    forall i, href | 0 <= i < |t.pages| && href in LinksOf(fetch(t.pages[i].loc)) && adm(href)
      ensures href in t.visited || href in t.toVisit
    {
      if href !in t.visited {
        TailKeeps(s.toVisit, href);
      }
    }
  }

  /** Recording a page keeps every fetched URL's discovery. */
  lemma RecordKeepsExplored(fetch: Fetcher, baseUrl: string, adm: string -> bool, s: CrawlState, t: CrawlState)
    requires ExploredOk(fetch, baseUrl, adm, s) && FrontierOk(fetch, baseUrl, adm, s) && |s.toVisit| > 0
    requires t.fetched == s.fetched + [s.toVisit[0]] && |t.pages| == |s.pages| + 1 && t.pages[..|s.pages|] == s.pages
    ensures ExploredOk(fetch, baseUrl, adm, t)
  {
    var u := s.toVisit[0];
    forall v | v in t.fetched && v != baseUrl ensures exists j :: FoundBy(fetch, adm, t.pages, j, v) {
      var j: int;
      if v == u {
        j := s.foundBy[0];
      } else {
        assert v in s.fetched;
        j :| FoundBy(fetch, adm, s.pages, j, v);
      }
      assert t.pages[j] == s.pages[j];
      assert FoundBy(fetch, adm, t.pages, j, v);
    }
  }

  /** The page's finder is the head's finder, which no earlier parent exceeds. */
  lemma RecordKeepsTree(fetch: Fetcher, baseUrl: string, adm: string -> bool, s: CrawlState, t: CrawlState)
    requires TreeOk(fetch, baseUrl, adm, s) && FrontierFound(fetch, baseUrl, adm, s) && FrontierAfterTree(s) && |s.toVisit| > 0
    requires |s.pages| > 0 ==> s.toVisit[0] != baseUrl
    requires |t.pages| == |s.pages| + 1 && t.pages[..|s.pages|] == s.pages && t.pages[|s.pages|].loc == s.toVisit[0]
    requires t.parent == s.parent + [if s.foundBy[0] < 0 then 0 else s.foundBy[0]]
    ensures TreeOk(fetch, baseUrl, adm, t)
  {
    var n := |s.pages|;
    forall i | 0 < i < |t.pages| ensures t.parent[i] < i && FoundBy(fetch, adm, t.pages, t.parent[i], t.pages[i].loc) {
      if i == n {
        assert FoundBy(fetch, adm, s.pages, s.foundBy[0], s.toVisit[0]);
        assert t.parent[i] == s.foundBy[0];
      } else {
        assert t.parent[i] == s.parent[i] && t.pages[i] == s.pages[i];
      }
      assert t.pages[t.parent[i]] == s.pages[t.parent[i]];
    }
    forall i, k | 0 < i < k < |t.pages| ensures t.parent[i] <= t.parent[k] {
      assert t.parent[i] == s.parent[i];
      if k == n {
        assert s.foundBy[0] != -1;
        assert t.parent[k] == s.foundBy[0];
      } else {
        assert t.parent[k] == s.parent[k];
      }
    }
  }

  /** The found links join the back of the frontier, all with the new page as finder. */
  lemma RecordKeepsFrontier(fetch: Fetcher, baseUrl: string, adm: string -> bool, s: CrawlState, t: CrawlState)
    requires TreeOk(fetch, baseUrl, adm, s) && FrontierOk(fetch, baseUrl, adm, s) && |s.toVisit| > 0
    requires |s.pages| > 0 ==> s.foundBy[0] != -1
    requires |t.pages| == |s.pages| + 1 && t.pages[..|s.pages|] == s.pages && t.pages[|s.pages|].loc == s.toVisit[0]
    requires t.parent == s.parent + [if s.foundBy[0] < 0 then 0 else s.foundBy[0]]
    requires var found := FilterLinks(baseUrl, t.visited, LinksOf(fetch(s.toVisit[0])));
      t.toVisit == s.toVisit[1..] + found && t.foundBy == s.foundBy[1..] + seq(|found|, _ => |s.pages|)
    requires AdmitsLike(adm, baseUrl)
    ensures FrontierOk(fetch, baseUrl, adm, t)
  {
    RecordFrontierFound(fetch, baseUrl, adm, s, t);
    RecordFrontierBelow(fetch, baseUrl, adm, s);
    var m := |s.foundBy| - 1;
    forall k | 0 <= k < |t.foundBy| ensures t.foundBy[k] == if k < m then s.foundBy[k + 1] else |s.pages| {
    }
    RecordFrontierOrdered(s, t);
    RecordFrontierAfterTree(s, t);
  }

  lemma RecordFrontierFound(fetch: Fetcher, baseUrl: string, adm: string -> bool, s: CrawlState, t: CrawlState)
    requires FrontierFound(fetch, baseUrl, adm, s) && |s.toVisit| > 0
    requires |t.pages| == |s.pages| + 1 && t.pages[..|s.pages|] == s.pages && t.pages[|s.pages|].loc == s.toVisit[0]
    requires |t.parent| == |t.pages|
    requires var found := FilterLinks(baseUrl, t.visited, LinksOf(fetch(s.toVisit[0])));
      t.toVisit == s.toVisit[1..] + found && t.foundBy == s.foundBy[1..] + seq(|found|, _ => |s.pages|)
    requires AdmitsLike(adm, baseUrl)
    ensures FrontierFound(fetch, baseUrl, adm, t)
  {
    var n := |s.pages|;
    var found := FilterLinks(baseUrl, t.visited, LinksOf(fetch(s.toVisit[0])));
    var m := |s.toVisit| - 1;
    forall k | 0 <= k < |t.toVisit|
      ensures (t.foundBy[k] == -1 && t.toVisit[k] == baseUrl) || FoundBy(fetch, adm, t.pages, t.foundBy[k], t.toVisit[k])
    {
      if k < m {
        assert t.toVisit[k] == s.toVisit[k + 1] && t.foundBy[k] == s.foundBy[k + 1];
        if t.foundBy[k] != -1 {
          assert t.pages[t.foundBy[k]] == t.pages[..n][t.foundBy[k]];
        }
      } else {
        assert t.toVisit[k] == found[k - m] && t.foundBy[k] == n;
        assert t.toVisit[k] in found;
        assert Admissible(baseUrl, t.toVisit[k]);
        assert adm(t.toVisit[k]);
      }
    }
  }

  /** Behind the head, every finder is an already recorded page. */
  lemma RecordFrontierBelow(fetch: Fetcher, baseUrl: string, adm: string -> bool, s: CrawlState)
    requires FrontierFound(fetch, baseUrl, adm, s) && |s.toVisit| > 0
    ensures forall k :: 0 <= k < |s.foundBy| && s.foundBy[k] != -1 ==> 0 <= s.foundBy[k] < |s.pages|
  {
    forall k | 0 <= k < |s.foundBy| && s.foundBy[k] != -1 ensures 0 <= s.foundBy[k] < |s.pages| {
      assert FoundBy(fetch, adm, s.pages, s.foundBy[k], s.toVisit[k]);
    }
  }

  lemma RecordFrontierOrdered(s: CrawlState, t: CrawlState)
    requires FrontierOrdered(s) && |s.foundBy| > 0
    requires forall k :: 0 <= k < |s.foundBy| && s.foundBy[k] != -1 ==> 0 <= s.foundBy[k] < |s.pages|
    requires |t.foundBy| >= |s.foundBy| - 1
    requires forall k :: 0 <= k < |t.foundBy| ==> t.foundBy[k] == if k < |s.foundBy| - 1 then s.foundBy[k + 1] else |s.pages|
    ensures FrontierOrdered(t)
  {
    var m := |s.foundBy| - 1;
    forall k, l | 0 <= k < l < |t.foundBy| ensures t.foundBy[k] <= t.foundBy[l] {
      if l < m {
        assert t.foundBy[k] == s.foundBy[k + 1] && t.foundBy[l] == s.foundBy[l + 1];
      } else if k < m {
        assert t.foundBy[k] == s.foundBy[k + 1];
      }
    }
  }

  lemma RecordFrontierAfterTree(s: CrawlState, t: CrawlState)
    requires FrontierOrdered(s) && FrontierAfterTree(s) && |s.foundBy| > 0 && |s.parent| == |s.pages|
    requires |s.pages| > 0 ==> s.foundBy[0] != -1
    requires forall i :: 0 < i < |s.pages| ==> s.parent[i] < i
    requires |t.pages| == |s.pages| + 1 && t.parent == s.parent + [if s.foundBy[0] < 0 then 0 else s.foundBy[0]]
    requires |t.foundBy| >= |s.foundBy| - 1
    requires forall k :: 0 <= k < |t.foundBy| ==> t.foundBy[k] == if k < |s.foundBy| - 1 then s.foundBy[k + 1] else |s.pages|
    requires forall k :: 0 <= k < |s.foundBy| && s.foundBy[k] != -1 ==> 0 <= s.foundBy[k] < |s.pages|
    ensures FrontierAfterTree(t)
  {
    var n := |s.pages|;
    var m := |s.foundBy| - 1;
    forall i, k | 0 < i < |t.pages| && 0 <= i < |t.parent| && 0 <= k < |t.foundBy| && t.foundBy[k] != -1
      ensures t.parent[i] <= t.foundBy[k]
    {
      if i < n {
        assert t.parent[i] == s.parent[i];
        if k < m {
          assert t.foundBy[k] == s.foundBy[k + 1];
        } else {
          assert t.foundBy[k] == n;
        }
      } else {
        assert t.parent[i] == s.foundBy[0];
        if k < m {
          assert t.foundBy[k] == s.foundBy[k + 1] >= s.foundBy[0];
        } else {
          assert t.foundBy[k] == n;
        }
      }
    }
  }

  /** The new page's admissible links are visited or enqueued; the old pages' ones stay covered. */
  lemma RecordKeepsClosed(fetch: Fetcher, baseUrl: string, adm: string -> bool, s: CrawlState, t: CrawlState)
    requires ClosedOk(fetch, baseUrl, adm, s) && |s.toVisit| > 0
    requires t.visited == s.visited + {s.toVisit[0]}
    requires |t.pages| == |s.pages| + 1 && t.pages[..|s.pages|] == s.pages && t.pages[|s.pages|].loc == s.toVisit[0]
    requires t.toVisit == s.toVisit[1..] + FilterLinks(baseUrl, t.visited, LinksOf(fetch(s.toVisit[0])))
    requires AdmitsLike(adm, baseUrl)
    ensures ClosedOk(fetch, baseUrl, adm, t)
  {
    var n := |s.pages|;
    var found := FilterLinks(baseUrl, t.visited, LinksOf(fetch(s.toVisit[0])));
    forall i, href | 0 <= i < |t.pages| && href in LinksOf(fetch(t.pages[i].loc)) && adm(href)
      ensures href in t.visited || href in t.toVisit
    {
      if i < n {
        assert t.pages[i] == t.pages[..n][i];
        if href !in t.visited {
          TailKeeps(s.toVisit, href);
        }
      } else if href !in t.visited {
        assert href in found;
      }
    }
  }

  /** A visit whose fetch fails keeps the invariant. */
  lemma FailInv(fetch: Fetcher, baseUrl: string, adm: string -> bool, limit: int, s: CrawlState)
    requires CrawlInv(fetch, baseUrl, adm, limit, s)
    requires |s.toVisit| > 0 && s.toVisit[0] !in s.visited && |s.visited| < limit && !Recorded(fetch(s.toVisit[0]))
    ensures CrawlInv(fetch, baseUrl, adm, limit, Fail(s))
  {
    VisitKeepsVisited(baseUrl, limit, s, Fail(s));
    FailKeepsPages(fetch, baseUrl, s);
    FailKeepsSearch(fetch, baseUrl, adm, s);
  }

  /** A visit whose page is recorded keeps the invariant. */
  lemma RecordInv(fetch: Fetcher, baseUrl: string, adm: string -> bool, limit: int, s: CrawlState)
    requires CrawlInv(fetch, baseUrl, adm, limit, s)
    requires |s.toVisit| > 0 && s.toVisit[0] !in s.visited && |s.visited| < limit && Recorded(fetch(s.toVisit[0]))
    requires AdmitsLike(adm, baseUrl)
    ensures CrawlInv(fetch, baseUrl, adm, limit, Record(fetch, baseUrl, s))
  {
    var t := Record(fetch, baseUrl, s);
    var u := s.toVisit[0];
    if |s.pages| > 0 {
      assert s.pages[0].loc in Locs(s.pages);
      assert u != baseUrl;
    }
    assert s.pages == [] ==> s.foundBy[0] == -1;
    assert t.pages[..|s.pages|] == s.pages;
    VisitKeepsVisited(baseUrl, limit, s, t);
    RecordKeepsPages(fetch, baseUrl, s, t);
    RecordKeepsExplored(fetch, baseUrl, adm, s, t);
    RecordKeepsTree(fetch, baseUrl, adm, s, t);
    RecordKeepsFrontier(fetch, baseUrl, adm, s, t);
    RecordKeepsClosed(fetch, baseUrl, adm, s, t);
  }

  /** When the loop stops, the visited prefix respects the limit, and the frontier is empty unless the limit was reached. */
  lemma ExitBounds(fetch: Fetcher, baseUrl: string, adm: string -> bool, limit: int, s: CrawlState)
    requires VisitedOk(baseUrl, limit, s) && !(|s.toVisit| > 0 && |s.visited| < limit)
    ensures limit <= 0 ==> s.fetched == []
    ensures limit > 0 ==> 0 < |s.fetched| <= limit && s.fetched[0] == baseUrl
    ensures |s.fetched| < limit ==> s.toVisit == []
  {
    if s.fetched == [] {
      assert s.toVisit == [baseUrl];
    }
  }

  /** With `adm` the real filter, the finders the invariant keeps are discoveries. */
  lemma ExitFound(fetch: Fetcher, baseUrl: string, adm: string -> bool, s: CrawlState)
    requires ExploredOk(fetch, baseUrl, adm, s) && TreeOk(fetch, baseUrl, adm, s) && AdmitsLike(adm, baseUrl)
    ensures forall u :: u in s.fetched && u != baseUrl ==> exists j :: DiscoveredBy(fetch, baseUrl, s.pages, j, u)
    ensures forall i :: 0 < i < |s.pages| ==> DiscoveredBy(fetch, baseUrl, s.pages, s.parent[i], s.pages[i].loc)
  {
    forall u | u in s.fetched && u != baseUrl
      ensures exists j :: DiscoveredBy(fetch, baseUrl, s.pages, j, u)
    {
      var j :| FoundBy(fetch, adm, s.pages, j, u);
      assert DiscoveredBy(fetch, baseUrl, s.pages, j, u);
    }
    forall i | 0 < i < |s.pages|
      ensures DiscoveredBy(fetch, baseUrl, s.pages, s.parent[i], s.pages[i].loc)
    {
      assert FoundBy(fetch, adm, s.pages, s.parent[i], s.pages[i].loc);
    }
  }

  /** Below the limit, the crawl is closed: every admissible link of a recorded page was visited. */
  lemma ExitClosed(fetch: Fetcher, baseUrl: string, adm: string -> bool, s: CrawlState)
    requires ClosedOk(fetch, baseUrl, adm, s) && AdmitsLike(adm, baseUrl) && s.toVisit == []
    ensures forall i, href :: 0 <= i < |s.pages| && href in LinksOf(fetch(s.pages[i].loc)) && Admissible(baseUrl, href) ==>
      href in s.visited
  {
    forall i, href | 0 <= i < |s.pages| && href in LinksOf(fetch(s.pages[i].loc)) && Admissible(baseUrl, href)
      ensures href in s.visited
    {
      assert adm(href);
    }
  }

  /** The recorded pages are the recorded fetched URLs, so they are distinct and the seed comes first. */
  lemma ExitPages(fetch: Fetcher, baseUrl: string, s: CrawlState)
    requires PagesOk(fetch, baseUrl, s) && Distinct(s.fetched)
    ensures Distinct(Locs(s.pages)) && |s.pages| <= |s.fetched|
    ensures forall u :: u in Locs(s.pages) <==> u in s.fetched && Recorded(fetch(u))
    ensures |s.fetched| > 0 && s.fetched[0] == baseUrl && Recorded(fetch(baseUrl)) ==> |s.pages| > 0
  {
    RecordedOnlyDistinct(fetch, s.fetched);
    if |s.fetched| > 0 && s.fetched[0] == baseUrl && Recorded(fetch(baseUrl)) {
      RecordedOnlyFirst(fetch, s.fetched);
    }
  }

  /** The filter passed to the proof of the crawl. */
  ghost function AdmittedBy(baseUrl: string): (adm: string -> bool)
    ensures AdmitsLike(adm, baseUrl)
  {
    href => Admissible(baseUrl, href)
  }

  /**
    `crawlSite(baseUrl, limit)`: breadth-first from `baseUrl`, at most
    `limit` URLs visited, each at most once; a URL whose fetch fails is
    visited but not recorded.  The ghost results expose the proof's view:
    `fetched` is the order in which URLs were visited and `parent[i]` the
    index of the page whose links led to `pages[i]`.
   */
  method CrawlSite(fetch: Fetcher, baseUrl: string, limit: int)
    returns (pages: seq<Page>, ghost fetched: seq<string>, ghost parent: seq<nat>)
    // the output is the one the step-by-step run fixes, in dequeuing order
    ensures pages == Crawl(fetch, baseUrl, limit).pages && fetched == Crawl(fetch, baseUrl, limit).fetched
    ensures parent == Crawl(fetch, baseUrl, limit).parent
    // the limit bounds the number of visited URLs; the seed is visited first
    ensures limit <= 0 ==> fetched == [] && pages == []
    ensures limit > 0 ==> 0 < |fetched| <= limit && fetched[0] == baseUrl
    ensures Distinct(fetched)
    // the output: the recorded visits, in visiting order, each with the oracle's date
    ensures Locs(pages) == RecordedOnly(fetch, fetched)
    ensures Distinct(Locs(pages)) && |pages| <= |fetched|
    ensures forall u :: u in Locs(pages) <==> u in fetched && Recorded(fetch(u))
    ensures forall i :: 0 <= i < |pages| ==> Recorded(fetch(pages[i].loc)) && pages[i].lastmod == fetch(pages[i].loc).lastmod
    ensures limit > 0 && Recorded(fetch(baseUrl)) ==> |pages| > 0 && pages[0].loc == baseUrl
    // every visit but the seed follows an admissible link of a recorded page
    ensures forall u :: u in fetched && u != baseUrl ==> exists j :: DiscoveredBy(fetch, baseUrl, pages, j, u)
    // breadth first: each page was found by an earlier one, and finders never go back
    ensures |parent| == |pages|
    ensures forall i :: 0 < i < |pages| ==> parent[i] < i && DiscoveredBy(fetch, baseUrl, pages, parent[i], pages[i].loc)
    ensures forall i, k :: 0 < i < k < |pages| ==> parent[i] <= parent[k]
    // below the limit, no admissible link of a recorded page is left unvisited
    ensures |fetched| < limit ==> forall i, href ::
      0 <= i < |pages| && href in LinksOf(fetch(pages[i].loc)) && Admissible(baseUrl, href) ==> href in fetched
  {
    var visited: set<string> := {};
    var toVisit := [baseUrl];
    pages := [];
    ghost var adm := AdmittedBy(baseUrl);
    ghost var st := Start(baseUrl);
    StartInv(fetch, baseUrl, adm, limit);
    while |toVisit| > 0 && |visited| < limit
      invariant st.visited == visited && st.toVisit == toVisit && st.pages == pages
      invariant CrawlInv(fetch, baseUrl, adm, limit, st)
      invariant |st.foundBy| == |st.toVisit| && Run(fetch, baseUrl, limit, st) == Crawl(fetch, baseUrl, limit)
      decreases limit - |visited|, |toVisit|
    {
      var currentUrl := toVisit[0];
      toVisit := toVisit[1..];
      if currentUrl in visited {
        SkipInv(fetch, baseUrl, adm, limit, st);
        RunSkips(fetch, baseUrl, limit, st);
        st := Skip(st);
        continue;
      }
      visited := visited + {currentUrl};
      var outcome := fetch(currentUrl);
      if outcome.Failed? {
        FailInv(fetch, baseUrl, adm, limit, st);
        RunFails(fetch, baseUrl, limit, st);
        st := Fail(st);
      } else {
        RecordInv(fetch, baseUrl, adm, limit, st);
        RunRecords(fetch, baseUrl, limit, st);
        st := Record(fetch, baseUrl, st);
        pages := pages + [Page(currentUrl, outcome.lastmod)];
        if outcome.Fetched? {
          toVisit := toVisit + FilterLinks(baseUrl, visited, outcome.links);
        } else {
          assert toVisit == toVisit + FilterLinks(baseUrl, visited, []);
        }
      }
    }
    RunDone(fetch, baseUrl, limit, st);
    fetched, parent := st.fetched, st.parent;
    ExitBounds(fetch, baseUrl, adm, limit, st);
    ExitPages(fetch, baseUrl, st);
    ExitFound(fetch, baseUrl, adm, st);
    if |fetched| < limit {
      ExitClosed(fetch, baseUrl, adm, st);
    }
  }
}
