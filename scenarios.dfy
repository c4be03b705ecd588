/**
  Small crawls of fixed sites, each answered by a fake fetcher.  Each
  scenario follows the run that `CrawlSite`'s contract fixes, one dequeued
  URL at a time.
 */
module CrawlScenarios {
  import opened Text
  import opened Crawler

  const Home := "http://x/"
  const About := "http://x/about"
  const Broken := "http://x/broken"
  const Day := "2024-01-01"

  /** A link under `baseUrl` with neither `#` nor the letter `m`, so certainly no `mailto:`. */
  predicate PlainLink(baseUrl: string, href: string)
  {
    StartsWith(href, baseUrl) && '#' !in href && 'm' !in href
  }

  /** A plain link passes the filter. */
  lemma PlainLinkAdmissible(baseUrl: string, href: string)
    requires PlainLink(baseUrl, href)
    ensures Admissible(baseUrl, href)
  {
    MissingFirstChar(href, "#");
    MissingFirstChar(href, "mailto:");
  }

  /** A site of one page without links is crawled to exactly that page. */
  method IsolatedPage(fetch: Fetcher, home: string, day: string) returns (pages: seq<Page>)
    requires fetch(home) == Fetched(day, [])
    ensures pages == [Page(home, day)]
  {
    ghost var fetched, parent;
    pages, fetched, parent := CrawlSite(fetch, home, 100);
    IsolatedRun(fetch, home, day);
  }

  /** The run on that site: the seed is recorded, and nothing is enqueued. */
  lemma IsolatedRun(fetch: Fetcher, home: string, day: string)
    requires fetch(home) == Fetched(day, [])
    ensures Crawl(fetch, home, 100).pages == [Page(home, day)]
    ensures Crawl(fetch, home, 100).fetched == [home]
  {
    var s0 := Start(home);
    var s1 := Record(fetch, home, s0);
    assert Run(fetch, home, 100, s0) == Run(fetch, home, 100, s1);
    assert s1.toVisit == [];
  }

  /** Two pages linking to each other (A to B to A) are each crawled once, the seed first. */
  method Cycle(fetch: Fetcher, home: string, about: string, day: string) returns (pages: seq<Page>)
    requires about != home && PlainLink(home, about)
    requires fetch(home) == Fetched(day, [about]) && fetch(about) == Fetched(day, [home])
    ensures pages == [Page(home, day), Page(about, day)]
  {
    ghost var fetched, parent;
    pages, fetched, parent := CrawlSite(fetch, home, 100);
    CycleRun(fetch, home, about, day);
  }

  /** The run on the cycle: the seed enqueues the other page, whose link back is already visited. */
  lemma CycleRun(fetch: Fetcher, home: string, about: string, day: string)
    requires about != home && PlainLink(home, about)
    requires fetch(home) == Fetched(day, [about]) && fetch(about) == Fetched(day, [home])
    ensures Crawl(fetch, home, 100).pages == [Page(home, day), Page(about, day)]
    ensures Crawl(fetch, home, 100).fetched == [home, about]
  {
    PlainLinkAdmissible(home, about);
    var s0 := Start(home);
    var s1 := Record(fetch, home, s0);
    assert Run(fetch, home, 100, s0) == Run(fetch, home, 100, s1);
    assert FilterLinks(home, {home}, [about]) == [about] by {
      assert KeepLink(home, {home}, about);
    }
    assert s1.toVisit == [about] && s1.visited == {home};
    var s2 := Record(fetch, home, s1);
    assert Run(fetch, home, 100, s1) == Run(fetch, home, 100, s2);
    assert s2.toVisit == [];
  }

  /** A link whose fetch fails is visited but left out, and the crawl goes on to the next link. */
  method FailedLink(fetch: Fetcher, home: string, broken: string, about: string, day: string)
    returns (pages: seq<Page>, ghost fetched: seq<string>)
    requires home != broken && home != about && broken != about
    requires PlainLink(home, broken) && PlainLink(home, about)
    requires fetch(home) == Fetched(day, [broken, about]) && fetch(broken) == Failed && fetch(about) == Fetched(day, [])
    ensures fetched == [home, broken, about]
    ensures pages == [Page(home, day), Page(about, day)]
  {
    ghost var parent;
    pages, fetched, parent := CrawlSite(fetch, home, 100);
    FailedLinkRun(fetch, home, broken, about, day);
  }

  /** The run on that site: the seed, then the failing link, then the leaf, in document order. */
  lemma FailedLinkRun(fetch: Fetcher, home: string, broken: string, about: string, day: string)
    requires home != broken && home != about && broken != about
    requires PlainLink(home, broken) && PlainLink(home, about)
    requires fetch(home) == Fetched(day, [broken, about]) && fetch(broken) == Failed && fetch(about) == Fetched(day, [])
    ensures Crawl(fetch, home, 100).pages == [Page(home, day), Page(about, day)]
    ensures Crawl(fetch, home, 100).fetched == [home, broken, about]
  {
    var s1 := Record(fetch, home, Start(home));
    RunRecords(fetch, home, 100, Start(home));
    SeedEnqueuesBoth(fetch, home, broken, about, day);
    var s2 := Fail(s1);
    RunFails(fetch, home, 100, s1);
    assert s2.toVisit == [about] && s2.visited == {home, broken};
    var s3 := Record(fetch, home, s2);
    RunRecords(fetch, home, 100, s2);
    RunDone(fetch, home, 100, s3);
  }

  /** The seed's two links both pass the filter and are enqueued in document order. */
  lemma SeedEnqueuesBoth(fetch: Fetcher, home: string, broken: string, about: string, day: string)
    requires home != broken && home != about
    requires PlainLink(home, broken) && PlainLink(home, about)
    requires fetch(home) == Fetched(day, [broken, about])
    ensures Record(fetch, home, Start(home)).toVisit == [broken, about]
    ensures Record(fetch, home, Start(home)).visited == {home}
  {
    PlainLinkAdmissible(home, broken);
    PlainLinkAdmissible(home, about);
    assert KeepLink(home, {home}, broken) && KeepLink(home, {home}, about);
    assert [broken, about][1..] == [about];
    assert FilterLinks(home, {home}, [about]) == [about];
    assert FilterLinks(home, {home}, [broken, about]) == [broken, about];
    assert Start(home).visited + {home} == {home} && Start(home).toVisit[1..] == [];
  }

  /** The scenarios on concrete URLs. */
  method IsolatedExample() returns (pages: seq<Page>)
    ensures pages == [Page(Home, Day)]
  {
    pages := IsolatedPage(u => if u == Home then Fetched(Day, []) else Failed, Home, Day);
  }

  method CycleExample() returns (pages: seq<Page>)
    ensures pages == [Page(Home, Day), Page(About, Day)]
  {
    pages := Cycle(u => if u == Home then Fetched(Day, [About]) else if u == About then Fetched(Day, [Home]) else Failed,
      Home, About, Day);
  }

  method FailedLinkExample() returns (pages: seq<Page>)
    ensures pages == [Page(Home, Day), Page(About, Day)]
  {
    ghost var fetched;
    pages, fetched := FailedLink(
      u => if u == Home then Fetched(Day, [Broken, About]) else if u == About then Fetched(Day, []) else Failed,
      Home, Broken, About, Day);
  }
}
