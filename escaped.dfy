/**
  `buildSitemap` places every field between its tags verbatim, so a
  location such as `http://x/?a=1&b=2` yields a `<loc>` element whose
  content is not well-formed XML character data.  This module shows that
  with one concrete page, and gives the corrected builder, which escapes
  `&`, `<` and `>` in every field first.
 */
module EscapedSitemap {
  import opened Wrappers
  import opened Crawler
  import opened Xml
  import opened Sitemap

  /** Every field of a read-back entry is well-formed character data. */
  predicate EntryCharData(e: UrlEntry)
  {
    CharDataOk(e.loc) && CharDataOk(e.lastmod) && CharDataOk(e.changeFreq) && CharDataOk(e.priority)
  }

  /** The document reads back, and every field between tags is well-formed character data. */
  predicate WellFormedSitemap(doc: string)
  {
    match ParseSitemap(doc)
    case None => false
    case Some(es) => forall i :: 0 <= i < |es| ==> EntryCharData(es[i])
  }

  // ---------------------------------------------------------------------
  // As written

  /** A location with a query string of two parameters. */
  const QueryPage := Page("http://x/?a=1&b=2", "2024-01-01")
  const Daily := Options("daily", "0.5")

  /** An `&` not followed by the letter of a predefined entity, after text without `&` or `<`, spoils character data. */
  lemma {:induction false} BareAmpersand(s: string, i: nat)
    requires i < |s| && s[i] == '&'
    requires forall k :: 0 <= k < i ==> s[k] != '&' && s[k] != '<'
    requires i + 1 < |s| && s[i + 1] != 'a' && s[i + 1] != 'l' && s[i + 1] != 'g'
    ensures !CharDataOk(s)
    decreases i
  {
    if i == 0 {
      assert Amp[1] == 'a' && Lt[1] == 'l' && Gt[1] == 'g';
    } else {
      assert s[1..][i - 1..] == s[i..];
      BareAmpersand(s[1..], i - 1);
    }
  }

  /** The `&` of the query string is not the start of a reference. */
  lemma QueryLocNotCharData()
    ensures !CharDataOk(QueryPage.loc)
  {
    BareAmpersand(QueryPage.loc, 13);
  }

  /** The document `buildSitemap` writes for that page reads back as the page's fields verbatim. */
  lemma AsWrittenParses()
    ensures ParseSitemap(BuildSitemap([QueryPage], Daily)) == Some([Expected(QueryPage, Daily)])
  {
    assert FieldsPlain(QueryPage, Daily);
    OnePageRoundTrip(QueryPage, Daily);
  }

  lemma OnePageRoundTrip(page: Page, options: Options)
    requires FieldsPlain(page, options)
    ensures ParseSitemap(BuildSitemap([page], options)) == Some([Expected(page, options)])
  {
    RoundTrip([page], options);
    assert ExpectedAll([page], options) == [Expected(page, options)];
  }

  /** The document `buildSitemap` writes for that page is not well-formed. */
  lemma AsWrittenNotWellFormed()
    ensures !WellFormedSitemap(BuildSitemap([QueryPage], Daily))
  {
    AsWrittenParses();
    QueryLocNotCharData();
    SpoiledEntry(BuildSitemap([QueryPage], Daily), [Expected(QueryPage, Daily)], 0);
  }

  /** One entry whose location is not character data spoils the document. */
  lemma SpoiledEntry(doc: string, es: seq<UrlEntry>, i: nat)
    requires ParseSitemap(doc) == Some(es) && i < |es| && !CharDataOk(es[i].loc)
    ensures !WellFormedSitemap(doc)
  {
    assert !EntryCharData(es[i]);
  }

  // ---------------------------------------------------------------------
  // Corrected

  function EscapePage(page: Page): Page
  {
    Page(Escape(page.loc), Escape(page.lastmod))
  }

  function EscapePages(pages: seq<Page>): (escaped: seq<Page>)
    ensures |escaped| == |pages|
    ensures forall i :: 0 <= i < |pages| ==> escaped[i] == EscapePage(pages[i])
  {
    seq(|pages|, i requires 0 <= i < |pages| => EscapePage(pages[i]))
  }

  function EscapeOptions(options: Options): Options
  {
    Options(Escape(options.changeFreq), Escape(options.priority))
  }

  /** `buildSitemap` with every field escaped before it is inserted. */
  function BuildSitemapEscaped(pages: seq<Page>, options: Options): (doc: string)
    ensures Header <= doc
    ensures |doc| >= |Header| + |Footer| && doc[|doc| - |Footer|..] == Footer
    ensures pages == [] <==> doc == Header + Footer
  {
    BuildSitemap(EscapePages(pages), EscapeOptions(options))
  }

  function UnescapeEntry(e: UrlEntry): UrlEntry
  {
    UrlEntry(Unescape(e.loc), Unescape(e.lastmod), Unescape(e.changeFreq), Unescape(e.priority))
  }

  /** The escaped document reads back as the escaped fields, for any pages and options. */
  lemma EscapedParses(pages: seq<Page>, options: Options)
    ensures ParseSitemap(BuildSitemapEscaped(pages, options)) ==
            Some(ExpectedAll(EscapePages(pages), EscapeOptions(options)))
  {
    var escaped := EscapePages(pages);
    forall i | 0 <= i < |escaped| ensures FieldsPlain(escaped[i], EscapeOptions(options)) {
    }
    RoundTrip(escaped, EscapeOptions(options));
  }

  /** The escaped document is well-formed, and unescaping what is read back gives every page and option exactly. */
  lemma EscapedRoundTrip(pages: seq<Page>, options: Options)
    ensures WellFormedSitemap(BuildSitemapEscaped(pages, options))
    ensures var es := ParseSitemap(BuildSitemapEscaped(pages, options)).value;
      |es| == |pages| && forall i :: 0 <= i < |pages| ==> UnescapeEntry(es[i]) == Expected(pages[i], options)
  {
    EscapedParses(pages, options);
    var es := ExpectedAll(EscapePages(pages), EscapeOptions(options));
    forall i | 0 <= i < |pages|
      ensures EntryCharData(es[i]) && UnescapeEntry(es[i]) == Expected(pages[i], options)
    {
      EscapeCharData(pages[i].loc);
      EscapeCharData(pages[i].lastmod);
      EscapeCharData(options.changeFreq);
      EscapeCharData(options.priority);
      UnescapeEscape(pages[i].loc);
      UnescapeEscape(pages[i].lastmod);
      UnescapeEscape(options.changeFreq);
      UnescapeEscape(options.priority);
    }
  }

  /** Text free of `&`, `<` and `>`. */
  predicate Plain(s: string)
  {
    forall i :: 0 <= i < |s| ==> s[i] != '&' && s[i] != '<' && s[i] != '>'
  }

  /** On ordinary fields the corrected builder writes exactly what `buildSitemap` writes. */
  lemma EscapedAgreesOnPlain(pages: seq<Page>, options: Options)
    requires forall i :: 0 <= i < |pages| ==> Plain(pages[i].loc) && Plain(pages[i].lastmod)
    requires Plain(options.changeFreq) && Plain(options.priority)
    ensures BuildSitemapEscaped(pages, options) == BuildSitemap(pages, options)
  {
    forall i | 0 <= i < |pages| ensures EscapePage(pages[i]) == pages[i] {
      EscapePlain(pages[i].loc);
      EscapePlain(pages[i].lastmod);
    }
    assert EscapePages(pages) == pages;
    EscapePlain(options.changeFreq);
    EscapePlain(options.priority);
  }
}
