/**
  `buildSitemap` (server.mjs): the page records and the two caller options
  rendered as a document in the Sitemaps XML format, protocol 0.9 of
  sitemaps.org (`urlset` holding one `url` per page, each with `loc`,
  `lastmod`, `changefreq` and `priority`).

  The document is built from template strings; the fields are inserted
  verbatim.  `ParseSitemap` reads such a document back and is the partner
  that the round-trip lemmas relate `BuildSitemap` to.
 */
module Sitemap {
  import opened Wrappers
  import opened Crawler
  import opened Xml

  /** The caller's `{ changeFreq, priority }`, shared by every entry. */
  datatype Options = Options(changeFreq: string, priority: string)

  /** One `<url>` block as read back from a document. */
  datatype UrlEntry = UrlEntry(loc: string, lastmod: string, changeFreq: string, priority: string)

  /** The XML declaration line and the `urlset` start tag line, each ended by a newline. */
  const Header := "<?xml version=\"1.0\" encoding=\"UTF-8\"?>\n<urlset xmlns=\"http://www.sitemaps.org/schemas/sitemap/0.9\">\n"

  /** A newline and the `urlset` end tag. */
  const Footer := "\n</urlset>"

  /** The literal text around the four fields of one entry. */
  const OpenLoc := "\n  <url>\n    <loc>"
  const OpenLastmod := "</loc>\n    <lastmod>"
  const OpenChangeFreq := "</lastmod>\n    <changefreq>"
  const OpenPriority := "</changefreq>\n    <priority>"
  const CloseUrl := "</priority>\n  </url>"
  const EntryTemplate := [OpenLoc, OpenLastmod, OpenChangeFreq, OpenPriority, CloseUrl]

  /** The template of one entry (server.mjs lines 58-64). */
  function Entry(page: Page, options: Options): string
  {
    OpenLoc + page.loc + OpenLastmod + page.lastmod + OpenChangeFreq + options.changeFreq +
    OpenPriority + options.priority + CloseUrl
  }

  /** `pages.map(...)`: one entry per page, in order. */
  function Entries(pages: seq<Page>, options: Options): (entries: seq<string>)
    ensures |entries| == |pages|
    ensures forall i :: 0 <= i < |pages| ==> entries[i] == Entry(pages[i], options)
  {
    seq(|pages|, i requires 0 <= i < |pages| => Entry(pages[i], options))
  }

  /** `Array.prototype.join`: the parts with `sep` between neighbours. */
  function Join(parts: seq<string>, sep: string): string
  {
    if |parts| == 0 then "" else if |parts| == 1 then parts[0] else parts[0] + sep + Join(parts[1..], sep)
  }

  /** `buildSitemap(pages, options)`. */
  function BuildSitemap(pages: seq<Page>, options: Options): (doc: string)
    ensures Header <= doc
    ensures |doc| >= |Header| + |Footer| && doc[|doc| - |Footer|..] == Footer
    ensures pages == [] <==> doc == Header + Footer
  {
    var body := Join(Entries(pages, options), "\n");
    assert pages != [] ==> |body| >= |Entry(pages[0], options)| by {
      if pages != [] { JoinLength(Entries(pages, options), "\n"); }
    }
    Header + body + Footer
  }

  /** A join of two or more parts is the first part, the separator and the join of the rest. */
  lemma JoinCons(parts: seq<string>, sep: string)
    requires |parts| >= 2
    ensures Join(parts, sep) == parts[0] + (sep + Join(parts[1..], sep))
  {
  }

  /** A non-empty join starts with its first part. */
  lemma JoinLength(parts: seq<string>, sep: string)
    requires |parts| > 0
    ensures parts[0] <= Join(parts, sep) && |Join(parts, sep)| >= |parts[0]|
  {
  }

  // ---------------------------------------------------------------------
  // Reading a document back

  /** The longest prefix of `s` without `<`, and what follows it. */
  function TakeText(s: string): (r: (string, string))
    ensures r.0 + r.1 == s && '<' !in r.0
    ensures r.1 == [] || r.1[0] == '<'
  {
    if s == [] || s[0] == '<' then ([], s)
    else
      var r' := TakeText(s[1..]);
      assert ([s[0]] + r'.0) + r'.1 == [s[0]] + (r'.0 + r'.1);
      assert s == [s[0]] + s[1..];
      ([s[0]] + r'.0, r'.1)
  }

  /** `s` with the literal `lit` taken off its front. */
  function Expect(lit: string, s: string): (r: Option<string>)
    ensures r.Some? <==> lit <= s
    ensures r.Some? ==> s == lit + r.value
  {
    if lit <= s then Some(s[|lit|..]) else None
  }

  /** The literal `lit`, then text up to the next `<`. */
  function Field(lit: string, s: string): (r: Option<(string, string)>)
    ensures r.Some? ==> s == lit + r.value.0 + r.value.1 && '<' !in r.value.0
  {
    match Expect(lit, s)
    case None => None
    case Some(s1) => Some(TakeText(s1))
  }

  /** The literals of a template, each after the first starting a tag, filled with `fields` read back. */
  function ParseTemplate(lits: seq<string>, s: string): (r: Option<(seq<string>, string)>)
    requires |lits| > 0
    ensures r.Some? ==> |r.value.0| == |lits| - 1 && |r.value.1| + |lits[0]| <= |s|
    decreases |lits|
  {
    if |lits| == 1 then
      match Expect(lits[0], s)
      case None => None
      case Some(rest) => Some(([], rest))
    else
      match Field(lits[0], s)
      case None => None
      case Some((text, s1)) =>
        match ParseTemplate(lits[1..], s1)
        case None => None
        case Some((texts, rest)) => Some(([text] + texts, rest))
  }

  /** One `<url>` block at the front of `s`, and what follows it. */
  function ParseEntry(s: string): (r: Option<(UrlEntry, string)>)
    ensures r.Some? ==> |r.value.1| < |s|
  {
    match ParseTemplate(EntryTemplate, s)
    case None => None
    case Some((f, rest)) => Some((UrlEntry(f[0], f[1], f[2], f[3]), rest))
  }

  /** A non-empty run of blocks separated by newlines. */
  function ParseEntriesFrom(s: string): Option<seq<UrlEntry>>
    decreases |s|
  {
    match ParseEntry(s)
    case None => None
    case Some((e, rest)) =>
      if rest == [] then Some([e])
      else if rest[0] != '\n' then None
      else
        match ParseEntriesFrom(rest[1..])
        case None => None
        case Some(es) => Some([e] + es)
  }

  /** Reads a document in the form `BuildSitemap` writes, or gives `None`. */
  function ParseSitemap(doc: string): Option<seq<UrlEntry>>
  {
    if !(Header <= doc) || |doc| < |Header| + |Footer| || doc[|doc| - |Footer|..] != Footer then None
    else
      var body := doc[|Header|..|doc| - |Footer|];
      if body == [] then Some([]) else ParseEntriesFrom(body)
  }

  // ---------------------------------------------------------------------
  // Round trip

  /** The entry a page renders to, as read back. */
  function Expected(page: Page, options: Options): UrlEntry
  {
    UrlEntry(page.loc, page.lastmod, options.changeFreq, options.priority)
  }

  /** The entries the pages render to, as read back, in page order. */
  function ExpectedAll(pages: seq<Page>, options: Options): (all: seq<UrlEntry>)
    ensures |all| == |pages|
    ensures forall i :: 0 <= i < |pages| ==> all[i] == Expected(pages[i], options)
  {
    if pages == [] then [] else [Expected(pages[0], options)] + ExpectedAll(pages[1..], options)
  }

  /** The fields are plain text for the reader: none holds a `<`. */
  predicate FieldsPlain(page: Page, options: Options)
  {
    '<' !in page.loc && '<' !in page.lastmod && '<' !in options.changeFreq && '<' !in options.priority
  }

  /** Text without `<` followed by a tag is read as exactly that text. */
  lemma {:induction false} TakeTextPlain(text: string, rest: string)
    requires '<' !in text && (rest == [] || rest[0] == '<')
    ensures TakeText(text + rest) == (text, rest)
  {
    if text != [] {
      assert text + rest == [text[0]] + (text[1..] + rest);
      TakeTextPlain(text[1..], rest);
      assert text == [text[0]] + text[1..];
    } else {
      assert text + rest == rest;
    }
  }

  /** A field written as `lit + text + rest`, with `rest` a tag, is read back. */
  lemma FieldPlain(lit: string, text: string, rest: string)
    requires '<' !in text && (rest == [] || rest[0] == '<')
    ensures Field(lit, lit + text + rest) == Some((text, rest))
  {
    assert (lit + text + rest)[|lit|..] == text + rest;
    TakeTextPlain(text, rest);
  }

  /** A literal followed by anything is taken off exactly. */
  lemma ExpectPlain(lit: string, rest: string)
    ensures Expect(lit, lit + rest) == Some(rest)
  {
    assert (lit + rest)[|lit|..] == rest;
  }

  /** The literals interleaved with the fields: `lits[0] + fields[0] + lits[1] + ... + lits[|fields|]`. */
  function Fill(lits: seq<string>, fields: seq<string>): string
    requires |lits| == |fields| + 1
    decreases |fields|
  {
    if fields == [] then lits[0] else lits[0] + fields[0] + Fill(lits[1..], fields[1..])
  }

  /** Every literal but the first starts a tag. */
  predicate TagsAfterFirst(lits: seq<string>)
  {
    forall k :: 1 <= k < |lits| ==> |lits[k]| > 0 && lits[k][0] == '<'
  }

  /** A filled template is read back as its fields, whatever follows it. */
  lemma {:induction false} ParseFill(lits: seq<string>, fields: seq<string>, rest: string)
    requires |lits| == |fields| + 1 && TagsAfterFirst(lits)
    requires forall k :: 0 <= k < |fields| ==> '<' !in fields[k]
    ensures ParseTemplate(lits, Fill(lits, fields) + rest) == Some((fields, rest))
    decreases |fields|
  {
    if fields == [] {
      ExpectPlain(lits[0], rest);
    } else {
      var after := Fill(lits[1..], fields[1..]) + rest;
      assert Fill(lits, fields) + rest == lits[0] + fields[0] + after;
      assert Fill(lits[1..], fields[1..]) == lits[1] || Fill(lits[1..], fields[1..]) == lits[1] + fields[1] + Fill(lits[2..], fields[2..]);
      assert after[0] == lits[1][0];
      FieldPlain(lits[0], fields[0], after);
      ParseFill(lits[1..], fields[1..], rest);
      assert fields == [fields[0]] + fields[1..];
    }
  }

  /** An entry is the entry template filled with the page's two fields and the two options. */
  lemma EntryIsFill(page: Page, options: Options)
    ensures Entry(page, options) == Fill(EntryTemplate, [page.loc, page.lastmod, options.changeFreq, options.priority])
    ensures TagsAfterFirst(EntryTemplate)
  {
    FillFive(OpenLoc, OpenLastmod, OpenChangeFreq, OpenPriority, CloseUrl,
      page.loc, page.lastmod, options.changeFreq, options.priority);
  }

  /** A five-literal template filled with four fields, written out. */
  lemma FillFive(a: string, b: string, c: string, d: string, e: string, f: string, g: string, h: string, k: string)
    ensures Fill([a, b, c, d, e], [f, g, h, k]) == a + f + b + g + c + h + d + k + e
  {
    assert Fill([e], []) == e;
    assert [d, e][1..] == [e] && [k][1..] == [];
    assert Fill([d, e], [k]) == d + k + e;
    assert [c, d, e][1..] == [d, e] && [h, k][1..] == [k];
    assert Fill([c, d, e], [h, k]) == c + h + (d + k + e);
    assert [b, c, d, e][1..] == [c, d, e] && [g, h, k][1..] == [h, k];
    assert Fill([b, c, d, e], [g, h, k]) == b + g + (c + h + (d + k + e));
    assert [a, b, c, d, e][1..] == [b, c, d, e] && [f, g, h, k][1..] == [g, h, k];
  }

  /** One entry followed by anything is read as its page. */
  lemma ParseEntryOf(page: Page, options: Options, rest: string)
    requires FieldsPlain(page, options)
    ensures ParseEntry(Entry(page, options) + rest) == Some((Expected(page, options), rest))
  {
    EntryIsFill(page, options);
    ParseFill(EntryTemplate, [page.loc, page.lastmod, options.changeFreq, options.priority], rest);
  }

  /** An entry, a newline and a readable run of entries are read as one more entry in front. */
  lemma ParseEntriesCons(page: Page, options: Options, more: string, es: seq<UrlEntry>)
    requires FieldsPlain(page, options) && ParseEntriesFrom(more) == Some(es)
    ensures ParseEntriesFrom(Entry(page, options) + ("\n" + more)) == Some([Expected(page, options)] + es)
  {
    ParseEntryOf(page, options, "\n" + more);
    assert ("\n" + more)[1..] == more;
  }

  /** The joined entries of a non-empty page list are read back in order. */
  lemma {:induction false} ParseJoined(pages: seq<Page>, options: Options)
    requires |pages| > 0 && forall i :: 0 <= i < |pages| ==> FieldsPlain(pages[i], options)
    ensures ParseEntriesFrom(Join(Entries(pages, options), "\n")) == Some(ExpectedAll(pages, options))
    decreases |pages|
  {
    var entries := Entries(pages, options);
    if |pages| == 1 {
      ParseEntryOf(pages[0], options, []);
      assert Entry(pages[0], options) + [] == entries[0] == Join(entries, "\n");
      assert ExpectedAll(pages, options) == [Expected(pages[0], options)];
    } else {
      var tail := pages[1..];
      var more := Join(Entries(tail, options), "\n");
      assert entries[1..] == Entries(tail, options);
      JoinCons(entries, "\n");
      ParseJoined(tail, options);
      ParseEntriesCons(pages[0], options, more, ExpectedAll(tail, options));
      assert ExpectedAll(pages, options) == [Expected(pages[0], options)] + ExpectedAll(tail, options);
    }
  }

  /**
    Reading the document back yields exactly one entry per page, in page
    order, each with its page's `loc` and `lastmod` and the two options
    verbatim, provided no field holds a `<`.
   */
  lemma RoundTrip(pages: seq<Page>, options: Options)
    requires forall i :: 0 <= i < |pages| ==> FieldsPlain(pages[i], options)
    ensures ParseSitemap(BuildSitemap(pages, options)) ==
            Some(ExpectedAll(pages, options))
  {
    var doc := BuildSitemap(pages, options);
    var body := Join(Entries(pages, options), "\n");
    assert doc == Header + body + Footer;
    assert doc[|Header|..|doc| - |Footer|] == body;
    if pages == [] {
      assert body == [];
      assert ExpectedAll(pages, options) == [];
    } else {
      ParseJoined(pages, options);
      JoinLength(Entries(pages, options), "\n");
      assert body != [];
    }
  }
}
