/**
  XML character data (section 2.4 of the XML 1.0 specification): text that
  may stand between a start tag and an end tag.  A raw `<` is not allowed,
  and `&` only as the start of a reference.  `CharDataOk` simplifies that rule.
  It is stricter about references: it accepts only `&amp;`, `&lt;` and
  `&gt;`, not `&apos;`, `&quot;` or character references.  It does not check
  for the sequence `]]>`, which the rule forbids; `Escape` writes no `>`, so
  escaped text never contains it.
 */
module Xml {
  const Amp := "&amp;"
  const Lt := "&lt;"
  const Gt := "&gt;"

  /** The escape of one character. */
  function EscapeChar(c: char): string
  {
    if c == '&' then Amp else if c == '<' then Lt else if c == '>' then Gt else [c]
  }

  /** Replaces every `&`, `<` and `>` by its entity reference. */
  function Escape(s: string): (e: string)
    ensures '<' !in e
    ensures |e| >= |s|
  {
    if s == [] then [] else EscapeChar(s[0]) + Escape(s[1..])
  }

  /** Replaces every predefined entity reference by its character; other text is copied. */
  function Unescape(e: string): string
  {
    if e == [] then []
    else if Amp <= e then "&" + Unescape(e[|Amp|..])
    else if Lt <= e then "<" + Unescape(e[|Lt|..])
    else if Gt <= e then ">" + Unescape(e[|Gt|..])
    else [e[0]] + Unescape(e[1..])
  }

  /** `s` is well-formed character data: no `<`, and every `&` begins a reference. */
  predicate CharDataOk(s: string)
  {
    if s == [] then true
    else if s[0] == '<' then false
    else if s[0] == '&' then
      (Amp <= s && CharDataOk(s[|Amp|..])) ||
      (Lt <= s && CharDataOk(s[|Lt|..])) ||
      (Gt <= s && CharDataOk(s[|Gt|..]))
    else CharDataOk(s[1..])
  }

  /** Unescaping undoes escaping. */
  lemma {:induction false} UnescapeEscape(s: string)
    ensures Unescape(Escape(s)) == s
  {
    if s != [] {
      UnescapeEscape(s[1..]);
      UnescapeEscapeChar(s[0], Escape(s[1..]));
      assert s == [s[0]] + s[1..];
    }
  }

  /** Unescaping the escape of one character, then anything, gives back the character first. */
  lemma UnescapeEscapeChar(c: char, rest: string)
    ensures Unescape(EscapeChar(c) + rest) == [c] + Unescape(rest)
  {
    var e := EscapeChar(c) + rest;
    if c == '&' {
      assert Amp <= e && e[|Amp|..] == rest;
    } else if c == '<' {
      assert e[1] == 'l' && Lt <= e && e[|Lt|..] == rest;
    } else if c == '>' {
      assert e[1] == 'g' && Gt <= e && e[|Gt|..] == rest;
    } else {
      assert e[0] == c && e[1..] == rest;
    }
  }

  /** Escaped text is well-formed character data. */
  lemma {:induction false} EscapeCharData(s: string)
    ensures CharDataOk(Escape(s))
  {
    if s != [] {
      var c, rest := s[0], Escape(s[1..]);
      EscapeCharData(s[1..]);
      assert Escape(s) == EscapeChar(c) + rest;
      if c == '&' {
        assert (Amp + rest)[|Amp|..] == rest;
      } else if c == '<' {
        assert (Lt + rest)[|Lt|..] == rest;
      } else if c == '>' {
        assert (Gt + rest)[|Gt|..] == rest;
      } else {
        assert ([c] + rest)[1..] == rest;
      }
    }
  }

  /** Text without the three reserved characters is its own escape. */
  lemma {:induction false} EscapePlain(s: string)
    requires forall i :: 0 <= i < |s| ==> s[i] != '&' && s[i] != '<' && s[i] != '>'
    ensures Escape(s) == s
  {
    if s != [] {
      EscapePlain(s[1..]);
      assert s == [s[0]] + s[1..];
    }
  }
}
