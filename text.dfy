/**
  The two string tests the crawler's link filter uses, stated on `seq<char>`:
  JavaScript's `startsWith` is a prefix test and `includes` a substring test.
 */
module Text {

  /** `s.startsWith(prefix)`. */
  predicate StartsWith(s: string, prefix: string)
  {
    prefix <= s
  }

  /** `sub` occurs in `s` starting at index `i`. */
  ghost predicate OccursAt(s: string, sub: string, i: nat)
  {
    i + |sub| <= |s| && s[i..i + |sub|] == sub
  }

  /** `s.includes(sub)`, computed by trying every start position in turn. */
  predicate Includes(s: string, sub: string)
    decreases |s|
  {
    if sub <= s then true
    else if |s| == 0 then false
    else Includes(s[1..], sub)
  }

  /** The computed test agrees with the definition "some start position holds `sub`", in both directions. */
  lemma IncludesIffOccurs(s: string, sub: string)
    ensures Includes(s, sub) <==> exists i: nat :: OccursAt(s, sub, i)
  {
    if Includes(s, sub) {
      var i := IncludesWitness(s, sub);
    }
    forall i: nat | OccursAt(s, sub, i) ensures Includes(s, sub) {
      OccursIncludes(s, sub, i);
    }
  }

  /** A successful test finds a start position where `sub` occurs. */
  lemma {:induction false} IncludesWitness(s: string, sub: string) returns (i: nat)
    requires Includes(s, sub)
    ensures OccursAt(s, sub, i)
    decreases |s|
  {
    if sub <= s {
      i := 0;
      assert s[..|sub|] == sub;
    } else {
      var j := IncludesWitness(s[1..], sub);
      assert s[1..][j..j + |sub|] == s[j + 1..j + 1 + |sub|];
      i := j + 1;
    }
  }

  /** Every start position where `sub` occurs makes the test succeed. */
  lemma {:induction false} OccursIncludes(s: string, sub: string, i: nat)
    requires OccursAt(s, sub, i)
    ensures Includes(s, sub)
    decreases i
  {
    if i == 0 {
      assert s[..|sub|] == sub;
    } else if !(sub <= s) {
      assert s[1..][i - 1..i - 1 + |sub|] == s[i..i + |sub|];
      OccursIncludes(s[1..], sub, i - 1);
    }
  }

  /** For a one-character needle the substring test is plain membership. */
  lemma {:induction false} IncludesChar(s: string, c: char)
    ensures Includes(s, [c]) <==> c in s
    decreases |s|
  {
    if |s| > 0 {
      IncludesChar(s[1..], c);
      assert [c] <= s <==> s[0] == c;
      assert c in s <==> s[0] == c || c in s[1..];
    }
  }

  /** `s` cannot include `sub` when the first character of `sub` does not occur in `s`. */
  lemma {:induction false} MissingFirstChar(s: string, sub: string)
    requires |sub| > 0 && sub[0] !in s
    ensures !Includes(s, sub)
    decreases |s|
  {
    if |s| > 0 {
      assert s == [s[0]] + s[1..];
      MissingFirstChar(s[1..], sub);
    }
  }
}
