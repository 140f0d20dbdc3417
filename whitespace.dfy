/** Unicode-aware trimming of a string, as Rust's `str::trim` does it:
    drop the maximal leading and trailing runs of code points that carry
    the Unicode White_Space property (`char::is_whitespace`). */
module Whitespace {

  /** The 25 code points with the Unicode White_Space property, one by one. */
  const WhiteSpaceCodePoints: set<char> := {
    '\t', '\n', '\U{B}', '\U{C}', '\r', ' ', '\U{85}', '\U{A0}', '\U{1680}',
    '\U{2000}', '\U{2001}', '\U{2002}', '\U{2003}', '\U{2004}', '\U{2005}',
    '\U{2006}', '\U{2007}', '\U{2008}', '\U{2009}', '\U{200A}',
    '\U{2028}', '\U{2029}', '\U{202F}', '\U{205F}', '\U{3000}'
  }

  /** `char::is_whitespace`, by ranges; it holds of exactly the listed
      White_Space code points. */
  function IsWhitespace(c: char): (b: bool)
    ensures b <==> c in WhiteSpaceCodePoints
  {
    || ('\t' <= c <= '\r')            // TAB, LF, VT, FF, CR
    || c == ' '
    || c == '\U{85}'                  // NEXT LINE
    || c == '\U{A0}'                  // NO-BREAK SPACE
    || c == '\U{1680}'                // OGHAM SPACE MARK
    || ('\U{2000}' <= c <= '\U{200A}') // EN QUAD .. HAIR SPACE
    || c == '\U{2028}' || c == '\U{2029}'
    || c == '\U{202F}' || c == '\U{205F}' || c == '\U{3000}'
  }

  predicate AllWhitespace(s: string) {
    forall i :: 0 <= i < |s| ==> IsWhitespace(s[i])
  }

  /** Every code point of `s` in the index range [lo, hi) is whitespace. */
  predicate WhitespaceBetween(s: string, lo: nat, hi: nat)
    requires hi <= |s|
  {
    forall i :: lo <= i < hi ==> IsWhitespace(s[i])
  }

  /** A trimmed string: empty, or neither end is whitespace. */
  predicate IsTrimmed(s: string) {
    s == [] || (!IsWhitespace(s[0]) && !IsWhitespace(s[|s| - 1]))
  }

  /** Length of the leading whitespace run. */
  function LeadingWhitespace(s: string): (n: nat)
    ensures n <= |s|
    ensures WhitespaceBetween(s, 0, n)
    ensures n < |s| ==> !IsWhitespace(s[n])
  {
    if s != [] && IsWhitespace(s[0]) then 1 + LeadingWhitespace(s[1..]) else 0
  }

  /** Length of the trailing whitespace run. */
  function TrailingWhitespace(s: string): (n: nat)
    ensures n <= |s|
    ensures WhitespaceBetween(s, |s| - n, |s|)
    ensures n < |s| ==> !IsWhitespace(s[|s| - 1 - n])
  {
    if s != [] && IsWhitespace(s[|s| - 1]) then 1 + TrailingWhitespace(s[..|s| - 1]) else 0
  }

  /** `str::trim_start`: drop the leading whitespace run. */
  function TrimStart(s: string): (r: string)
    ensures |r| <= |s|
    ensures r == s[|s| - |r|..]
    ensures WhitespaceBetween(s, 0, |s| - |r|)
    ensures r == [] || !IsWhitespace(r[0])
  {
    s[LeadingWhitespace(s)..]
  }

  /** `str::trim_end`: drop the trailing whitespace run. */
  function TrimEnd(s: string): (r: string)
    ensures |r| <= |s|
    ensures r == s[..|r|]
    ensures WhitespaceBetween(s, |r|, |s|)
    ensures r == [] || !IsWhitespace(r[|r| - 1])
  {
    s[..|s| - TrailingWhitespace(s)]
  }

  /** `s` is `s[..k]` + `r` + the rest, with only whitespace on both sides. */
  predicate Splits(s: string, k: nat, r: string) {
    && k + |r| <= |s|
    && s[k..k + |r|] == r
    && WhitespaceBetween(s, 0, k)
    && WhitespaceBetween(s, k + |r|, |s|)
  }

  /** `str::trim`: `s` splits as whitespace + `r` + whitespace, and `r` is
      trimmed; the leading part is the whole leading whitespace run. */
  function Trim(s: string): (r: string)
    ensures IsTrimmed(r)
    ensures Splits(s, LeadingWhitespace(s), r)
  {
    var t := TrimStart(s);
    var r := TrimEnd(t);
    var k := |s| - |t|;
    assert r == [] || r[0] == t[0];
    assert forall i :: k + |r| <= i < |s| ==> s[i] == t[i - k];
    r
  }

  /** The trimmed core is unique: whatever whitespace pads a trimmed string,
      `Trim` gives back exactly that string. */
  lemma TrimUnique(pre: string, r: string, post: string)
    requires AllWhitespace(pre) && AllWhitespace(post) && IsTrimmed(r)
    ensures Trim(pre + r + post) == r
  {
    var s := pre + r + post;
    var t := Trim(s);
    var k := LeadingWhitespace(s);
    assert forall i :: 0 <= i < |pre| ==> s[i] == pre[i];
    assert forall i :: 0 <= i < |post| ==> s[|pre| + |r| + i] == post[i];
    if r != [] {
      assert s[|pre|] == r[0] && s[|pre| + |r| - 1] == r[|r| - 1];
      assert t == s[|pre|..|pre| + |r|] == r;
    }
  }

  /** Trimming leaves a trimmed string alone. */
  lemma TrimOfTrimmed(w: string)
    requires IsTrimmed(w)
    ensures Trim(w) == w
  {
    TrimUnique([], w, []);
    assert [] + w + [] == w;
  }

  /** Trimming twice is trimming once. */
  lemma TrimIdempotent(s: string)
    ensures Trim(Trim(s)) == Trim(s)
  {
    TrimOfTrimmed(Trim(s));
  }

  lemma SplitsApart(s: string, k: nat, r: string)
    requires Splits(s, k, r)
    ensures s == s[..k] + r + s[k + |r|..]
    ensures AllWhitespace(s[..k]) && AllWhitespace(s[k + |r|..])
  {
    assert s == s[..k] + s[k..k + |r|] + s[k + |r|..];
  }

  /** String concatenation is associative. */
  lemma Reassociate(a: string, b: string, c: string)
    ensures a + (b + c) == a + b + c
  {
  }

  lemma AllWhitespaceAppend(a: string, b: string)
    requires AllWhitespace(a) && AllWhitespace(b)
    ensures AllWhitespace(a + b)
  {
  }

  /** Extra whitespace on either side never changes the trimmed string. */
  lemma TrimIgnoresPadding(pre: string, s: string, post: string)
    requires AllWhitespace(pre) && AllWhitespace(post)
    ensures Trim(pre + s + post) == Trim(s)
  {
    var r := Trim(s);
    var k := LeadingWhitespace(s);
    var a, b := s[..k], s[k + |r|..];
    SplitsApart(s, k, r);
    var pre', post' := pre + a, b + post;
    AllWhitespaceAppend(pre, a);
    AllWhitespaceAppend(b, post);
    Reassociate(pre, a + r, b);
    Reassociate(pre, a, r);
    Reassociate(pre + a + r, b, post);
    TrimUnique(pre', r, post');
  }

  /** The trimmed string is empty exactly when the input is all whitespace. */
  lemma TrimEmptyIffBlank(s: string)
    ensures Trim(s) == [] <==> AllWhitespace(s)
  {
    var k := LeadingWhitespace(s);
    if Trim(s) != [] {
      assert s[k] == Trim(s)[0];
    }
  }
}
