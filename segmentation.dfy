/** Extended grapheme clusters, as `graphemes(true)` of the
    unicode-segmentation crate yields them, under a subset of the boundary
    rules of UAX #29 section 3.1.1: GB3 (CR x LF), GB4 and GB5 (break
    around controls), GB9 (no break before Extend or ZWJ) and GB999 (break
    everywhere else). Control is the whole Grapheme_Cluster_Break=Control
    class of Unicode 15.0; Extend is the part of that class listed in
    IsExtend. Every rule left out keeps code points together, so the model
    breaks wherever the full rules break, and sometimes where they do not. */
module Segmentation {

  const CR: char := '\r'
  const LF: char := '\n'
  const ZWJ: char := '\U{200D}'

  /** Grapheme_Cluster_Break=Control (Unicode 15.0): the Cc controls other
      than CR and LF, the line and paragraph separators, the Cf format
      characters other than ZWNJ, ZWJ, the Prepend marks and the tags, and
      the unassigned default-ignorable code points around them. */
  predicate IsControl(c: char) {
    || (c < ' ' && c != CR && c != LF)
    || ('\U{7F}' <= c <= '\U{9F}')
    || c == '\U{AD}'                     // SOFT HYPHEN
    || c == '\U{61C}'                    // ARABIC LETTER MARK
    || c == '\U{180E}'                   // MONGOLIAN VOWEL SEPARATOR
    || c == '\U{200B}'                   // ZERO WIDTH SPACE
    || ('\U{200E}' <= c <= '\U{200F}')   // LRM, RLM
    || c == '\U{2028}' || c == '\U{2029}'
    || ('\U{202A}' <= c <= '\U{202E}')   // bidi embeddings and overrides
    || ('\U{2060}' <= c <= '\U{206F}')   // WORD JOINER .. NOMINAL DIGIT SHAPES
    || c == '\U{FEFF}'                   // ZERO WIDTH NO-BREAK SPACE
    || ('\U{FFF0}' <= c <= '\U{FFFB}')   // .. interlinear annotation
    || ('\U{13430}' <= c <= '\U{1343F}') // Egyptian hieroglyph format controls
    || ('\U{1BCA0}' <= c <= '\U{1BCA3}') // shorthand format controls
    || ('\U{1D173}' <= c <= '\U{1D17A}') // musical symbol format controls
    || ('\U{E0000}' <= c <= '\U{E001F}') // LANGUAGE TAG and unassigned
    || ('\U{E0080}' <= c <= '\U{E00FF}') // unassigned
    || ('\U{E01F0}' <= c <= '\U{E0FFF}') // unassigned
  }

  /** Part of Grapheme_Cluster_Break=Extend: the assigned code points of
      the combining-mark blocks, the variation selectors and ZWNJ. */
  predicate IsExtend(c: char) {
    || ('\U{300}' <= c <= '\U{36F}')     // Combining Diacritical Marks
    || ('\U{1AB0}' <= c <= '\U{1ACE}')   // ... Extended
    || ('\U{1DC0}' <= c <= '\U{1DFF}')   // ... Supplement
    || ('\U{20D0}' <= c <= '\U{20F0}')   // ... for Symbols
    || ('\U{FE00}' <= c <= '\U{FE0F}')   // Variation Selectors
    || ('\U{FE20}' <= c <= '\U{FE2F}')   // Combining Half Marks
    || c == '\U{200C}'                   // ZERO WIDTH NON-JOINER
  }

  /** Whether a cluster boundary lies between adjacent code points `prev`
      and `next`; the rules are tried in their UAX #29 order. Taken
      together, they keep two code points in one cluster exactly for CR LF,
      or for an Extend or ZWJ that follows anything but a control, CR or LF. */
  function IsBreak(prev: char, next: char): (b: bool)
    ensures !b <==>
      || (prev == CR && next == LF)
      || (!IsControl(prev) && prev != CR && prev != LF && (IsExtend(next) || next == ZWJ))
  {
    if prev == CR && next == LF then false                              // GB3
    else if IsControl(prev) || prev == CR || prev == LF then true       // GB4
    else if IsControl(next) || next == CR || next == LF then true       // GB5
    else if IsExtend(next) || next == ZWJ then false                    // GB9
    else true                                                           // GB999
  }

  /** No boundary inside `c`. */
  predicate Unbroken(c: string) {
    forall k :: 0 < k < |c| ==> !IsBreak(c[k - 1], c[k])
  }

  function Concat(cs: seq<string>): string {
    if cs == [] then [] else cs[0] + Concat(cs[1..])
  }

  /** `cs` cuts `s` into clusters exactly at its boundaries: the pieces put
      back together give `s`, none is empty, none holds a boundary, and
      there is a boundary at every cut. */
  predicate IsSegmentation(s: string, cs: seq<string>) {
    && Concat(cs) == s
    && (forall k :: 0 <= k < |cs| ==> cs[k] != [] && Unbroken(cs[k]))
    && (forall i, j :: 0 <= i && j == i + 1 < |cs| ==> BreakBetween(cs[i], cs[j]))
  }

  /** A boundary lies where cluster `a` meets cluster `b`. */
  predicate BreakBetween(a: string, b: string) {
    a != [] && b != [] && IsBreak(a[|a| - 1], b[0])
  }

  /** The end of the cluster that contains index `i - 1`: the first boundary
      at or after `i`, or the end of `s`. */
  function ClusterEnd(s: string, i: nat): (j: nat)
    requires 1 <= i <= |s|
    ensures i <= j <= |s|
    ensures forall k :: i <= k < j ==> !IsBreak(s[k - 1], s[k])
    ensures j < |s| ==> IsBreak(s[j - 1], s[j])
    decreases |s| - i
  {
    if i == |s| || IsBreak(s[i - 1], s[i]) then i else ClusterEnd(s, i + 1)
  }

  /** `s.graphemes(true)`: the clusters of `s`, first to last. */
  function Graphemes(s: string): (cs: seq<string>)
    ensures IsSegmentation(s, cs)
    decreases |s|
  {
    if s == [] then []
    else
      var j := ClusterEnd(s, 1);
      var rest := Graphemes(s[j..]);
      SegmentationCons(s, j, rest);
      [s[..j]] + rest
  }

  /** An unbroken first cluster, a boundary after it, and a segmentation
      of the rest make a segmentation of the whole. */
  lemma SegmentationCons(s: string, j: nat, rest: seq<string>)
    requires 1 <= j <= |s|
    requires forall k :: 1 <= k < j ==> !IsBreak(s[k - 1], s[k])
    requires j < |s| ==> IsBreak(s[j - 1], s[j])
    requires IsSegmentation(s[j..], rest)
    ensures IsSegmentation(s, [s[..j]] + rest)
  {
    var c := s[..j];
    var cs := [c] + rest;
    assert cs[1..] == rest;
    assert s == c + s[j..];
    assert Unbroken(c) by {
      forall k | 0 < k < |c| ensures !IsBreak(c[k - 1], c[k]) {
        assert c[k - 1] == s[k - 1] && c[k] == s[k];
      }
    }
    if rest != [] {
      ConcatLength(rest);
      assert s[j..][0] == rest[0][0];
      assert BreakBetween(cs[0], cs[1]);
    }
    forall i, i' | 0 <= i && i' == i + 1 < |cs| ensures BreakBetween(cs[i], cs[i']) {
      if i > 0 {
        assert cs[i] == rest[i - 1] && cs[i'] == rest[i' - 1];
      }
    }
  }

  /** `s.graphemes(true).count()`. */
  function GraphemeCount(s: string): (n: nat)
    ensures n <= |s|
    ensures n == 0 <==> s == []
  {
    var cs := Graphemes(s);
    ConcatLength(cs);
    |cs|
  }

  /** Non-empty pieces make a string at least as long as their number. */
  lemma {:induction false} ConcatLength(cs: seq<string>)
    requires forall k :: 0 <= k < |cs| ==> cs[k] != []
    ensures |cs| <= |Concat(cs)|
    ensures cs != [] ==> Concat(cs) != []
  {
    if cs != [] {
      ConcatLength(cs[1..]);
    }
  }

  /** ClusterEnd stops at the first boundary and nowhere else. */
  lemma {:induction false} ClusterEndAt(s: string, i: nat, j: nat)
    requires 1 <= i <= j <= |s|
    requires forall k :: i <= k < j ==> !IsBreak(s[k - 1], s[k])
    requires j < |s| ==> IsBreak(s[j - 1], s[j])
    ensures ClusterEnd(s, i) == j
    decreases j - i
  {
    if i < j {
      ClusterEndAt(s, i + 1, j);
    }
  }

  /** The segmentation is unique: any cutting of `s` into unbroken pieces
      at boundaries is the one Graphemes computes. */
  lemma {:induction false} SegmentationUnique(s: string, cs: seq<string>)
    requires IsSegmentation(s, cs)
    ensures Graphemes(s) == cs
    decreases |cs|
  {
    if cs != [] {
      var c := cs[0];
      var j := |c|;
      var tail := cs[1..];
      assert s == c + Concat(tail);
      assert IsSegmentation(s[j..], tail) by {
        assert s[j..] == Concat(tail);
        forall a, b | 0 <= a && b == a + 1 < |tail| ensures BreakBetween(tail[a], tail[b]) {
          assert tail[a] == cs[a + 1] && tail[b] == cs[b + 1];
        }
      }
      forall k | 1 <= k < j ensures !IsBreak(s[k - 1], s[k]) {
        assert s[k - 1] == c[k - 1] && s[k] == c[k];
      }
      if j < |s| {
        ConcatLength(tail);
        assert tail != [];
        assert s[j] == Concat(tail)[0] == tail[0][0];
        assert s[j - 1] == c[j - 1];
      }
      ClusterEndAt(s, 1, j);
      SegmentationUnique(s[j..], tail);
      assert s[..j] == c;
    }
  }

  /** Where every adjacent pair is a boundary, each code point is a cluster
      of its own. */
  lemma {:induction false} AllBreaksCountEach(s: string)
    requires forall k :: 0 < k < |s| ==> IsBreak(s[k - 1], s[k])
    ensures GraphemeCount(s) == |s|
    decreases |s|
  {
    if s != [] {
      ClusterEndAt(s, 1, 1);
      AllBreaksCountEach(s[1..]);
    }
  }

  /** A combining mark after a format control starts a cluster of its own
      (GB4), and an unassigned code point of a combining-mark block is no
      Extend (GB999). */
  lemma FormatControlsBreak()
    ensures IsBreak('\U{200B}', '\U{301}') && IsBreak('\U{FEFF}', '\U{301}')
    ensures IsBreak('\U{AD}', '\U{301}') && IsBreak('a', '\U{20F5}')
    ensures GraphemeCount("\U{200B}\U{301}") == 2
  {
    AllBreaksCountEach("\U{200B}\U{301}");
  }
}
