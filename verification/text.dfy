/** String operations used by the extractor and the aggregator: newline
    replacement, Python's `str.strip()`, and `" ".join`. */
module Text {

  /** The characters for which Python's `str.isspace()` holds, which are the
      characters `str.strip()` with no argument removes. */
  predicate IsWhitespace(c: char) {
    || ('\t' <= c <= '\r')
    || ('\U{1C}' <= c <= '\U{1F}')
    || c == ' '
    || c == '\U{85}'
    || c == '\U{A0}'
    || c == '\U{1680}'
    || ('\U{2000}' <= c <= '\U{200A}')
    || c == '\U{2028}'
    || c == '\U{2029}'
    || c == '\U{202F}'
    || c == '\U{205F}'
    || c == '\U{3000}'
  }

  /** Python's `str.replace` of line feed by space: every line feed becomes
      one space, nothing else moves. */
  function ReplaceNewlines(s: string): (r: string)
    ensures |r| == |s|
    ensures forall i :: 0 <= i < |s| ==> r[i] == (if s[i] == '\n' then ' ' else s[i])
  {
    if s == [] then []
    else [if s[0] == '\n' then ' ' else s[0]] + ReplaceNewlines(s[1..])
  }

  /** The first position at or after `i` that does not hold whitespace, or
      `|s|`: where `s.strip()` starts keeping characters when `i` is 0. */
  function SkipWhitespace(s: string, i: nat): (k: nat)
    requires i <= |s|
    ensures i <= k <= |s|
    ensures forall n :: i <= n < k ==> IsWhitespace(s[n])
    ensures k < |s| ==> !IsWhitespace(s[k])
    decreases |s| - i
  {
    if i < |s| && IsWhitespace(s[i]) then SkipWhitespace(s, i + 1) else i
  }

  /** The position just after the last non-whitespace character in
      `s[lo..j]`, or `lo`: where `s.strip()` stops keeping characters. */
  function BackOverWhitespace(s: string, lo: nat, j: nat): (k: nat)
    requires lo <= j <= |s|
    ensures lo <= k <= j
    ensures forall n :: k <= n < j ==> IsWhitespace(s[n])
    ensures lo < k ==> !IsWhitespace(s[k - 1])
    decreases j
  {
    if lo < j && IsWhitespace(s[j - 1]) then BackOverWhitespace(s, lo, j - 1) else j
  }

  /** Start of the slice `s.strip()` keeps. */
  function StripStart(s: string): nat
  {
    SkipWhitespace(s, 0)
  }

  /** End of the slice `s.strip()` keeps. */
  function StripEnd(s: string): nat
  {
    BackOverWhitespace(s, StripStart(s), |s|)
  }

  /** `s.strip()`: leading whitespace is skipped first, then trailing
      whitespace is dropped from what is left. */
  function Strip(s: string): string
  {
    s[StripStart(s)..StripEnd(s)]
  }

  /** A string that `Normalize` produces: one line, no whitespace at either edge. */
  predicate IsNormalized(s: string) {
    && (forall i :: 0 <= i < |s| ==> s[i] != '\n')
    && (s == [] || (!IsWhitespace(s[0]) && !IsWhitespace(s[|s| - 1])))
  }

  /** The per-message normalisation: line feeds become spaces, then the
      edges are stripped. */
  function Normalize(s: string): string
  {
    Strip(ReplaceNewlines(s))
  }

  /** Strip keeps exactly the slice between a whitespace prefix and a
      whitespace suffix, and that slice neither starts nor ends with
      whitespace. */
  lemma StripIsMaximalTrim(s: string)
    ensures var k, j := StripStart(s), StripEnd(s);
      && k <= j <= |s|
      && Strip(s) == s[k..j]
      && (forall n :: 0 <= n < k ==> IsWhitespace(s[n]))
      && (forall n :: j <= n < |s| ==> IsWhitespace(s[n]))
      && (k < j ==> !IsWhitespace(s[k]) && !IsWhitespace(s[j - 1]))
  {
  }

  /** What Strip leaves neither starts nor ends with whitespace. */
  lemma StripLeavesNoEdgeWhitespace(s: string)
    ensures var r := Strip(s); r == [] || (!IsWhitespace(r[0]) && !IsWhitespace(r[|r| - 1]))
  {
    var k, j := StripStart(s), StripEnd(s);
    assert Strip(s) == [] || (Strip(s)[0] == s[k] && Strip(s)[j - k - 1] == s[j - 1]);
  }

  /** Strip returns the empty string exactly when the input is all whitespace. */
  lemma StripEmptyIffAllWhitespace(s: string)
    ensures Strip(s) == "" <==> forall i :: 0 <= i < |s| ==> IsWhitespace(s[i])
  {
  }

  /** Stripping a string with no whitespace at its edges changes nothing. */
  lemma StripKeepsTrimmed(s: string)
    requires s == [] || (!IsWhitespace(s[0]) && !IsWhitespace(s[|s| - 1]))
    ensures Strip(s) == s
  {
    assert StripStart(s) == 0;
  }

  /** Every normalised line is one line with no whitespace at its edges. */
  lemma NormalizeIsNormalized(s: string)
    ensures IsNormalized(Normalize(s))
  {
    var t := ReplaceNewlines(s);
    var r := Strip(t);
    forall i | 0 <= i < |r|
      ensures r[i] != '\n'
    {
      assert r[i] == t[StripStart(t) + i];
    }
    StripLeavesNoEdgeWhitespace(t);
  }

  /** Normalising an already-normalised line returns it unchanged. */
  lemma NormalizeFixesNormalized(s: string)
    requires IsNormalized(s)
    ensures Normalize(s) == s
  {
    assert ReplaceNewlines(s) == s;
    StripKeepsTrimmed(s);
  }

  /** Normalisation is idempotent. */
  lemma NormalizeIdempotent(s: string)
    ensures Normalize(Normalize(s)) == Normalize(s)
  {
    NormalizeIsNormalized(s);
    NormalizeFixesNormalized(Normalize(s));
  }

  /** Sum of the lengths of the strings in `parts`. */
  function TotalLength(parts: seq<string>): nat
  {
    if parts == [] then 0 else |parts[0]| + TotalLength(parts[1..])
  }

  /** Concatenation with no separator, `"".join(parts)`. */
  function Concat(parts: seq<string>): (r: string)
    ensures |r| == TotalLength(parts)
  {
    if parts == [] then "" else parts[0] + Concat(parts[1..])
  }

  /** `" ".join(parts)`: the parts in order, one space between neighbours. */
  function Join(parts: seq<string>): (r: string)
    ensures |r| == TotalLength(parts) + (if parts == [] then 0 else |parts| - 1)
  {
    if parts == [] then ""
    else if |parts| == 1 then parts[0]
    else parts[0] + " " + Join(parts[1..])
  }

  /** Offset of part `k` inside `Join(parts)`: the parts before it and one
      separator after each of them. */
  function JoinOffset(parts: seq<string>, k: nat): nat
    requires k <= |parts|
  {
    TotalLength(parts[..k]) + k
  }

  /** Part `k` sits verbatim at its offset in the joined string, and a single
      space follows it unless it is the last part. Together with the length
      of `Join` this fixes every character of the result. */
  lemma {:induction false} JoinPlacesParts(parts: seq<string>, k: nat)
    requires k < |parts|
    ensures JoinOffset(parts, k) + |parts[k]| <= |Join(parts)|
    ensures k + 1 < |parts| ==> JoinOffset(parts, k) + |parts[k]| < |Join(parts)|
    ensures Join(parts)[JoinOffset(parts, k)..JoinOffset(parts, k) + |parts[k]|] == parts[k]
    ensures k + 1 < |parts| ==> Join(parts)[JoinOffset(parts, k) + |parts[k]|] == ' '
  {
    if k == 0 {
      JoinStartsWithFirst(parts);
    } else {
      var tail := parts[1..];
      JoinPlacesParts(tail, k - 1);
      OffsetPastHead(parts, k);
      var head := parts[0] + " ";
      assert Join(parts) == head + Join(tail);
      assert tail[k - 1] == parts[k];
      ShiftPastPrefix(head, Join(tail), JoinOffset(tail, k - 1), JoinOffset(tail, k - 1) + |parts[k]|);
    }
  }

  /** The first part starts the joined string, followed by a space when
      more parts come. */
  lemma JoinStartsWithFirst(parts: seq<string>)
    requires parts != []
    ensures JoinOffset(parts, 0) == 0
    ensures |parts[0]| <= |Join(parts)|
    ensures Join(parts)[..|parts[0]|] == parts[0]
    ensures |parts| > 1 ==> |parts[0]| < |Join(parts)| && Join(parts)[|parts[0]|] == ' '
  {
    assert parts[..0] == [];
    if |parts| > 1 {
      assert Join(parts) == parts[0] + " " + Join(parts[1..]);
    }
  }

  /** Past the first part the offsets are those of the remaining parts,
      shifted by the first part and its separator. */
  lemma OffsetPastHead(parts: seq<string>, k: nat)
    requires 0 < k <= |parts|
    ensures JoinOffset(parts, k) == |parts[0]| + 1 + JoinOffset(parts[1..], k - 1)
  {
    assert parts[..k][1..] == parts[1..][..k - 1];
  }

  /** Slicing behind a prefix is slicing the rest. */
  lemma ShiftPastPrefix(x: string, y: string, i: nat, j: nat)
    requires i <= j <= |y|
    ensures (x + y)[|x| + i..|x| + j] == y[i..j]
    ensures j < |y| ==> (x + y)[|x| + j] == y[j]
  {
    assert forall m :: 0 <= m < j - i ==> (x + y)[|x| + i..|x| + j][m] == y[i..j][m];
  }

  /** Every part sits verbatim at its offset in the joined string. */
  lemma JoinLayout(parts: seq<string>)
    ensures forall k :: 0 <= k < |parts| ==>
      JoinOffset(parts, k) + |parts[k]| <= |Join(parts)|
      && Join(parts)[JoinOffset(parts, k)..JoinOffset(parts, k) + |parts[k]|] == parts[k]
  {
    forall k | 0 <= k < |parts|
      ensures JoinOffset(parts, k) + |parts[k]| <= |Join(parts)|
      ensures Join(parts)[JoinOffset(parts, k)..JoinOffset(parts, k) + |parts[k]|] == parts[k]
    {
      JoinPlacesParts(parts, k);
    }
  }

  /** Appending one more part adds one separator and that part at the end. */
  lemma {:induction false} JoinSnoc(parts: seq<string>, p: string)
    requires parts != []
    ensures Join(parts + [p]) == Join(parts) + " " + p
  {
    if |parts| == 1 {
      assert parts + [p] == [parts[0], p];
    } else {
      assert (parts + [p])[1..] == parts[1..] + [p];
      JoinSnoc(parts[1..], p);
    }
  }

  /** An empty part between two others leaves two adjacent spaces. */
  lemma JoinKeepsEmptyPart(a: string, b: string)
    ensures Join([a, "", b]) == a + "  " + b
  {
    assert [a, "", b][1..] == ["", b];
    assert ["", b][1..] == [b];
    assert Join(["", b]) == " " + b;
  }

  /** Joining one-line parts with spaces gives one line. */
  lemma {:induction false} JoinKeepsSingleLine(parts: seq<string>)
    requires forall k :: 0 <= k < |parts| ==> '\n' !in parts[k]
    ensures '\n' !in Join(parts)
  {
    if |parts| > 1 {
      JoinKeepsSingleLine(parts[1..]);
    }
  }
}
