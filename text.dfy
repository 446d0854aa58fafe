/**
 * The two JavaScript string operations the leaderboard relies on:
 * String.prototype.trim and String.prototype.toLowerCase.
 */
module Text {

  /**
   * The characters trim removes: the ECMAScript WhiteSpace and
   * LineTerminator code points, including the space separators (Zs).
   */
  predicate IsSpace(c: char)
  {
    || ('\t' <= c <= '\r')                 // tab, line feed, vertical tab, form feed, carriage return
    || c == ' ' || c == '\U{A0}' || c == '\U{1680}'
    || ('\U{2000}' <= c <= '\U{200A}')
    || c == '\U{2028}' || c == '\U{2029}' || c == '\U{202F}' || c == '\U{205F}'
    || c == '\U{3000}' || c == '\U{FEFF}'
  }

  predicate AllSpace(s: string)
  {
    forall k :: 0 <= k < |s| ==> IsSpace(s[k])
  }

  /** Every character of s at an index in [lo, hi) is white space. */
  predicate SpaceBetween(s: string, lo: int, hi: int)
  {
    forall k :: lo <= k < hi && 0 <= k < |s| ==> IsSpace(s[k])
  }

  /** The first index at or after i that does not hold white space (or |s|). */
  function SkipForward(s: string, i: nat): (n: nat)
    requires i <= |s|
    ensures i <= n <= |s|
    ensures SpaceBetween(s, i, n)
    ensures n < |s| ==> !IsSpace(s[n])
    decreases |s| - i
  {
    if i < |s| && IsSpace(s[i]) then SkipForward(s, i + 1) else i
  }

  /** Scanning back from j, no further than lo: where the trailing white space begins. */
  function SkipBackward(s: string, lo: nat, j: nat): (m: nat)
    requires lo <= j <= |s|
    ensures lo <= m <= j
    ensures SpaceBetween(s, m, j)
    ensures lo < m ==> !IsSpace(s[m - 1])
    decreases j - lo
  {
    if lo < j && IsSpace(s[j - 1]) then SkipBackward(s, lo, j - 1) else j
  }

  /** Where Trim's result starts in s. */
  function TrimStart(s: string): nat
  {
    SkipForward(s, 0)
  }

  /** Where Trim's result ends in s. */
  function TrimEnd(s: string): nat
  {
    SkipBackward(s, TrimStart(s), |s|)
  }

  /**
   * String.prototype.trim: the contiguous middle of s left after removing
   * white space at both ends; everything cut off is white space, and the
   * result neither starts nor ends with white space.
   */
  function Trim(s: string): (r: string)
    ensures TrimStart(s) <= TrimEnd(s) <= |s| && r == s[TrimStart(s)..TrimEnd(s)]
    ensures SpaceBetween(s, 0, TrimStart(s)) && SpaceBetween(s, TrimEnd(s), |s|)
    ensures r == [] || (!IsSpace(r[0]) && !IsSpace(r[|r| - 1]))
  {
    var i := TrimStart(s);
    var j := TrimEnd(s);
    assert i < |s| ==> i < j;
    s[i..j]
  }

  /** A string is empty after trimming exactly when it is all white space. */
  lemma TrimEmptyIffAllSpace(s: string)
    ensures Trim(s) == [] <==> AllSpace(s)
  {
    if Trim(s) != [] {
      assert s[TrimStart(s)] == Trim(s)[0];
    }
  }

  /** Trimming twice is trimming once. */
  lemma TrimIdempotent(s: string)
    ensures Trim(Trim(s)) == Trim(s)
  {
    var r := Trim(s);
    assert TrimStart(r) == 0;
    assert TrimEnd(r) == |r|;
  }

  /** toLowerCase on one character; only the ASCII letters A..Z are mapped. */
  function LowerChar(c: char): char
  {
    if 'A' <= c <= 'Z' then (c as int + 32) as char else c
  }

  /** String.prototype.toLowerCase, restricted to ASCII letters. */
  function Lower(s: string): (r: string)
    ensures |r| == |s|
  {
    seq(|s|, k requires 0 <= k < |s| => LowerChar(s[k]))
  }

  /** Lower-casing twice is lower-casing once. */
  lemma LowerIdempotent(s: string)
    ensures Lower(Lower(s)) == Lower(s)
  {
  }

  /** Lower-casing never turns white space into something else or back. */
  lemma LowerCharKeepsSpace(c: char)
    ensures IsSpace(LowerChar(c)) == IsSpace(c)
  {
  }

  lemma {:induction false} SkipForwardLower(s: string, i: nat)
    requires i <= |s|
    ensures SkipForward(Lower(s), i) == SkipForward(s, i)
    decreases |s| - i
  {
    if i < |s| {
      LowerCharKeepsSpace(s[i]);
      SkipForwardLower(s, i + 1);
    }
  }

  lemma {:induction false} SkipBackwardLower(s: string, lo: nat, j: nat)
    requires lo <= j <= |s|
    ensures SkipBackward(Lower(s), lo, j) == SkipBackward(s, lo, j)
    decreases j - lo
  {
    if lo < j {
      LowerCharKeepsSpace(s[j - 1]);
      SkipBackwardLower(s, lo, j - 1);
    }
  }

  /** Lower-casing a slice is slicing the lower-cased string. */
  lemma LowerSlice(s: string, i: nat, j: nat)
    requires i <= j <= |s|
    ensures Lower(s[i..j]) == Lower(s)[i..j]
  {
    var a, b := Lower(s[i..j]), Lower(s)[i..j];
    assert |a| == |b|;
    forall k | 0 <= k < |a| ensures a[k] == b[k] {
      assert s[i..j][k] == s[i + k];
    }
  }

  /** Trimming and lower-casing commute: lower-casing moves no trim boundary. */
  lemma LowerTrimCommute(s: string)
    ensures Lower(Trim(s)) == Trim(Lower(s))
  {
    SkipForwardLower(s, 0);
    SkipBackwardLower(s, TrimStart(s), |s|);
    LowerSlice(s, TrimStart(s), TrimEnd(s));
  }
}
