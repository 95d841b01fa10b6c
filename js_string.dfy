/**
 * The JavaScript string built-ins the modelled code calls: `trim`,
 * `slice(0, n)`, `includes` and `startsWith`. A string is a sequence of
 * characters; JavaScript counts UTF-16 code units, this model counts `char`s.
 */
module JsString {

  /**
   * The characters `String.prototype.trim` removes: the ECMAScript WhiteSpace
   * and LineTerminator code points.
   */
  const WhitespaceChars: set<char> := {
    '\t', '\n', '\U{B}', '\U{C}', '\r', ' ', '\U{A0}', '\U{1680}',
    '\U{2000}', '\U{2001}', '\U{2002}', '\U{2003}', '\U{2004}', '\U{2005}',
    '\U{2006}', '\U{2007}', '\U{2008}', '\U{2009}', '\U{200A}',
    '\U{2028}', '\U{2029}', '\U{202F}', '\U{205F}', '\U{3000}', '\U{FEFF}'
  }

  predicate IsWhitespace(c: char) {
    c in WhitespaceChars
  }

  /** Every character of `s` at an index in `lo..hi` is whitespace. */
  ghost predicate WhitespaceIn(s: string, lo: int, hi: int) {
    forall k :: lo <= k < hi && 0 <= k < |s| ==> IsWhitespace(s[k])
  }

  /** The first index at or after `i` that does not hold whitespace (or `|s|`). */
  function SkipForward(s: string, i: nat): (a: nat)
    requires i <= |s|
    ensures i <= a <= |s|
    ensures WhitespaceIn(s, i, a)
    ensures a < |s| ==> !IsWhitespace(s[a])
    decreases |s| - i
  {
    if i < |s| && IsWhitespace(s[i]) then SkipForward(s, i + 1) else i
  }

  /** The index just past the last non-whitespace character in `lo..j` (or `lo`). */
  function SkipBackward(s: string, lo: nat, j: nat): (b: nat)
    requires lo <= j <= |s|
    ensures lo <= b <= j
    ensures WhitespaceIn(s, b, j)
    ensures b > lo ==> !IsWhitespace(s[b - 1])
    decreases j
  {
    if lo < j && IsWhitespace(s[j - 1]) then SkipBackward(s, lo, j - 1) else j
  }

  /**
   * `s.trim()`: the result is a middle part `s[i..j]` of `s`; what is cut
   * off on either side is whitespace, and the result neither starts nor ends
   * with whitespace.
   */
  function Trim(s: string): (r: string)
    ensures |r| <= |s|
    ensures var i := SkipForward(s, 0);
      && i + |r| <= |s| && r == s[i..i + |r|]
      && WhitespaceIn(s, 0, i) && WhitespaceIn(s, i + |r|, |s|)
    ensures r == [] || (!IsWhitespace(r[0]) && !IsWhitespace(r[|r| - 1]))
  {
    var i := SkipForward(s, 0);
    var j := SkipBackward(s, i, |s|);
    s[i..j]
  }

  /**
   * The trimmed string is fully determined by its defining properties: for
   * any cut of `s` into whitespace, a middle part that neither starts nor
   * ends with whitespace, and whitespace, that middle part is `Trim(s)`.
   */
  lemma TrimCharacterised(s: string, i: nat, j: nat)
    requires i <= j <= |s|
    requires WhitespaceIn(s, 0, i) && WhitespaceIn(s, j, |s|)
    requires i < j ==> !IsWhitespace(s[i]) && !IsWhitespace(s[j - 1])
    ensures Trim(s) == s[i..j]
  {
  }

  /** Trimming twice is trimming once. */
  lemma TrimIdempotent(s: string)
    ensures Trim(Trim(s)) == Trim(s)
  {
    var r := Trim(s);
    TrimCharacterised(r, 0, |r|);
    assert r[0..|r|] == r;
  }

  /** `s.slice(0, n)` for a non-negative `n`. */
  function SlicePrefix(s: string, n: nat): (r: string)
    ensures |r| == if n < |s| then n else |s|
    ensures r <= s
  {
    if n < |s| then s[..n] else s
  }

  /** `s.startsWith(p)` */
  predicate StartsWith(s: string, p: string)
    ensures StartsWith(s, p) <==> |p| <= |s| && s[..|p|] == p
  {
    p <= s
  }

  /** `sub` occurs in `s` starting at index `i`. */
  predicate OccursAt(s: string, sub: string, i: nat) {
    i + |sub| <= |s| && s[i..i + |sub|] == sub
  }

  /** `s.includes(sub)`, scanning left to right. */
  predicate Includes(s: string, sub: string)
    ensures Includes(s, sub) ==> |sub| <= |s|
    ensures sub <= s ==> Includes(s, sub)
    decreases |s|
  {
    if sub <= s then true
    else if s == [] then false
    else Includes(s[1..], sub)
  }

  /** An occurrence past the first index is an occurrence in the tail, shifted by one. */
  lemma OccursInTail(s: string, sub: string, i: nat)
    requires s != [] && i > 0
    ensures OccursAt(s, sub, i) <==> OccursAt(s[1..], sub, i - 1)
  {
    if i + |sub| <= |s| {
      assert s[i..i + |sub|] == s[1..][i - 1..i - 1 + |sub|];
    }
  }

  /** The scan finds `sub` exactly when `sub` occurs somewhere in `s`. */
  lemma {:induction false} IncludesIff(s: string, sub: string)
    ensures Includes(s, sub) <==> exists i: nat :: OccursAt(s, sub, i)
    decreases |s|
  {
    if sub <= s {
      assert OccursAt(s, sub, 0);
    } else if s == [] {
      assert forall i: nat :: !OccursAt(s, sub, i);
    } else {
      IncludesIff(s[1..], sub);
      assert !OccursAt(s, sub, 0);
      forall i: nat | i > 0
        ensures OccursAt(s, sub, i) <==> OccursAt(s[1..], sub, i - 1)
      {
        OccursInTail(s, sub, i);
      }
      if Includes(s, sub) {
        var i: nat :| OccursAt(s[1..], sub, i);
        assert OccursAt(s, sub, i + 1);
      }
    }
  }

  /** A string includes itself, and never a longer string. */
  lemma IncludesSelfAndLonger(s: string, sub: string)
    ensures Includes(s, s)
    ensures |sub| > |s| ==> !Includes(s, sub)
  {
    IncludesIff(s, sub);
    if |sub| > |s| {
      assert forall i: nat :: !OccursAt(s, sub, i);
    }
  }
}
