/**
 * The left-to-right substitution loop of Python's `re.sub`.
 *
 * A regular expression is modelled as a `Matcher`: given the whole subject
 * string and a start position, it says whether the expression matches there,
 * where that match ends and what replaces it. `Sub` then does what `re.sub`
 * does: scanning from the left, a match is replaced and scanning resumes at
 * its end; elsewhere the character is kept. All matchers of this model are
 * non-empty, so the zero-length-match rules of `re.sub` never arise.
 */
module Scan {
  import opened Base
  import opened Text

  datatype Hit = Hit(end: nat, replacement: string)

  type Matcher = (string, nat) -> Option<Hit>

  function Sub(s: string, m: Matcher, i: nat): string
    decreases |s| - i
  {
    if i >= |s| then ""
    else
      match m(s, i)
      case Some(h) =>
        if h.end > i then h.replacement + Sub(s, m, h.end) else [s[i]] + Sub(s, m, i + 1)
      case None => [s[i]] + Sub(s, m, i + 1)
  }

  /** When nothing matches anywhere, substitution is the identity. */
  lemma {:induction false} SubNoMatch(s: string, m: Matcher, i: nat)
    requires i <= |s|
    requires forall j :: i <= j < |s| ==> m(s, j).None?
    ensures Sub(s, m, i) == s[i..]
    decreases |s| - i
  {
    if i < |s| {
      SubNoMatch(s, m, i + 1);
    }
  }

  /** First index at or after `j` that is not whitespace, or |s|. */
  function SpaceRunEnd(s: string, j: nat): (e: nat)
    ensures e == j || (j <= e <= |s|)
    ensures j <= |s| ==> j <= e <= |s|
    ensures forall k :: j <= k < e ==> IsSpace(s[k])
    ensures e < |s| ==> !IsSpace(s[e])
    decreases |s| - j
  {
    if j >= |s| then j
    else if IsSpace(s[j]) then SpaceRunEnd(s, j + 1)
    else j
  }

  /** First index at or after `j` whose character fails `p`, or |s|. */
  function RunEnd(s: string, j: nat, p: char -> bool): (e: nat)
    ensures e == j || (j <= e <= |s|)
    ensures j <= |s| ==> j <= e <= |s|
    ensures forall k :: j <= k < e ==> p(s[k])
    ensures e < |s| ==> !p(s[e])
    decreases |s| - j
  {
    if j >= |s| then j
    else if p(s[j]) then RunEnd(s, j + 1, p)
    else j
  }

  /** Smallest k >= j at which `sub` occurs, if any. */
  function FirstOccurrence(s: string, sub: string, j: nat): (r: Option<nat>)
    ensures r.Some? ==> j <= r.value && OccursAt(s, sub, r.value)
    ensures r.Some? ==> forall k :: j <= k < r.value ==> !OccursAt(s, sub, k)
    ensures r.None? ==> forall k :: j <= k ==> !OccursAt(s, sub, k)
    decreases |s| - j
  {
    if j + |sub| > |s| then None
    else if OccursAt(s, sub, j) then Some(j)
    else FirstOccurrence(s, sub, j + 1)
  }

  /** Case-insensitive (ASCII) occurrence, as an IGNORECASE pattern literal matches. */
  predicate OccursAtFold(s: string, lowerSub: string, i: int) {
    0 <= i && i + |lowerSub| <= |s| && Lower(s[i..i + |lowerSub|]) == lowerSub
  }
}
