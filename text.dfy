/** The two JavaScript string built-ins the renamer relies on:
    `toLowerCase` (used to compare paths case-insensitively) and
    `String.prototype.replace` with a string pattern (used to put the new
    file name into the displayed path). */
module Text {
  import opened Wrappers

  /** `toLowerCase` on one character; only ASCII letters are folded. */
  function LowerChar(c: char): char {
    if 'A' <= c <= 'Z' then (c as int + 32) as char else c
  }

  /** `s.toLowerCase()`, restricted to ASCII letters. */
  function Lower(s: string): (r: string)
    ensures |r| == |s|
    ensures forall i :: 0 <= i < |r| ==> !('A' <= r[i] <= 'Z')
    ensures forall i :: 0 <= i < |s| && 'A' <= s[i] <= 'Z' ==> r[i] as int == s[i] as int + 32
    ensures forall i :: 0 <= i < |s| && !('A' <= s[i] <= 'Z') ==> r[i] == s[i]
  {
    seq(|s|, i requires 0 <= i < |s| => LowerChar(s[i]))
  }

  /** `a.toLowerCase() === b.toLowerCase()`. */
  predicate EqualIgnoringCase(a: string, b: string) {
    Lower(a) == Lower(b)
  }

  /** `pat` occurs in `s` starting at index `k`. */
  predicate OccursAt(pat: string, s: string, k: int) {
    0 <= k && k + |pat| <= |s| && s[k..k + |pat|] == pat
  }

  /** `k` is where the leftmost occurrence of `pat` in `s` starts. */
  predicate IsFirstOccurrence(pat: string, s: string, k: int) {
    OccursAt(pat, s, k) && forall j :: 0 <= j < k ==> !OccursAt(pat, s, j)
  }

  /** `s.indexOf(pat, from)`, with `None` for -1. */
  function IndexFrom(pat: string, s: string, from: nat): (r: Option<nat>)
    ensures r.Some? ==> from <= r.value && OccursAt(pat, s, r.value)
    ensures r.Some? ==> forall j :: from <= j < r.value ==> !OccursAt(pat, s, j)
    ensures r.None? ==> forall j :: from <= j ==> !OccursAt(pat, s, j)
    decreases |s| - from
  {
    if from + |pat| > |s| then None
    else if s[from..from + |pat|] == pat then Some(from)
    else IndexFrom(pat, s, from + 1)
  }

  /** `s.indexOf(pat)`: the leftmost occurrence, if any. An empty `pat`
      occurs at 0, as in JavaScript. */
  function IndexOf(pat: string, s: string): (r: Option<nat>)
    ensures r.Some? <==> exists k :: OccursAt(pat, s, k)
    ensures r.Some? ==> IsFirstOccurrence(pat, s, r.value)
  {
    IndexFrom(pat, s, 0)
  }

  /** `s.replace(pat, rep)` with a string `pat`: only the leftmost
      occurrence is replaced, and `s` is returned unchanged when `pat`
      does not occur. `rep` is inserted literally. */
  function ReplaceFirst(s: string, pat: string, rep: string): (r: string)
    ensures forall k :: IsFirstOccurrence(pat, s, k) ==> r == s[..k] + rep + s[k + |pat|..]
    ensures (forall k :: !OccursAt(pat, s, k)) ==> r == s
  {
    match IndexOf(pat, s)
    case None => s
    case Some(k) => s[..k] + rep + s[k + |pat|..]
  }

  /** Lower-casing works character by character, so it distributes over
      concatenation. */
  lemma LowerAppend(a: string, b: string)
    ensures Lower(a + b) == Lower(a) + Lower(b)
  {
    forall i | 0 <= i < |a + b|
      ensures Lower(a + b)[i] == (Lower(a) + Lower(b))[i]
    {
      if i < |a| {
        assert (a + b)[i] == a[i];
      } else {
        assert (a + b)[i] == b[i - |a|];
      }
    }
  }

  /** Putting a text that equals the replaced one up to letter case into
      `s` leaves `s` unchanged up to letter case. */
  lemma ReplaceFirstKeepsCase(s: string, pat: string, rep: string)
    requires EqualIgnoringCase(pat, rep)
    ensures EqualIgnoringCase(s, ReplaceFirst(s, pat, rep))
  {
    match IndexOf(pat, s)
    case None =>
    case Some(k) =>
      assert s == s[..k] + pat + s[k + |pat|..] by {
        assert s[..k] + s[k..k + |pat|] == s[..k + |pat|];
      }
      LowerAppend(s[..k], pat);
      LowerAppend(s[..k] + pat, s[k + |pat|..]);
      LowerAppend(s[..k], rep);
      LowerAppend(s[..k] + rep, s[k + |pat|..]);
  }

  /** Replacing an occurrence by itself changes nothing. */
  lemma ReplaceFirstBySelf(s: string, pat: string)
    ensures ReplaceFirst(s, pat, pat) == s
  {
    match IndexOf(pat, s)
    case None =>
    case Some(k) =>
      calc {
        ReplaceFirst(s, pat, pat);
        s[..k] + s[k..k + |pat|] + s[k + |pat|..];
        { assert s[..k] + s[k..k + |pat|] == s[..k + |pat|]; }
        s[..k + |pat|] + s[k + |pat|..];
        s;
      }
  }

  /** Two strings are equal up to case exactly when they have the same
      length and agree at every position after folding that position. */
  lemma EqualIgnoringCasePointwise(a: string, b: string)
    ensures EqualIgnoringCase(a, b) <==>
      |a| == |b| && forall i :: 0 <= i < |a| ==> LowerChar(a[i]) == LowerChar(b[i])
  {
    if |a| == |b| && forall i :: 0 <= i < |a| ==> LowerChar(a[i]) == LowerChar(b[i]) {
      assert forall i :: 0 <= i < |a| ==> Lower(a)[i] == Lower(b)[i];
    }
    if EqualIgnoringCase(a, b) {
      assert |Lower(a)| == |a| && |Lower(b)| == |b|;
      forall i | 0 <= i < |a| ensures LowerChar(a[i]) == LowerChar(b[i]) {
        assert Lower(a)[i] == LowerChar(a[i]) && Lower(b)[i] == LowerChar(b[i]);
      }
    }
  }
}
