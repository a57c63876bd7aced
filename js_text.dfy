/**
 * The two pieces of JavaScript string semantics the containers rely on:
 * truthiness of an optional string, and `String.prototype.replace` called
 * with a string pattern, which replaces only the FIRST occurrence of the
 * pattern, wherever in the string it is.
 */
module JsText {
  import opened Wrappers

  /** `!!s` for a string that may be undefined: defined and non-empty. */
  predicate IsTruthy(s: Option<string>) {
    s.Some? && s.value != ""
  }

  /** `pat` occurs in `s` starting at index `j`. */
  predicate OccursAt(s: string, pat: string, j: int) {
    0 <= j && j + |pat| <= |s| && s[j..j + |pat|] == pat
  }

  /** Occurrences in `s` from index 1 on are the occurrences in `s[1..]`, shifted by one. */
  lemma ShiftOccurrences(s: string, pat: string)
    requires |s| > 0
    ensures forall j :: 1 <= j ==> (OccursAt(s, pat, j) <==> OccursAt(s[1..], pat, j - 1))
  {
    forall j | 1 <= j
      ensures OccursAt(s, pat, j) <==> OccursAt(s[1..], pat, j - 1)
    {
      if j + |pat| <= |s| {
        assert s[1..][j - 1..j - 1 + |pat|] == s[j..j + |pat|];
      }
    }
  }

  /** The index of the first occurrence of `pat` in `s`, as `indexOf` finds it. */
  function FirstIndexOf(s: string, pat: string): (r: Option<nat>)
    ensures r.Some? ==> OccursAt(s, pat, r.value)
    ensures r.Some? ==> forall j :: 0 <= j < r.value ==> !OccursAt(s, pat, j)
    ensures r.None? ==> forall j :: !OccursAt(s, pat, j)
    decreases |s|
  {
    if |pat| > |s| then None
    else if s[..|pat|] == pat then Some(0)
    else
      ShiftOccurrences(s, pat);
      match FirstIndexOf(s[1..], pat)
      case None => None
      case Some(i) => Some(i + 1)
  }

  /**
   * `s.replace(pat, rep)` for a replacement containing no `$` (JavaScript expands `$&`, `$$` and the like): the
   * first occurrence of `pat` is replaced by `rep`; no occurrence leaves `s` as it is. The containers pass `""`.
   */
  function ReplaceFirst(s: string, pat: string, rep: string): (r: string)
    ensures (forall j :: !OccursAt(s, pat, j)) ==> r == s
    ensures forall i {:trigger OccursAt(s, pat, i)} ::
      OccursAt(s, pat, i) && (forall j :: 0 <= j < i ==> !OccursAt(s, pat, j)) ==>
      r == s[..i] + rep + s[i + |pat|..]
  {
    match FirstIndexOf(s, pat)
    case None => s
    case Some(i) => s[..i] + rep + s[i + |pat|..]
  }

  /** Removing a pattern from a string that starts with it gives back the rest, whatever the rest contains. */
  lemma ReplaceLeadingOccurrence(pat: string, rest: string)
    ensures ReplaceFirst(pat + rest, pat, "") == rest
  {
    var s := pat + rest;
    assert s[0..|pat|] == pat;
    assert OccursAt(s, pat, 0);
    assert s[|pat|..] == rest;
  }

  /** The occurrence removed need not be at the start: the first one anywhere goes. */
  lemma ReplaceInnerOccurrence()
    ensures ReplaceFirst("xhttps://t.me/y", "https://t.me/", "") == "xy"
  {
    var pat := "https://t.me/";
    var s := "x" + pat + "y";
    assert s == "xhttps://t.me/y";
    assert !OccursAt(s, pat, 0) by { assert s[0] != pat[0]; }
    assert s[1..1 + |pat|] == pat;
    assert OccursAt(s, pat, 1);
    assert s[..1] == "x" && s[1 + |pat|..] == "y";
  }
}
