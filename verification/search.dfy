/**
 * First-match search over a sequence. Both the synonym loop of a by-name
 * permission (a `for` loop that breaks on the first grant) and the route
 * table (`stream().filter(..).findFirst()`) stop at the first element that
 * satisfies a test; this module states that search once.
 */
module Search {
  import opened Wrappers

  /** The index of the first element of `s` that satisfies `p`, or None if no element does. */
  function FirstIndex<T>(s: seq<T>, p: T -> bool): (r: Option<nat>)
    ensures r.Some? ==> r.value < |s| && p(s[r.value])
    ensures r.Some? ==> forall j :: 0 <= j < r.value ==> !p(s[j])
    ensures r.None? <==> forall j :: 0 <= j < |s| ==> !p(s[j])
    decreases |s|
  {
    if s == [] then None
    else if p(s[0]) then Some(0)
    else match FirstIndex(s[1..], p)
      case Some(k) => Some(k + 1)
      case None => None
  }

  /**
   * The search looks no further than the first hit: two sequences that agree
   * up to and including the first element satisfying `p` give the same answer,
   * whatever follows it.
   */
  lemma FirstIndexIgnoresSuffix<T>(s: seq<T>, t: seq<T>, p: T -> bool, k: nat)
    requires k < |s| && k < |t| && s[..k + 1] == t[..k + 1]
    requires FirstIndex(s, p) == Some(k)
    ensures FirstIndex(t, p) == Some(k)
  {
    assert forall j :: 0 <= j <= k ==> s[j] == s[..k + 1][j] == t[..k + 1][j] == t[j];
  }
}
