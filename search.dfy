/** First-match search over a sequence: the shape shared by the two hardware
    polls in the cycle-counter enable routine and by the attribute dispatcher. */
module Search {

  /** The index of the first element of `s` that satisfies `p`. */
  function First<T>(s: seq<T>, p: T -> bool): (k: nat)
    requires exists i :: 0 <= i < |s| && p(s[i])
    ensures k < |s| && p(s[k])
    ensures forall j :: 0 <= j < k ==> !p(s[j])
  {
    if p(s[0]) then 0
    else
      assert exists i :: 0 <= i < |s[1..]| && p(s[1..][i]) by {
        var i :| 0 <= i < |s| && p(s[i]);
        assert i > 0 && s[1..][i - 1] == s[i];
      }
      1 + First(s[1..], p)
  }

  /** Any index that satisfies `p` and has no earlier satisfying element is the one `First` picks. */
  lemma FirstIsUnique<T>(s: seq<T>, p: T -> bool, k: nat)
    requires k < |s| && p(s[k])
    requires forall j :: 0 <= j < k ==> !p(s[j])
    ensures First(s, p) == k
  {
  }
}
