/**
 * The lower/upper-bound search every query is built on: given a sequence
 * on which a predicate holds for a prefix and fails for the rest, find
 * where the prefix ends.
 */
module Search {

  /** `p` holds on a prefix of `s` and fails on the remaining suffix. */
  ghost predicate Partitioned<T>(s: seq<T>, p: T -> bool)
  {
    forall i, j :: 0 <= i < j < |s| && p(s[j]) ==> p(s[i])
  }

  /** The length of the prefix of `s` on which `p` holds. */
  function PartitionPoint<T>(s: seq<T>, p: T -> bool): (k: nat)
    requires Partitioned(s, p)
    ensures k <= |s|
    ensures forall i :: 0 <= i < k ==> p(s[i])
    ensures forall i :: k <= i < |s| ==> !p(s[i])
  {
    Bisect(s, p, 0, |s|)
  }

  /** Binary search for the partition point, known to lie in [lo, hi]. */
  function Bisect<T>(s: seq<T>, p: T -> bool, lo: nat, hi: nat): (k: nat)
    requires Partitioned(s, p)
    requires lo <= hi <= |s|
    requires forall i :: 0 <= i < lo ==> p(s[i])
    requires forall i :: hi <= i < |s| ==> !p(s[i])
    ensures lo <= k <= hi
    ensures forall i :: 0 <= i < k ==> p(s[i])
    ensures forall i :: k <= i < |s| ==> !p(s[i])
    decreases hi - lo
  {
    if lo == hi then lo
    else
      var mid := lo + (hi - lo) / 2;
      if p(s[mid]) then Bisect(s, p, mid + 1, hi) else Bisect(s, p, lo, mid)
  }

  /** The partition point is the only index that splits `s` this way. */
  lemma PartitionPointUnique<T>(s: seq<T>, p: T -> bool, k: nat)
    requires Partitioned(s, p)
    requires k <= |s|
    requires forall i :: 0 <= i < k ==> p(s[i])
    requires forall i :: k <= i < |s| ==> !p(s[i])
    ensures PartitionPoint(s, p) == k
  {
    var r := PartitionPoint(s, p);
    var m := if r < k then r else k;
    if m < |s| {
      assert p(s[m]) <==> m < k;
    }
  }
}
