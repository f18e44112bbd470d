/**
 * A sort by an integer key, standing for `Array.prototype.sort` with a
 * numeric comparator. Only the order of the keys is stated; the order of
 * elements with equal keys is not.
 */
module Sorting {

  predicate SortedBy<T>(s: seq<T>, key: T -> int) {
    forall i, j :: 0 <= i < j < |s| ==> key(s[i]) <= key(s[j])
  }

  /** Puts `x` in front of the first element whose key is not smaller than its own. */
  function Insert<T>(x: T, s: seq<T>, key: T -> int): (r: seq<T>)
    requires SortedBy(s, key)
    ensures SortedBy(r, key)
    ensures multiset(r) == multiset(s) + multiset{x}
    ensures |r| == |s| + 1
    ensures r[0] == x || (|s| > 0 && r[0] == s[0])
  {
    if |s| == 0 || key(x) <= key(s[0]) then [x] + s
    else
      assert s == [s[0]] + s[1..];
      [s[0]] + Insert(x, s[1..], key)
  }

  /** Insertion sort: a reordering of `s` by ascending key. */
  function SortBy<T>(s: seq<T>, key: T -> int): (r: seq<T>)
    ensures SortedBy(r, key)
    ensures multiset(r) == multiset(s)
    ensures |r| == |s|
  {
    if |s| == 0 then []
    else
      assert s == [s[0]] + s[1..];
      Insert(s[0], SortBy(s[1..], key), key)
  }

  /** In a sorted list, nothing after the first `k` elements has a smaller key than any of them. */
  lemma PrefixOfSorted<T>(sorted: seq<T>, key: T -> int, k: nat)
    requires SortedBy(sorted, key) && k <= |sorted|
    ensures forall w, i :: w in multiset(sorted) - multiset(sorted[..k]) && 0 <= i < k ==>
      key(sorted[i]) <= key(w)
  {
    assert sorted == sorted[..k] + sorted[k..];
    assert multiset(sorted) - multiset(sorted[..k]) == multiset(sorted[k..]);
    forall w, i | w in multiset(sorted[k..]) && 0 <= i < k
      ensures key(sorted[i]) <= key(w)
    {
      var j :| 0 <= j < |sorted[k..]| && sorted[k..][j] == w;
      assert sorted[k + j] == w;
    }
  }
}
