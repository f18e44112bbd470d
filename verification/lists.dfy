/** `Array.prototype.filter`. */
module Lists {

  /** The elements of `s` that `keep` accepts, in their original order. */
  function Filter<T>(s: seq<T>, keep: T -> bool): (r: seq<T>)
    ensures |r| <= |s|
    ensures forall i :: 0 <= i < |r| ==> keep(r[i]) && r[i] in s
    ensures forall i :: 0 <= i < |s| && keep(s[i]) ==> s[i] in r
  {
    if |s| == 0 then []
    else
      assert s == [s[0]] + s[1..];
      if keep(s[0]) then [s[0]] + Filter(s[1..], keep) else Filter(s[1..], keep)
  }

  /** Filtering never adds an element nor repeats one more often than the list does. */
  lemma {:induction false} FilterMultiset<T>(s: seq<T>, keep: T -> bool)
    ensures multiset(Filter(s, keep)) <= multiset(s)
  {
    if |s| > 0 {
      FilterMultiset(s[1..], keep);
      assert s == [s[0]] + s[1..];
    }
  }

  /** Filtering with two tests that agree on the list gives the same result. */
  lemma {:induction false} FilterCongruent<T>(s: seq<T>, keep1: T -> bool, keep2: T -> bool)
    requires forall i :: 0 <= i < |s| ==> keep1(s[i]) == keep2(s[i])
    ensures Filter(s, keep1) == Filter(s, keep2)
  {
    if |s| > 0 {
      FilterCongruent(s[1..], keep1, keep2);
    }
  }

  /** Filtering a list with one more element at the end. */
  lemma {:induction false} FilterSnoc<T>(s: seq<T>, x: T, keep: T -> bool)
    ensures Filter(s + [x], keep) == Filter(s, keep) + (if keep(x) then [x] else [])
  {
    if |s| == 0 {
      assert s + [x] == [x];
    } else {
      assert (s + [x])[1..] == s[1..] + [x];
      FilterSnoc(s[1..], x, keep);
    }
  }

  /** `FilterSnoc` for a non-empty list, split before its last element. */
  lemma {:induction false} FilterLast<T>(s: seq<T>, keep: T -> bool)
    requires |s| > 0
    ensures var n := |s| - 1;
      Filter(s, keep) == Filter(s[..n], keep) + (if keep(s[n]) then [s[n]] else [])
  {
    var n := |s| - 1;
    if n > 0 {
      var tail := s[1..];
      FilterLast(tail, keep);
      assert tail[..n - 1] == s[..n][1..];
      assert tail[n - 1] == s[n];
      assert s[..n][0] == s[0];
    }
  }

  /** An element of the list survives the filter exactly when the test accepts it. */
  lemma FilterMember<T>(s: seq<T>, keep: T -> bool, x: T)
    requires x in s
    ensures x in Filter(s, keep) <==> keep(x)
  {
    var i :| 0 <= i < |s| && s[i] == x;
    var r := Filter(s, keep);
    if x in r {
      var j :| 0 <= j < |r| && r[j] == x;
    }
  }
}
