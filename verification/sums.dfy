/**
 * Sums over lists, association lists (the model of a JavaScript object used as
 * a dictionary, whose keys keep their insertion order) and duplicate removal.
 */
module Sums {
  import opened Sorting

  /** `s.reduce((sum, x) => sum + x, 0)`. */
  function Sum(s: seq<int>): int {
    if |s| == 0 then 0 else s[0] + Sum(s[1..])
  }

  /** The sum of `f` over the elements of `ks`. */
  function SumOf<K>(ks: seq<K>, f: K -> int): int {
    if |ks| == 0 then 0 else f(ks[0]) + SumOf(ks[1..], f)
  }

  predicate Distinct<K(==)>(ks: seq<K>) {
    forall i, j :: 0 <= i < j < |ks| ==> ks[i] != ks[j]
  }

  function Keys<K, V>(al: seq<(K, V)>): (r: seq<K>)
    ensures |r| == |al|
    ensures forall i :: 0 <= i < |al| ==> r[i] == al[i].0
  {
    seq(|al|, i requires 0 <= i < |al| => al[i].0)
  }

  lemma KeysCons<K, V>(al: seq<(K, V)>)
    requires |al| > 0
    ensures Keys(al) == [al[0].0] + Keys(al[1..])
  {
  }

  /** The value stored under `k`, 0 when absent (`obj[k] || 0`). */
  function Lookup<K(==)>(al: seq<(K, int)>, k: K): int {
    if |al| == 0 then 0 else if al[0].0 == k then al[0].1 else Lookup(al[1..], k)
  }

  function LookupFn<K(==)>(al: seq<(K, int)>): K -> int {
    k => Lookup(al, k)
  }

  function Indicator<K(==)>(k0: K, v: int): K -> int {
    k => if k == k0 then v else 0
  }

  /** The sum of the values of an association list. */
  function Total<K>(al: seq<(K, int)>): int {
    if |al| == 0 then 0 else al[0].1 + Total(al[1..])
  }

  /** The elements of `ks` in order of first occurrence, each once. */
  function Dedup<K(==)>(ks: seq<K>): (r: seq<K>)
    ensures Distinct(r)
    ensures forall i :: 0 <= i < |ks| ==> ks[i] in r
    ensures forall i :: 0 <= i < |r| ==> r[i] in ks
  {
    if |ks| == 0 then []
    else
      var r := Dedup(ks[..|ks| - 1]);
      assert forall i :: 0 <= i < |ks| - 1 ==> ks[i] == ks[..|ks| - 1][i];
      if ks[|ks| - 1] in r then r else r + [ks[|ks| - 1]]
  }

  /** Deduplicating a list that ends in `k`: `k` is appended unless it was seen. */
  lemma DedupSnoc<K>(init: seq<K>, k: K)
    ensures Dedup(init + [k]) == if k in Dedup(init) then Dedup(init) else Dedup(init) + [k]
  {
    assert (init + [k])[..|init|] == init;
  }

  // ---------------------------------------------------------------------------
  // Algebra of SumOf
  // ---------------------------------------------------------------------------

  lemma {:induction false} SumOfAdd<K>(ks: seq<K>, f: K -> int, g: K -> int, h: K -> int)
    requires forall k :: k in ks ==> h(k) == f(k) + g(k)
    ensures SumOf(ks, h) == SumOf(ks, f) + SumOf(ks, g)
  {
    if |ks| > 0 {
      SumOfAdd(ks[1..], f, g, h);
    }
  }

  lemma {:induction false} SumOfCongruent<K>(ks: seq<K>, f: K -> int, g: K -> int)
    requires forall k :: k in ks ==> f(k) == g(k)
    ensures SumOf(ks, f) == SumOf(ks, g)
  {
    if |ks| > 0 {
      SumOfCongruent(ks[1..], f, g);
    }
  }

  /** Summing a function that is `v` at one key and 0 elsewhere over a duplicate-free list. */
  lemma {:induction false} SumOfIndicator<K>(ks: seq<K>, k0: K, v: int)
    requires Distinct(ks)
    ensures SumOf(ks, Indicator(k0, v)) == if k0 in ks then v else 0
  {
    if |ks| > 0 {
      SumOfIndicator(ks[1..], k0, v);
      if ks[0] == k0 {
        assert k0 !in ks[1..] by {
          forall j | 0 <= j < |ks[1..]| ensures ks[1..][j] != k0 {
            assert ks[1..][j] == ks[j + 1];
          }
        }
      } else {
        assert k0 in ks <==> k0 in ks[1..] by {
          assert ks == [ks[0]] + ks[1..];
        }
      }
    }
  }

  lemma {:induction false} LookupAbsent<K>(al: seq<(K, int)>, k: K)
    requires k !in Keys(al)
    ensures Lookup(al, k) == 0
  {
    if |al| > 0 {
      assert Keys(al[1..]) == Keys(al)[1..];
      LookupAbsent(al[1..], k);
    }
  }

  /**
   * Looking every key of a duplicate-free list up in an association list with
   * distinct keys, all of which the list holds, adds up to the list's total.
   */
  lemma {:induction false} SumOfLookup<K>(ks: seq<K>, al: seq<(K, int)>)
    requires Distinct(ks)
    requires Distinct(Keys(al))
    requires forall k :: k in Keys(al) ==> k in ks
    ensures SumOf(ks, LookupFn(al)) == Total(al)
  {
    if |al| == 0 {
      SumOfZero(ks, LookupFn(al));
    } else {
      var k0, v0, rest := al[0].0, al[0].1, al[1..];
      assert Keys(rest) == Keys(al)[1..];
      assert k0 in ks by {
        assert k0 == Keys(al)[0];
      }
      assert k0 !in Keys(rest) by {
        forall j | 0 <= j < |Keys(rest)| ensures Keys(rest)[j] != k0 {
          assert Keys(rest)[j] == Keys(al)[j + 1];
        }
      }
      forall k | k in ks ensures LookupFn(al)(k) == LookupFn(rest)(k) + Indicator(k0, v0)(k) {
        if k == k0 {
          LookupAbsent(rest, k0);
        }
      }
      SumOfAdd(ks, LookupFn(rest), Indicator(k0, v0), LookupFn(al));
      SumOfLookup(ks, rest);
      SumOfIndicator(ks, k0, v0);
    }
  }

  /** Exchanging the order of a double sum. */
  lemma {:induction false} SumOfSwap<T, D>(ts: seq<T>, ds: seq<D>, F: (T, D) -> int)
    ensures SumOf(ts, RowSums(F, ds)) == SumOf(ds, ColSums(F, ts))
  {
    if |ts| == 0 {
      SumOfZero(ds, ColSums(F, ts));
    } else {
      SumOfSwap(ts[1..], ds, F);
      SumOfAdd(ds, Row(F, ts[0]), ColSums(F, ts[1..]), ColSums(F, ts));
    }
  }

  function Row<T, D>(F: (T, D) -> int, t: T): D -> int {
    d => F(t, d)
  }

  function Col<T, D>(F: (T, D) -> int, d: D): T -> int {
    t => F(t, d)
  }

  function RowSums<T, D>(F: (T, D) -> int, ds: seq<D>): T -> int {
    t => SumOf(ds, Row(F, t))
  }

  function ColSums<T, D>(F: (T, D) -> int, ts: seq<T>): D -> int {
    d => SumOf(ts, Col(F, d))
  }

  lemma {:induction false} SumOfZero<K>(ks: seq<K>, f: K -> int)
    requires forall k :: k in ks ==> f(k) == 0
    ensures SumOf(ks, f) == 0
  {
    if |ks| > 0 {
      SumOfZero(ks[1..], f);
    }
  }

  /** Summing the list `[f(k) for k in ks]` is summing `f` over `ks`. */
  lemma {:induction false} SumOfMapped<K>(ks: seq<K>, f: K -> int, s: seq<int>)
    requires |s| == |ks|
    requires forall i :: 0 <= i < |ks| ==> s[i] == f(ks[i])
    ensures Sum(s) == SumOf(ks, f)
  {
    if |ks| > 0 {
      SumOfMapped(ks[1..], f, s[1..]);
    }
  }

  /** Adding one element at the end. */
  lemma {:induction false} SumOfSnoc<K>(ks: seq<K>, x: K, f: K -> int)
    ensures SumOf(ks + [x], f) == SumOf(ks, f) + f(x)
  {
    if |ks| > 0 {
      assert (ks + [x])[1..] == ks[1..] + [x];
      SumOfSnoc(ks[1..], x, f);
    }
  }

  lemma {:induction false} SumOfInsert<K>(x: K, s: seq<K>, key: K -> int, f: K -> int)
    requires SortedBy(s, key)
    ensures SumOf(Insert(x, s, key), f) == f(x) + SumOf(s, f)
  {
    if |s| > 0 && key(x) > key(s[0]) {
      SumOfInsert(x, s[1..], key, f);
    }
  }

  /** Sorting does not change a sum. */
  lemma {:induction false} SumOfSortBy<K>(s: seq<K>, key: K -> int, f: K -> int)
    ensures SumOf(SortBy(s, key), f) == SumOf(s, f)
  {
    if |s| > 0 {
      SumOfSortBy(s[1..], key, f);
      SumOfInsert(s[0], SortBy(s[1..], key), key, f);
    }
  }
}
