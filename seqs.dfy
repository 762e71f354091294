/**
 * List operations the aggregation functions are built from: `filter`, `reduce` to a sum,
 * a sum per key, the set of present values (`new Set(...)`) and the distinct keys of a list
 * in the order they are first seen (the key order of a JavaScript object that is filled in place).
 * Every function here is defined from the END of the list, so that a loop that has handled
 * the prefix `s[..i]` extends the definition by one element.
 */
module Seqs {
  import opened Wrappers

  /** The elements of `s` that satisfy `p`, in their original order. */
  function Filter<T>(s: seq<T>, p: T -> bool): (r: seq<T>)
    ensures |r| <= |s|
  {
    if |s| == 0 then [] else Filter(s[..|s| - 1], p) + (if p(s[|s| - 1]) then [s[|s| - 1]] else [])
  }

  lemma FilterSnoc<T>(s: seq<T>, x: T, p: T -> bool)
    ensures Filter(s + [x], p) == Filter(s, p) + (if p(x) then [x] else [])
  {
    assert (s + [x])[..|s|] == s;
  }

  /** Filtering one more element of a list's prefix keeps it or drops it. */
  lemma FilterPrefixSnoc<T>(s: seq<T>, i: nat, p: T -> bool)
    requires i < |s|
    ensures p(s[i]) ==> Filter(s[..i + 1], p) == Filter(s[..i], p) + [s[i]]
    ensures !p(s[i]) ==> Filter(s[..i + 1], p) == Filter(s[..i], p)
  {
    assert s[..i + 1] == s[..i] + [s[i]];
    FilterSnoc(s[..i], s[i], p);
  }

  /** The positions of `s` whose element satisfies `p`. */
  function IndicesWhere<T>(s: seq<T>, p: T -> bool): set<int>
  {
    set i | 0 <= i < |s| && p(s[i])
  }

  /** The kept elements are as many as the positions whose element satisfies the predicate. */
  lemma {:induction false} FilterCountsIndices<T>(s: seq<T>, p: T -> bool)
    ensures |Filter(s, p)| == |IndicesWhere(s, p)|
  {
    if |s| > 0 {
      var n := |s| - 1;
      var s' := s[..n];
      FilterCountsIndices(s', p);
      assert forall i :: 0 <= i < n ==> s'[i] == s[i];
      if p(s[n]) {
        assert IndicesWhere(s, p) == IndicesWhere(s', p) + {n};
        assert n !in IndicesWhere(s', p);
      } else {
        assert IndicesWhere(s, p) == IndicesWhere(s', p);
      }
    }
  }

  /** An element is kept exactly when it is in the input and satisfies the predicate. */
  lemma {:induction false} FilterMembers<T>(s: seq<T>, p: T -> bool, x: T)
    ensures x in Filter(s, p) <==> x in s && p(x)
  {
    if |s| > 0 {
      FilterMembers(s[..|s| - 1], p, x);
      assert s == s[..|s| - 1] + [s[|s| - 1]];
    }
  }

  /** `r` is obtained from `s` by deleting elements (matched greedily from the end). */
  predicate IsSubsequence<T(==)>(r: seq<T>, s: seq<T>)
    decreases |s|
  {
    if |r| == 0 then true
    else if |s| == 0 then false
    else if r[|r| - 1] == s[|s| - 1] then IsSubsequence(r[..|r| - 1], s[..|s| - 1])
    else IsSubsequence(r, s[..|s| - 1])
  }

  lemma {:induction false} SubsequenceSnoc<T>(r: seq<T>, s: seq<T>, x: T)
    requires IsSubsequence(r, s)
    requires x !in r
    ensures IsSubsequence(r, s + [x])
  {
    assert (s + [x])[..|s|] == s;
    if |r| > 0 {
      assert r[|r| - 1] in r;
    }
  }

  /** Filtering keeps the input order: the result is a subsequence of the input. */
  lemma {:induction false} FilterIsSubsequence<T>(s: seq<T>, p: T -> bool)
    ensures IsSubsequence(Filter(s, p), s)
  {
    if |s| > 0 {
      var s', x := s[..|s| - 1], s[|s| - 1];
      assert s == s' + [x];
      FilterIsSubsequence(s', p);
      if p(x) {
        var r := Filter(s, p);
        assert r == Filter(s', p) + [x];
        assert r[..|r| - 1] == Filter(s', p);
      } else {
        assert Filter(s, p) == Filter(s', p);
        FilterMembers(s', p, x);
        SubsequenceSnoc(Filter(s', p), s', x);
      }
    }
  }

  /** The sum of `w` over the list (`reduce((sum, x) => sum + w(x), 0)`). */
  function SumOf<T>(s: seq<T>, w: T -> nat): nat
  {
    if |s| == 0 then 0 else SumOf(s[..|s| - 1], w) + w(s[|s| - 1])
  }

  lemma SumOfSnoc<T>(s: seq<T>, x: T, w: T -> nat)
    ensures SumOf(s + [x], w) == SumOf(s, w) + w(x)
  {
    assert (s + [x])[..|s|] == s;
  }

  /**
   * Narrowing a window can only lower the sum: when every element that passes `p` passes `q`,
   * the elements of `Filter(s, p)` that pass `r` weigh no more than those of `Filter(s, q)`.
   */
  lemma {:induction false} NarrowerWindowSum<T>(s: seq<T>, p: T -> bool, q: T -> bool, r: T -> bool, w: T -> nat)
    requires forall x :: p(x) ==> q(x)
    ensures SumOf(Filter(Filter(s, p), r), w) <= SumOf(Filter(Filter(s, q), r), w)
  {
    if |s| > 0 {
      var s', x := s[..|s| - 1], s[|s| - 1];
      assert s == s' + [x];
      NarrowerWindowSum(s', p, q, r, w);
      var fp, fq := Filter(s', p), Filter(s', q);
      FilterSnoc(s', x, p);
      FilterSnoc(s', x, q);
      assert p(x) ==> q(x);
      if p(x) {
        assert Filter(s, p) == fp + [x] && Filter(s, q) == fq + [x];
        FilterSnoc(fp, x, r);
        FilterSnoc(fq, x, r);
        if r(x) {
          SumOfSnoc(Filter(fp, r), x, w);
          SumOfSnoc(Filter(fq, r), x, w);
          assert Filter(Filter(s, p), r) == Filter(fp, r) + [x];
          assert Filter(Filter(s, q), r) == Filter(fq, r) + [x];
        } else {
          assert Filter(Filter(s, p), r) == Filter(fp, r);
          assert Filter(Filter(s, q), r) == Filter(fq, r);
        }
      } else if q(x) {
        assert Filter(s, p) == fp && Filter(s, q) == fq + [x];
        FilterSnoc(fq, x, r);
        if r(x) {
          SumOfSnoc(Filter(fq, r), x, w);
          assert Filter(Filter(s, q), r) == Filter(fq, r) + [x];
        } else {
          assert Filter(Filter(s, q), r) == Filter(fq, r);
        }
      } else {
        assert Filter(s, p) == fp && Filter(s, q) == fq;
      }
    }
  }

  /** Elements that pass `p` and elements that fail it together make up the whole list. */
  lemma {:induction false} FilterComplement<T>(s: seq<T>, p: T -> bool, q: T -> bool)
    requires forall x :: q(x) == !p(x)
    ensures |Filter(s, p)| + |Filter(s, q)| == |s|
  {
    if |s| > 0 {
      FilterComplement(s[..|s| - 1], p, q);
    }
  }

  /** The sum of `w` over the elements whose key is `k`. */
  function KeySum<T, K(==)>(s: seq<T>, key: T -> K, w: T -> nat, k: K): nat
  {
    if |s| == 0 then 0
    else KeySum(s[..|s| - 1], key, w, k) + (if key(s[|s| - 1]) == k then w(s[|s| - 1]) else 0)
  }

  lemma KeySumSnoc<T, K>(s: seq<T>, x: T, key: T -> K, w: T -> nat, k: K)
    ensures KeySum(s + [x], key, w, k) == KeySum(s, key, w, k) + (if key(x) == k then w(x) else 0)
  {
    assert (s + [x])[..|s|] == s;
  }

  /** A key that no element carries has sum 0. */
  lemma {:induction false} KeySumAbsent<T, K>(s: seq<T>, key: T -> K, w: T -> nat, k: K)
    requires forall i :: 0 <= i < |s| ==> key(s[i]) != k
    ensures KeySum(s, key, w, k) == 0
  {
    if |s| > 0 {
      KeySumAbsent(s[..|s| - 1], key, w, k);
    }
  }

  /** The sum of `w` over the elements whose integer key lies in `[lo, hi)`. */
  function SumInRange<T>(s: seq<T>, key: T -> int, w: T -> nat, lo: int, hi: int): nat
  {
    if |s| == 0 then 0
    else SumInRange(s[..|s| - 1], key, w, lo, hi) + (if lo <= key(s[|s| - 1]) < hi then w(s[|s| - 1]) else 0)
  }

  /** `KeySum` for the keys `lo, lo+1, ..., lo+n-1`, added up. */
  function RangeKeySum<T>(s: seq<T>, key: T -> int, w: T -> nat, lo: int, n: nat): nat
  {
    if n == 0 then 0 else RangeKeySum(s, key, w, lo, n - 1) + KeySum(s, key, w, lo + n - 1)
  }

  lemma {:induction false} RangeKeySumSnoc<T>(s: seq<T>, x: T, key: T -> int, w: T -> nat, lo: int, n: nat)
    ensures RangeKeySum(s + [x], key, w, lo, n)
         == RangeKeySum(s, key, w, lo, n) + (if lo <= key(x) < lo + n then w(x) else 0)
  {
    if n > 0 {
      RangeKeySumSnoc(s, x, key, w, lo, n - 1);
      KeySumSnoc(s, x, key, w, lo + n - 1);
    }
  }

  /**
   * Bucketing by key loses nothing: the buckets `lo .. lo+n-1` together hold exactly the weight
   * of the elements whose key falls in that range.
   */
  lemma {:induction false} BucketsPartition<T>(s: seq<T>, key: T -> int, w: T -> nat, lo: int, n: nat)
    ensures RangeKeySum(s, key, w, lo, n) == SumInRange(s, key, w, lo, lo + n)
  {
    if |s| > 0 {
      var s', x := s[..|s| - 1], s[|s| - 1];
      assert s == s' + [x];
      BucketsPartition(s', key, w, lo, n);
      RangeKeySumSnoc(s', x, key, w, lo, n);
    } else {
      RangeKeySumEmpty(s, key, w, lo, n);
    }
  }

  lemma {:induction false} RangeKeySumEmpty<T>(s: seq<T>, key: T -> int, w: T -> nat, lo: int, n: nat)
    requires |s| == 0
    ensures RangeKeySum(s, key, w, lo, n) == 0
  {
    if n > 0 {
      RangeKeySumEmpty(s, key, w, lo, n - 1);
    }
  }

  /** When every key falls in the range, the range sum is the plain sum. */
  lemma {:induction false} SumInFullRange<T>(s: seq<T>, key: T -> int, w: T -> nat, lo: int, hi: int)
    requires forall i :: 0 <= i < |s| ==> lo <= key(s[i]) < hi
    ensures SumInRange(s, key, w, lo, hi) == SumOf(s, w)
  {
    if |s| > 0 {
      SumInFullRange(s[..|s| - 1], key, w, lo, hi);
    }
  }

  /** The distinct values `f` yields (`new Set(s.map(f).filter(Boolean))`, `None` being falsy). */
  function ImageSet<T, U(==)>(s: seq<T>, f: T -> Option<U>): (r: set<U>)
    ensures |r| <= |s|
  {
    if |s| == 0 then {}
    else
      var rest := ImageSet(s[..|s| - 1], f);
      match f(s[|s| - 1])
      case Some(u) => rest + {u}
      case None => rest
  }

  /** A value is in the set exactly when some element yields it. */
  lemma {:induction false} ImageSetMembers<T, U>(s: seq<T>, f: T -> Option<U>, u: U)
    ensures u in ImageSet(s, f) <==> exists i :: 0 <= i < |s| && f(s[i]) == Some(u)
  {
    if |s| > 0 {
      var s' := s[..|s| - 1];
      ImageSetMembers(s', f, u);
      if exists i :: 0 <= i < |s| && f(s[i]) == Some(u) {
        var i :| 0 <= i < |s| && f(s[i]) == Some(u);
        if i < |s'| {
          assert s'[i] == s[i];
        }
      }
      if u in ImageSet(s', f) {
        var i :| 0 <= i < |s'| && f(s'[i]) == Some(u);
        assert s[i] == s'[i];
      }
    }
  }

  /** The distinct keys of `s` in the order they first appear. */
  function Keys<T, K(==)>(s: seq<T>, key: T -> K): seq<K>
  {
    if |s| == 0 then []
    else
      var ks := Keys(s[..|s| - 1], key);
      if key(s[|s| - 1]) in ks then ks else ks + [key(s[|s| - 1])]
  }

  /** No key is listed twice. */
  lemma {:induction false} KeysDistinct<T, K>(s: seq<T>, key: T -> K)
    ensures forall i, j :: 0 <= i < j < |Keys(s, key)| ==> Keys(s, key)[i] != Keys(s, key)[j]
  {
    if |s| > 0 {
      KeysDistinct(s[..|s| - 1], key);
    }
  }

  /** A key is listed exactly when some element carries it. */
  lemma {:induction false} KeysMembers<T, K>(s: seq<T>, key: T -> K, k: K)
    ensures k in Keys(s, key) <==> exists i :: 0 <= i < |s| && key(s[i]) == k
  {
    if |s| > 0 {
      var s' := s[..|s| - 1];
      KeysMembers(s', key, k);
      if exists i :: 0 <= i < |s| && key(s[i]) == k {
        var i :| 0 <= i < |s| && key(s[i]) == k;
        if i < |s'| {
          assert s'[i] == s[i];
        }
      }
      if k in Keys(s', key) {
        var i :| 0 <= i < |s'| && key(s'[i]) == k;
        assert s[i] == s'[i];
      }
    }
  }

  lemma KeysSnoc<T, K>(s: seq<T>, x: T, key: T -> K)
    ensures Keys(s + [x], key) == if key(x) in Keys(s, key) then Keys(s, key) else Keys(s, key) + [key(x)]
  {
    assert (s + [x])[..|s|] == s;
  }

  /** A non-empty list has at least one key. */
  lemma KeysNonEmpty<T, K>(s: seq<T>, key: T -> K)
    ensures |Keys(s, key)| == 0 <==> |s| == 0
  {
  }

  /** Consecutive key ranges add up: `[lo, lo+n)` then `[lo+n, lo+n+m)`. */
  lemma {:induction false} RangeKeySumSplit<T>(s: seq<T>, key: T -> int, w: T -> nat, lo: int, n: nat, m: nat)
    ensures RangeKeySum(s, key, w, lo, n + m) == RangeKeySum(s, key, w, lo, n) + RangeKeySum(s, key, w, lo + n, m)
  {
    if m > 0 {
      RangeKeySumSplit(s, key, w, lo, n, m - 1);
    }
  }
}
