/**
 * Top-k selection and the mean over it, on sequences of reals: the value-level meaning of
 * `loss.topk(k)` followed by `loss[indices].mean()`.
 */
module Selection {
  import opened Quotients

  function Sum(s: seq<real>): real {
    if s == [] then 0.0 else s[0] + Sum(s[1..])
  }

  function Mean(s: seq<real>): real
    requires |s| > 0
  {
    Sum(s) / |s| as real
  }

  /** Non-increasing order. */
  predicate SortedDesc(s: seq<real>) {
    forall i, j :: 0 <= i < j < |s| ==> s[i] >= s[j]
  }

  /** Insert `x` into a non-increasing sequence, keeping it non-increasing. */
  function Insert(x: real, s: seq<real>): (r: seq<real>)
    requires SortedDesc(s)
    ensures SortedDesc(r)
    ensures multiset(r) == multiset(s) + multiset{x}
    ensures |r| == |s| + 1
  {
    if s == [] then [x]
    else if x >= s[0] then
      assert SortedDesc([x] + s) by {
        assert forall k :: 0 < k < |s| ==> s[0] >= s[k];
      }
      [x] + s
    else
      var t := Insert(x, s[1..]);
      InsertBehind(x, s, t);
      [s[0]] + t
  }

  /** The recursive case of Insert: `x` goes somewhere after the head `s[0]`, into `t`. */
  lemma InsertBehind(x: real, s: seq<real>, t: seq<real>)
    requires SortedDesc(s) && s != [] && x < s[0]
    requires SortedDesc(t) && multiset(t) == multiset(s[1..]) + multiset{x}
    ensures SortedDesc([s[0]] + t)
    ensures multiset([s[0]] + t) == multiset(s) + multiset{x}
  {
    assert s == [s[0]] + s[1..];
    forall k | 0 <= k < |t| ensures t[k] <= s[0] {
      assert t[k] in multiset(t);
      if t[k] != x {
        assert t[k] in s[1..];
        var j :| 0 <= j < |s[1..]| && s[1..][j] == t[k];
        assert s[j + 1] == t[k];
      }
    }
  }

  /** `s` in non-increasing order. */
  function SortDesc(s: seq<real>): (r: seq<real>)
    ensures SortedDesc(r)
    ensures multiset(r) == multiset(s)
    ensures |r| == |s|
  {
    if s == [] then []
    else
      assert s == [s[0]] + s[1..];
      Insert(s[0], SortDesc(s[1..]))
  }

  /** In a non-increasing sequence the first element is at least every element. */
  lemma FirstIsLargest(s: seq<real>, y: real)
    requires SortedDesc(s) && y in s
    ensures s[0] >= y
  {
    var i :| 0 <= i < |s| && s[i] == y;
    assert i == 0 || s[0] >= s[i];
  }

  /** Two non-increasing sequences with the same elements are equal: sorting forgets the input order. */
  lemma {:induction false} SortedUnique(a: seq<real>, b: seq<real>)
    requires SortedDesc(a) && SortedDesc(b)
    requires multiset(a) == multiset(b)
    ensures a == b
  {
    assert |a| == |multiset(a)| == |multiset(b)| == |b|;
    if a != [] {
      SameHead(a, b);
      SortedUnique(a[1..], b[1..]);
      assert a == [a[0]] + a[1..] && b == [b[0]] + b[1..];
    }
  }

  /** The step of SortedUnique: both sequences start with the largest element, and what follows
      holds the same elements. */
  lemma SameHead(a: seq<real>, b: seq<real>)
    requires SortedDesc(a) && SortedDesc(b) && multiset(a) == multiset(b) && a != [] && b != []
    ensures a[0] == b[0] && multiset(a[1..]) == multiset(b[1..])
    ensures SortedDesc(a[1..]) && SortedDesc(b[1..])
  {
    assert a[0] in multiset(b) && b[0] in multiset(a);
    FirstIsLargest(a, b[0]);
    FirstIsLargest(b, a[0]);
    assert a == [a[0]] + a[1..] && b == [b[0]] + b[1..];
    assert multiset(a[1..]) == multiset(a) - multiset{a[0]};
    assert multiset(b[1..]) == multiset(b) - multiset{b[0]};
  }

  /** The `k` largest values of `s`, largest first. */
  function TopK(s: seq<real>, k: nat): (t: seq<real>)
    requires k <= |s|
    ensures |t| == k
    ensures multiset(t) <= multiset(s)
    ensures forall x, y :: x in t && y in multiset(s) - multiset(t) ==> x >= y
  {
    var sorted := SortDesc(s);
    SortedSplit(sorted, k);
    sorted[..k]
  }

  /** Splitting a non-increasing sequence at `k`: the prefix holds part of the elements and
      dominates what is left. */
  lemma SortedSplit(sorted: seq<real>, k: nat)
    requires SortedDesc(sorted) && k <= |sorted|
    ensures multiset(sorted[..k]) <= multiset(sorted)
    ensures multiset(sorted) - multiset(sorted[..k]) == multiset(sorted[k..])
    ensures forall x, y :: x in sorted[..k] && y in multiset(sorted) - multiset(sorted[..k]) ==> x >= y
  {
    var t, rest := sorted[..k], sorted[k..];
    assert sorted == t + rest;
    assert multiset(sorted) == multiset(t) + multiset(rest);
    forall x, y | x in t && y in multiset(rest) ensures x >= y {
      var i :| 0 <= i < k && t[i] == x;
      var j :| 0 <= j < |rest| && rest[j] == y;
      assert sorted[i] == x && sorted[k + j] == y;
    }
  }

  /** The selected values depend only on the multiset of input values. */
  lemma TopKPermutationInvariant(s: seq<real>, s': seq<real>, k: nat)
    requires multiset(s) == multiset(s')
    requires k <= |s|
    ensures |s'| == |s| && TopK(s, k) == TopK(s', k)
  {
    assert |s'| == |multiset(s')| == |multiset(s)| == |s|;
    SortedUnique(SortDesc(s), SortDesc(s'));
  }

  lemma {:induction false} SumAppend(a: seq<real>, b: seq<real>)
    ensures Sum(a + b) == Sum(a) + Sum(b)
  {
    if a != [] {
      var ab := a + b;
      assert ab[0] == a[0] && ab[1..] == a[1..] + b;
      SumAppend(a[1..], b);
      assert Sum(ab) == ab[0] + Sum(ab[1..]);
    } else {
      assert a + b == b;
    }
  }

  lemma {:induction false} SumAtLeast(s: seq<real>, lo: real)
    requires forall i :: 0 <= i < |s| ==> lo <= s[i]
    ensures |s| as real * lo <= Sum(s)
  {
    if s != [] {
      SumAtLeast(s[1..], lo);
      assert s[0] >= lo;
    }
  }

  lemma {:induction false} SumAtMost(s: seq<real>, hi: real)
    requires forall i :: 0 <= i < |s| ==> s[i] <= hi
    ensures Sum(s) <= |s| as real * hi
  {
    if s != [] {
      SumAtMost(s[1..], hi);
      assert s[0] <= hi;
    }
  }

  /** The mean lies between any lower and upper bound of the elements. */
  lemma MeanBounds(s: seq<real>, lo: real, hi: real)
    requires |s| > 0
    requires forall i :: 0 <= i < |s| ==> lo <= s[i] <= hi
    ensures lo <= Mean(s) <= hi
  {
    SumAtLeast(s, lo);
    SumAtMost(s, hi);
    QuotientBounds(Sum(s), |s| as real, lo, hi);
  }

  /** Sorting keeps the sum. */
  lemma {:induction false} SumSortDesc(s: seq<real>)
    ensures Sum(SortDesc(s)) == Sum(s)
  {
    if s != [] {
      SumSortDesc(s[1..]);
      SumInsert(s[0], SortDesc(s[1..]));
    }
  }

  lemma {:induction false} SumInsert(x: real, s: seq<real>)
    requires SortedDesc(s)
    ensures Sum(Insert(x, s)) == x + Sum(s)
  {
    if s != [] && x < s[0] {
      SumInsert(x, s[1..]);
      assert ([s[0]] + Insert(x, s[1..]))[1..] == Insert(x, s[1..]);
    }
  }

  /** Appending values no larger than the mean of `t` cannot raise the mean. */
  lemma MeanOfExtension(t: seq<real>, rest: seq<real>)
    requires |t| > 0
    requires forall j :: 0 <= j < |rest| ==> rest[j] <= Mean(t)
    ensures Mean(t + rest) <= Mean(t)
  {
    var m := Mean(t);
    var kt, kr := |t| as real, |rest| as real;
    SumAppend(t, rest);
    SumAtMost(rest, m);
    QuotientTimes(Sum(t), kt);
    CombinedQuotient(Sum(t), Sum(rest), kt, kr, m);
    assert |t + rest| as real == kt + kr;
  }

  lemma CombinedQuotient(a: real, b: real, ka: real, kb: real, m: real)
    requires ka > 0.0 && kb >= 0.0
    requires (a / ka) * ka == a && m == a / ka && b <= m * kb
    ensures (a + b) / (ka + kb) <= m
  {
    assert a == m * ka;
    assert a + b <= m * ka + m * kb == m * (ka + kb);
    QuotientBounds(a + b, ka + kb, (a + b) / (ka + kb), m);
  }

  /** Averaging the k largest values never gives less than averaging all of them. */
  lemma TopKMeanAtLeastMean(s: seq<real>, k: nat)
    requires 0 < k <= |s|
    ensures Mean(TopK(s, k)) >= Mean(s)
  {
    var sorted := SortDesc(s);
    MeanSortDesc(s);
    SortedPrefixMean(sorted, k);
  }

  /** Sorting keeps the mean. */
  lemma MeanSortDesc(s: seq<real>)
    requires |s| > 0
    ensures |SortDesc(s)| == |s| && Mean(SortDesc(s)) == Mean(s)
  {
    assert |SortDesc(s)| == |multiset(SortDesc(s))| == |s|;
    SumSortDesc(s);
  }

  /** In a non-increasing sequence the mean of a non-empty prefix is at least the mean of the whole. */
  lemma SortedPrefixMean(sorted: seq<real>, k: nat)
    requires SortedDesc(sorted) && 0 < k <= |sorted|
    ensures Mean(sorted[..k]) >= Mean(sorted)
  {
    var t, rest := sorted[..k], sorted[k..];
    assert sorted == t + rest;
    var tMin := t[k - 1];
    assert forall i :: 0 <= i < k ==> tMin <= t[i] by {
      forall i | 0 <= i < k ensures tMin <= t[i] {
        assert i == k - 1 || sorted[i] >= sorted[k - 1];
      }
    }
    MeanAtLeast(t, tMin);
    assert forall j :: 0 <= j < |rest| ==> rest[j] <= Mean(t) by {
      forall j | 0 <= j < |rest| ensures rest[j] <= Mean(t) {
        assert sorted[k - 1] >= sorted[k + j];
      }
    }
    MeanOfExtension(t, rest);
  }

  lemma MeanAtLeast(s: seq<real>, lo: real)
    requires |s| > 0
    requires forall i :: 0 <= i < |s| ==> lo <= s[i]
    ensures lo <= Mean(s)
  {
    SumAtLeast(s, lo);
    QuotientBounds(Sum(s), |s| as real, lo, Sum(s) / |s| as real);
  }

  /** The mean of the k largest values: non-negative when the values are, at least the mean of all
      values and every value left out, at most the largest value. */
  lemma TopKMeanBounds(s: seq<real>, k: nat)
    requires 0 < k <= |s|
    requires forall i :: 0 <= i < |s| ==> 0.0 <= s[i]
    ensures 0.0 <= Mean(TopK(s, k))
    ensures Mean(s) <= Mean(TopK(s, k))
    ensures exists i :: 0 <= i < |s| && Mean(TopK(s, k)) <= s[i]
    ensures forall y :: y in multiset(s) - multiset(TopK(s, k)) ==> y <= Mean(TopK(s, k))
  {
    var t := TopK(s, k);
    var sorted := SortDesc(s);
    assert t == sorted[..k];
    assert sorted[0] in multiset(s);
    var top :| 0 <= top < |s| && s[top] == sorted[0];
    forall i | 0 <= i < k ensures 0.0 <= t[i] <= sorted[0] && t[k - 1] <= t[i] {
      assert t[i] in multiset(s);
      assert i == 0 || sorted[0] >= sorted[i];
      assert i == k - 1 || sorted[i] >= sorted[k - 1];
    }
    MeanBounds(t, 0.0, sorted[0]);
    MeanAtLeast(t, t[k - 1]);
    TopKMeanAtLeastMean(s, k);
    forall y | y in multiset(s) - multiset(t) ensures y <= Mean(t) {
      assert t[k - 1] in t && t[k - 1] >= y;
    }
  }
}
