/** `rank_simple` and `rankdata` (censo_qm/utilities.py): average ranks with ties,
    as numpy/scipy define them.  The reference definition is by counting: a value
    v of `a` has rank  #(elements < v) + (#(elements == v) + 1) / 2. */
module Ranking {
  import opened Sorting

  /** `vector.__getitem__` as a total key function on positions. */
  function ValueAt(a: seq<real>): nat -> real
  {
    (i: nat) => if i < |a| then a[i] else 0.0
  }

  /** `rank_simple(a)`: the positions of a, stably sorted by the value they hold. */
  function RankSimple(a: seq<real>): (ivec: seq<nat>)
    ensures |ivec| == |a|
    ensures forall j :: 0 <= j < |ivec| ==> ivec[j] < |a|
    ensures forall p :: 0 <= p < |a| ==> p in ivec
    ensures forall j, k :: 0 <= j < k < |ivec| ==> ivec[j] != ivec[k]
    ensures SortedBy(ivec, ValueAt(a))
    ensures multiset(Map(ValueAt(a), ivec)) == multiset(a)
  {
    var r := SortBy(Range(|a|), ValueAt(a));
    RangePermutation(r, |a|);
    MapSortBy(ValueAt(a), Range(|a|), ValueAt(a));
    assert Map(ValueAt(a), Range(|a|)) == a;
    r
  }

  /** A permutation of `range(n)` holds exactly the positions below n. */
  lemma RangePermutation(r: seq<nat>, n: nat)
    requires multiset(r) == multiset(Range(n))
    ensures forall j :: 0 <= j < |r| ==> r[j] < n
    ensures forall p :: 0 <= p < n ==> p in r
    ensures forall j, k :: 0 <= j < k < |r| ==> r[j] != r[k]
  {
    forall j | 0 <= j < |r| ensures r[j] < n {
      assert r[j] in multiset(r);
      assert r[j] in Range(n);
    }
    forall p | 0 <= p < n ensures p in r {
      assert Range(n)[p] == p;
      assert p in multiset(Range(n));
    }
    forall j, k | 0 <= j < k < |r| ensures r[j] != r[k] {
      if r[j] == r[k] {
        RepeatedCount(r, j, k);
        RangeCount(n, r[j]);
        assert false;
      }
    }
  }

  /** A value seen at two positions occurs at least twice. */
  lemma RepeatedCount<T>(s: seq<T>, j: nat, k: nat)
    requires j < k < |s| && s[j] == s[k]
    ensures multiset(s)[s[j]] >= 2
  {
    assert s == s[..k] + [s[k]] + s[k + 1..];
    assert s[..k][j] == s[j];
    assert s[j] in multiset(s[..k]);
  }

  /** `range(n)` holds every value at most once. */
  lemma {:induction false} RangeCount(n: nat, x: nat)
    ensures multiset(Range(n))[x] <= 1
  {
    if n > 0 {
      RangeCount(n - 1, x);
      assert Range(n) == Range(n - 1) + [n - 1];
      if x == n - 1 {
        assert x !in Range(n - 1);
      }
    }
  }

  function CountLess(s: seq<real>, v: real): (c: nat)
    ensures c <= |s|
  {
    if |s| == 0 then 0 else (if s[|s| - 1] < v then 1 else 0) + CountLess(s[..|s| - 1], v)
  }

  function CountEq(s: seq<real>, v: real): (c: nat)
    ensures c <= |s|
  {
    if |s| == 0 then 0 else (if s[|s| - 1] == v then 1 else 0) + CountEq(s[..|s| - 1], v)
  }

  /** The average of the 1-based positions that v's ties occupy in ascending order. */
  function AverageRank(s: seq<real>, v: real): real
  {
    CountLess(s, v) as real + (CountEq(s, v) + 1) as real / 2.0
  }

  /** The rank of every entry of a: what `rankdata` is meant to return. */
  function Ranks(a: seq<real>): (r: seq<real>)
    ensures |r| == |a|
  {
    seq(|a|, p requires 0 <= p < |a| => AverageRank(a, a[p]))
  }

  lemma {:induction false} CountsAppend(s: seq<real>, t: seq<real>, v: real)
    ensures CountLess(s + t, v) == CountLess(s, v) + CountLess(t, v)
    ensures CountEq(s + t, v) == CountEq(s, v) + CountEq(t, v)
    decreases |t|
  {
    if |t| > 0 {
      assert (s + t)[..|s + t| - 1] == s + t[..|t| - 1];
      CountsAppend(s, t[..|t| - 1], v);
    } else {
      assert s + t == s;
    }
  }

  /** Taking one element out of a sequence takes its contribution out of the counts. */
  lemma CountsRemove(t: seq<real>, k: nat, v: real)
    requires k < |t|
    ensures CountLess(t, v) == CountLess(t[..k] + t[k + 1..], v) + (if t[k] < v then 1 else 0)
    ensures CountEq(t, v) == CountEq(t[..k] + t[k + 1..], v) + (if t[k] == v then 1 else 0)
  {
    assert t == (t[..k] + [t[k]]) + t[k + 1..];
    CountsAppend(t[..k] + [t[k]], t[k + 1..], v);
    CountsAppend(t[..k], [t[k]], v);
    CountsAppend(t[..k], t[k + 1..], v);
    assert [t[k]][..0] == [];
  }

  /** The counts depend only on the multiset of values. */
  lemma {:induction false} CountsPermutation(s: seq<real>, t: seq<real>, v: real)
    requires multiset(s) == multiset(t)
    ensures CountLess(s, v) == CountLess(t, v) && CountEq(s, v) == CountEq(t, v)
    decreases |s|
  {
    if |s| == 0 {
      assert |t| == |multiset(t)| == 0;
    } else {
      var x := s[|s| - 1];
      var init := s[..|s| - 1];
      assert s == init + [x];
      assert x in multiset(t);
      var k :| 0 <= k < |t| && t[k] == x;
      var rest := t[..k] + t[k + 1..];
      assert t == t[..k] + [x] + t[k + 1..];
      assert multiset(init) == multiset(s) - multiset{x};
      assert multiset(rest) == multiset(t) - multiset{x};
      CountsPermutation(init, rest, v);
      CountsRemove(t, k, v);
    }
  }

  lemma {:induction false} CountsAllBelow(s: seq<real>, v: real)
    requires forall j :: 0 <= j < |s| ==> s[j] < v
    ensures CountLess(s, v) == |s| && CountEq(s, v) == 0
  {
    if |s| > 0 { CountsAllBelow(s[..|s| - 1], v); }
  }

  lemma {:induction false} CountsAllAbove(s: seq<real>, v: real)
    requires forall j :: 0 <= j < |s| ==> s[j] > v
    ensures CountLess(s, v) == 0 && CountEq(s, v) == 0
  {
    if |s| > 0 { CountsAllAbove(s[..|s| - 1], v); }
  }

  lemma {:induction false} CountsAllEqual(s: seq<real>, v: real)
    requires forall j :: 0 <= j < |s| ==> s[j] == v
    ensures CountLess(s, v) == 0 && CountEq(s, v) == |s|
  {
    if |s| > 0 { CountsAllEqual(s[..|s| - 1], v); }
  }

  predicate Ascending(s: seq<real>)
  {
    forall i, j :: 0 <= i < j < |s| ==> s[i] <= s[j]
  }

  /** In an ascending sequence, a maximal run of equal values v at positions
      lo..hi-1 is preceded by exactly the values below v. */
  lemma TieBlockCounts(s: seq<real>, lo: nat, hi: nat, v: real)
    requires Ascending(s)
    requires lo < hi <= |s|
    requires forall j :: lo <= j < hi ==> s[j] == v
    requires lo == 0 || s[lo - 1] != v
    requires hi == |s| || s[hi] != v
    ensures CountLess(s, v) == lo && CountEq(s, v) == hi - lo
  {
    BelowBlock(s, lo, v);
    AboveBlock(s, hi, v);
    CountsSplit(s, lo, hi, v);
  }

  lemma BelowBlock(s: seq<real>, lo: nat, v: real)
    requires Ascending(s) && lo < |s| && s[lo] == v
    requires lo == 0 || s[lo - 1] != v
    ensures forall j :: 0 <= j < lo ==> s[j] < v
  {
    if lo > 0 {
      assert s[lo - 1] < v;
      forall j | 0 <= j < lo ensures s[j] < v {
        assert s[j] <= s[lo - 1];
      }
    }
  }

  lemma AboveBlock(s: seq<real>, hi: nat, v: real)
    requires Ascending(s) && 0 < hi <= |s| && s[hi - 1] == v
    requires hi == |s| || s[hi] != v
    ensures forall j :: hi <= j < |s| ==> s[j] > v
  {
    if hi < |s| {
      assert s[hi] > v;
      forall j | hi <= j < |s| ensures s[j] > v {
        assert s[hi] <= s[j];
      }
    }
  }

  /** Values below v, then a run of v, then values above v. */
  lemma CountsSplit(s: seq<real>, lo: nat, hi: nat, v: real)
    requires lo <= hi <= |s|
    requires forall j :: 0 <= j < lo ==> s[j] < v
    requires forall j :: lo <= j < hi ==> s[j] == v
    requires forall j :: hi <= j < |s| ==> s[j] > v
    ensures CountLess(s, v) == lo && CountEq(s, v) == hi - lo
  {
    var pre, mid, post := s[..lo], s[lo..hi], s[hi..];
    assert s == pre + mid + post;
    assert forall j :: 0 <= j < |pre| ==> pre[j] < v;
    assert forall j :: 0 <= j < |mid| ==> mid[j] == v;
    assert forall j :: 0 <= j < |post| ==> post[j] == s[hi + j] > v;
    CountsOfBlock(pre, mid, post, v);
  }

  lemma CountsOfBlock(pre: seq<real>, mid: seq<real>, post: seq<real>, v: real)
    requires forall j :: 0 <= j < |pre| ==> pre[j] < v
    requires forall j :: 0 <= j < |mid| ==> mid[j] == v
    requires forall j :: 0 <= j < |post| ==> post[j] > v
    ensures CountLess(pre + mid + post, v) == |pre| && CountEq(pre + mid + post, v) == |mid|
  {
    CountsAllBelow(pre, v);
    CountsAllEqual(mid, v);
    CountsAllAbove(post, v);
    CountsAppend(pre + mid, post, v);
    CountsAppend(pre, mid, v);
  }

  /** 0 + 1 + ... summed over lo..hi-1. */
  function SumRange(lo: int, hi: int): int
    decreases hi - lo
  {
    if hi <= lo then 0 else SumRange(lo, hi - 1) + (hi - 1)
  }

  lemma {:induction false} SumRangeClosed(lo: int, hi: int)
    requires lo <= hi
    ensures 2 * SumRange(lo, hi) == (hi - lo) * (lo + hi - 1)
    decreases hi - lo
  {
    if lo < hi { SumRangeClosed(lo, hi - 1); }
  }

  /** The running average `sumranks / dupcount + 1` of a finished tie block. */
  lemma BlockAverage(lo: int, hi: int)
    requires lo < hi
    ensures SumRange(lo, hi) as real / (hi - lo) as real + 1.0
            == lo as real + ((hi - lo) + 1) as real / 2.0
  {
    SumRangeClosed(lo, hi);
    var c := hi - lo;
    var l := lo + hi - 1;
    HalfProduct(SumRange(lo, hi), c, l);
  }

  /** From 2s == c*l over the integers: s / c == l / 2 over the reals. */
  lemma HalfProduct(s: int, c: int, l: int)
    requires c > 0 && 2 * s == c * l
    ensures s as real / c as real == l as real / 2.0
  {
    var q := s as real / c as real;
    assert q * c as real == s as real;
    assert 2.0 * s as real == c as real * l as real;
    assert c as real * (2.0 * q) == c as real * l as real;
  }

  /** The values of a in the order `rank_simple` gives: `[a[k] for k in ivec]`. */
  lemma SortedValues(a: seq<real>, ivec: seq<nat>, svec: seq<real>)
    requires ivec == RankSimple(a) && svec == Map(ValueAt(a), ivec)
    ensures |svec| == |a|
    ensures forall j :: 0 <= j < |a| ==> svec[j] == a[ivec[j]]
    ensures Ascending(svec)
    ensures multiset(svec) == multiset(a)
  {
  }

  /** A finished run of ties at sorted positions lo..hi-1 gets the average rank of
      its value. */
  lemma TieBlockRank(a: seq<real>, svec: seq<real>, lo: nat, hi: nat)
    requires Ascending(svec) && multiset(svec) == multiset(a)
    requires lo < hi <= |svec|
    requires forall j :: lo <= j < hi ==> svec[j] == svec[lo]
    requires lo == 0 || svec[lo - 1] != svec[lo]
    requires hi == |svec| || svec[hi] != svec[lo]
    ensures SumRange(lo, hi) as real / (hi - lo) as real + 1.0 == AverageRank(a, svec[lo])
  {
    TieBlockCounts(svec, lo, hi, svec[lo]);
    CountsPermutation(svec, a, svec[lo]);
    BlockAverage(lo, hi);
  }

  /** `rankdata(a)`: the average ranks of a, with ties sharing the mean of the
      positions they occupy. */
  method RankData(a: seq<real>) returns (r: seq<real>)
    ensures r == Ranks(a)
  {
    var ivec := RankSimple(a);
    var svec := Map(ValueAt(a), ivec);
    SortedValues(a, ivec, svec);
    r := TieBlockRanks(a, ivec, svec);
    RanksByPosition(a, ivec, r);
  }

  /** The loop of `rankdata`: walks the sorted values svec, accumulating the
      positions of a run of ties, and writes the run's average rank to every
      original position ivec[j] of the run. */
  method TieBlockRanks(ghost a: seq<real>, ivec: seq<nat>, svec: seq<real>) returns (r: seq<real>)
    requires |ivec| == |svec| == |a|
    requires forall j :: 0 <= j < |ivec| ==> ivec[j] < |a|
    requires forall j, k :: 0 <= j < k < |ivec| ==> ivec[j] != ivec[k]
    requires forall j :: 0 <= j < |a| ==> svec[j] == a[ivec[j]]
    requires Ascending(svec) && multiset(svec) == multiset(a)
    ensures |r| == |a|
    ensures forall j :: 0 <= j < |ivec| ==> r[ivec[j]] == AverageRank(a, a[ivec[j]])
  {
    var n := |svec|;
    var sumranks := 0;
    var dupcount := 0;
    var newarray := new real[n];
    ghost var start := 0;
    var i := 0;
    while i < n
      invariant start <= i <= n && dupcount == i - start
      invariant sumranks == SumRange(start, i)
      invariant start < i ==> i < n
      invariant forall j :: start <= j <= i && j < n ==> svec[j] == svec[start]
      invariant 0 < start < n ==> svec[start - 1] != svec[start]
      invariant forall j :: 0 <= j < start ==> newarray[ivec[j]] == AverageRank(a, svec[j])
    {
      sumranks := sumranks + i;
      dupcount := dupcount + 1;
      if i == n - 1 || svec[i] != svec[i + 1] {
        CloseBlock(a, ivec, svec, newarray, start, i, sumranks, dupcount);
        sumranks := 0;
        dupcount := 0;
        start := i + 1;
      } else {
        assert svec[i + 1] == svec[i] == svec[start];
      }
      i := i + 1;
    }
    r := newarray[..];
  }

  /** A run of equal values ends at i: every position in it gets the average
      of the ranks start+1..i+1. */
  method CloseBlock(ghost a: seq<real>, ivec: seq<nat>, svec: seq<real>, newarray: array<real>,
                    ghost start: nat, i: nat, sumranks: int, dupcount: nat)
    requires |ivec| == |svec| == |a| == newarray.Length
    requires forall j :: 0 <= j < |ivec| ==> ivec[j] < |a|
    requires forall j, k :: 0 <= j < k < |ivec| ==> ivec[j] != ivec[k]
    requires Ascending(svec) && multiset(svec) == multiset(a)
    requires start <= i < |svec| && dupcount == i + 1 - start
    requires sumranks == SumRange(start, i + 1)
    requires forall j :: start <= j <= i ==> svec[j] == svec[start]
    requires 0 < start ==> svec[start - 1] != svec[start]
    requires i == |svec| - 1 || svec[i] != svec[i + 1]
    requires forall j :: 0 <= j < start ==> newarray[ivec[j]] == AverageRank(a, svec[j])
    modifies newarray
    ensures forall j :: 0 <= j <= i ==> newarray[ivec[j]] == AverageRank(a, svec[j])
  {
    TieBlockRank(a, svec, start, i + 1);
    var averank := sumranks as real / dupcount as real + 1.0;
    FillBlock(newarray, ivec, i + 1 - dupcount, i + 1, averank);
  }

  /** `newarray[ivec[j]] = v` for every j in lo..hi-1. */
  method FillBlock(arr: array<real>, ivec: seq<nat>, lo: nat, hi: nat, v: real)
    requires lo <= hi <= |ivec|
    requires forall j :: 0 <= j < |ivec| ==> ivec[j] < arr.Length
    requires forall j, k :: 0 <= j < k < |ivec| ==> ivec[j] != ivec[k]
    modifies arr
    ensures forall j :: lo <= j < hi ==> arr[ivec[j]] == v
    ensures forall j :: 0 <= j < |ivec| && !(lo <= j < hi) ==> arr[ivec[j]] == old(arr[ivec[j]])
  {
    for j := lo to hi
      invariant forall k :: lo <= k < j ==> arr[ivec[k]] == v
      invariant forall k :: 0 <= k < |ivec| && !(lo <= k < j) ==> arr[ivec[k]] == old(arr[ivec[k]])
    {
      arr[ivec[j]] := v;
    }
  }

  /** Ranks written through a permutation of the positions cover every position. */
  lemma RanksByPosition(a: seq<real>, ivec: seq<nat>, r: seq<real>)
    requires |r| == |a| == |ivec|
    requires forall j :: 0 <= j < |ivec| ==> ivec[j] < |a|
    requires forall p :: 0 <= p < |a| ==> p in ivec
    requires forall j :: 0 <= j < |ivec| ==> r[ivec[j]] == AverageRank(a, a[ivec[j]])
    ensures r == Ranks(a)
  {
    forall p | 0 <= p < |a|
      ensures r[p] == Ranks(a)[p]
    {
      assert p in ivec;
      var j :| 0 <= j < |ivec| && ivec[j] == p;
    }
  }

  /** `rankdata([3, 1, 2, 2]) == [4, 1, 2.5, 2.5]`. */
  lemma RanksExample()
    ensures Ranks([3.0, 1.0, 2.0, 2.0]) == [4.0, 1.0, 2.5, 2.5]
  {
    var a := [3.0, 1.0, 2.0, 2.0];
    assert a[..3] == [3.0, 1.0, 2.0] && a[..2] == [3.0, 1.0] && a[..1] == [3.0];
    assert a[..3][..2] == a[..2] && a[..2][..1] == a[..1] && a[..1][..0] == [];
    assert CountLess(a[..1], 3.0) == 0 && CountLess(a[..2], 3.0) == 1 && CountLess(a[..3], 3.0) == 2;
    assert CountEq(a[..1], 3.0) == 1 && CountEq(a[..2], 3.0) == 1 && CountEq(a[..3], 3.0) == 1;
    assert CountLess(a, 3.0) == 3 && CountEq(a, 3.0) == 1;
    assert CountLess(a[..1], 1.0) == 0 && CountLess(a[..2], 1.0) == 0 && CountLess(a[..3], 1.0) == 0;
    assert CountEq(a[..1], 1.0) == 0 && CountEq(a[..2], 1.0) == 1 && CountEq(a[..3], 1.0) == 1;
    assert CountLess(a, 1.0) == 0 && CountEq(a, 1.0) == 1;
    assert CountLess(a[..1], 2.0) == 0 && CountLess(a[..2], 2.0) == 1 && CountLess(a[..3], 2.0) == 1;
    assert CountEq(a[..1], 2.0) == 0 && CountEq(a[..2], 2.0) == 0 && CountEq(a[..3], 2.0) == 1;
    assert CountLess(a, 2.0) == 1 && CountEq(a, 2.0) == 2;
  }

  /** A strictly increasing transformation leaves every rank unchanged. */
  lemma {:induction false} CountsMonotone(s: seq<real>, v: real, f: real -> real)
    requires forall x, y :: x < y ==> f(x) < f(y)
    ensures CountLess(Map(f, s), f(v)) == CountLess(s, v)
    ensures CountEq(Map(f, s), f(v)) == CountEq(s, v)
    decreases |s|
  {
    if |s| > 0 {
      var x := s[|s| - 1];
      assert Map(f, s)[..|s| - 1] == Map(f, s[..|s| - 1]);
      CountsMonotone(s[..|s| - 1], v, f);
      assert x < v <==> f(x) < f(v);
      assert x == v <==> f(x) == f(v);
    }
  }

  lemma RanksMonotone(a: seq<real>, f: real -> real)
    requires forall x, y :: x < y ==> f(x) < f(y)
    ensures Ranks(Map(f, a)) == Ranks(a)
  {
    forall p | 0 <= p < |a|
      ensures Ranks(Map(f, a))[p] == Ranks(a)[p]
    {
      CountsMonotone(a, a[p], f);
    }
  }

  /** Every value below w, and every copy of a smaller v, is counted below w. */
  lemma {:induction false} CountsBelowLarger(s: seq<real>, v: real, w: real)
    requires v < w
    ensures CountLess(s, w) >= CountLess(s, v) + CountEq(s, v)
    decreases |s|
  {
    if |s| > 0 { CountsBelowLarger(s[..|s| - 1], v, w); }
  }

  lemma {:induction false} CountEqMember(s: seq<real>, i: nat)
    requires i < |s|
    ensures CountEq(s, s[i]) >= 1
    decreases |s|
  {
    if i < |s| - 1 {
      CountEqMember(s[..|s| - 1], i);
    }
  }

  /** Ranking keeps the order: a smaller value gets a strictly smaller rank and
      equal values get equal ranks. */
  lemma RanksOrder(a: seq<real>, i: nat, j: nat)
    requires i < |a| && j < |a|
    ensures a[i] < a[j] ==> Ranks(a)[i] < Ranks(a)[j]
    ensures a[i] == a[j] ==> Ranks(a)[i] == Ranks(a)[j]
  {
    if a[i] < a[j] {
      CountsBelowLarger(a, a[i], a[j]);
      CountEqMember(a, i);
      CountEqMember(a, j);
    }
  }
}
