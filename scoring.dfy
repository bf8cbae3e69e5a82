/** The score arithmetic shared by the three aggregators: maximum, minimum,
    ascending sort and the linearly interpolated percentile. */
module Scoring {
  import opened Basics

  /** `max(s)`. */
  function MaxOf(s: seq<real>): (m: real)
    requires |s| > 0
    ensures m in s
    ensures forall i :: 0 <= i < |s| ==> s[i] <= m
    decreases |s|
  {
    if |s| == 1 then s[0]
    else
      var rest := MaxOf(s[..|s| - 1]);
      assert rest in s by { assert s[..|s| - 1] <= s; }
      if s[|s| - 1] > rest then s[|s| - 1] else rest
  }

  /** `min(s)`. */
  function MinOf(s: seq<real>): (m: real)
    requires |s| > 0
    ensures m in s
    ensures forall i :: 0 <= i < |s| ==> m <= s[i]
    decreases |s|
  {
    if |s| == 1 then s[0]
    else
      var rest := MinOf(s[..|s| - 1]);
      assert rest in s by { assert s[..|s| - 1] <= s; }
      if s[|s| - 1] < rest then s[|s| - 1] else rest
  }

  predicate SortedAsc(s: seq<real>)
  {
    forall i, j :: 0 <= i <= j < |s| ==> s[i] <= s[j]
  }

  /** A value no larger than any element of an ascending sequence can lead it. */
  lemma SortedCons(y: real, t: seq<real>)
    requires SortedAsc(t)
    requires forall k :: 0 <= k < |t| ==> y <= t[k]
    ensures SortedAsc([y] + t)
  {
    forall i, j | 0 <= i <= j < |t| + 1 ensures ([y] + t)[i] <= ([y] + t)[j] {
      if i > 0 {
        assert ([y] + t)[i] == t[i - 1] && ([y] + t)[j] == t[j - 1];
      } else {
        assert ([y] + t)[i] == y;
      }
    }
  }

  /** Inserts `x` into an ascending sequence. */
  function InsertAsc(x: real, s: seq<real>): (r: seq<real>)
    requires SortedAsc(s)
    ensures SortedAsc(r)
    ensures multiset(r) == multiset(s) + multiset{x}
    decreases |s|
  {
    if s == [] then [x]
    else if x <= s[0] then
      SortedCons(x, s);
      [x] + s
    else
      var rest := InsertAsc(x, s[1..]);
      assert s == [s[0]] + s[1..];
      assert forall k :: 0 <= k < |s[1..]| ==> s[0] <= s[1..][k];
      ValuesAbove(rest, s[1..], x, s[0]);
      SortedCons(s[0], rest);
      MultisetCons(s[0], rest, s[1..], x);
      [s[0]] + rest
  }

  /** A lower bound on every value of `t` and on `x` bounds every value of a
      permutation of `t` plus `x`. */
  lemma ValuesAbove(r: seq<real>, t: seq<real>, x: real, bound: real)
    requires multiset(r) == multiset(t) + multiset{x}
    requires forall k :: 0 <= k < |t| ==> bound <= t[k]
    requires bound <= x
    ensures forall k :: 0 <= k < |r| ==> bound <= r[k]
  {
    forall k | 0 <= k < |r|
      ensures bound <= r[k]
    {
      assert r[k] in multiset(r);
      if r[k] != x {
        assert r[k] in multiset(t);
        var j :| 0 <= j < |t| && t[j] == r[k];
      }
    }
  }

  /** `sorted(s)`: the same values, ascending. */
  function SortAsc(s: seq<real>): (r: seq<real>)
    ensures SortedAsc(r)
    ensures multiset(r) == multiset(s)
    ensures |r| == |s|
    decreases |s|
  {
    if s == [] then []
    else
      assert s == s[..|s| - 1] + [s[|s| - 1]];
      var r := InsertAsc(s[|s| - 1], SortAsc(s[..|s| - 1]));
      assert |r| == |multiset(r)| == |s|;
      r
  }

  /** Every value of a permutation of `s` lies between the minimum and the maximum of `s`. */
  lemma PermutationWithin(s: seq<real>, r: seq<real>, i: int)
    requires |s| > 0 && multiset(r) == multiset(s) && 0 <= i < |r|
    ensures MinOf(s) <= r[i] <= MaxOf(s)
  {
    assert r[i] in multiset(r);
    assert r[i] in s;
  }

  /** Linear interpolation `lo + (hi - lo) * f`: a point on the segment from `lo` to `hi`. */
  function Lerp(lo: real, hi: real, f: real): (r: real)
    requires lo <= hi && 0.0 <= f <= 1.0
    ensures lo <= r <= hi
    ensures f == 0.0 ==> r == lo
  {
    ProductSign(hi - lo, f);
    ProductSign(hi - lo, 1.0 - f);
    assert (hi - lo) * (1.0 - f) == (hi - lo) - (hi - lo) * f;
    lo + (hi - lo) * f
  }

  /** The fractional rank `p / 100 * (n - 1)` of the p-th percentile among `n` values. */
  function Rank(p: int, n: int): (idx: real)
    requires 0 <= p <= 100 && n >= 1
    ensures 0.0 <= idx <= (n - 1) as real
    ensures p == 100 ==> idx == (n - 1) as real
    ensures p == 0 ==> idx == 0.0
  {
    var q, k := p as real / 100.0, (n - 1) as real;
    ProductSign(q, k);
    ProductSign(1.0 - q, k);
    assert (1.0 - q) * k == k - q * k;
    q * k
  }

  /** `_percentile(values, p)`: 0.0 for no values; otherwise the value at the
      fractional rank of the ascending values, interpolating linearly between
      the two neighbouring ranks. */
  function Percentile(vs: seq<real>, p: int): (r: real)
    requires 0 <= p <= 100
    ensures vs == [] ==> r == 0.0
    ensures vs != [] ==> MinOf(vs) <= r <= MaxOf(vs)
  {
    if vs == [] then 0.0
    else
      var sorted := SortAsc(vs);
      var idx := Rank(p, |sorted|);
      var lower := idx.Floor;
      assert 0 <= lower < |sorted|;
      PermutationWithin(vs, sorted, lower);
      if lower + 1 >= |sorted| then sorted[lower]
      else
        var fraction := idx - lower as real;
        PermutationWithin(vs, sorted, lower + 1);
        Lerp(sorted[lower], sorted[lower + 1], fraction)
  }

  /** Inserting a value above every value of an ascending sequence appends it. */
  lemma {:induction false} InsertAbove(x: real, s: seq<real>)
    requires SortedAsc(s) && forall k :: 0 <= k < |s| ==> s[k] < x
    ensures InsertAsc(x, s) == s + [x]
    decreases |s|
  {
    if s != [] {
      InsertAbove(x, s[1..]);
      assert s == [s[0]] + s[1..];
    }
  }

  predicate StrictlyAsc(s: seq<real>)
  {
    forall i, j :: 0 <= i < j < |s| ==> s[i] < s[j]
  }

  /** Dropping the last value of a strictly ascending sequence leaves a strictly
      ascending sequence below that value. */
  lemma StrictInit(s: seq<real>, init: seq<real>)
    requires StrictlyAsc(s) && |s| > 0 && init == s[..|s| - 1]
    ensures StrictlyAsc(init) && SortedAsc(init)
    ensures forall k :: 0 <= k < |init| ==> init[k] < s[|s| - 1]
  {
  }

  /** Sorting a strictly ascending sequence leaves it as it is. */
  lemma {:induction false} SortStrictlyAscending(s: seq<real>)
    requires StrictlyAsc(s)
    ensures SortAsc(s) == s
    decreases |s|
  {
    if s != [] {
      var init, x := s[..|s| - 1], s[|s| - 1];
      assert SortAsc(init) == init by {
        StrictInit(s, init);
        SortStrictlyAscending(init);
      }
      assert InsertAsc(x, init) == s by {
        StrictInit(s, init);
        InsertAbove(x, init);
        assert init + [x] == s;
      }
    }
  }

  /** The 95th percentile of 10, 20, 30, 40, 50: rank 3.8, so 40 + 0.8 * (50 - 40). */
  lemma PercentileExample()
    ensures Percentile([10.0, 20.0, 30.0, 40.0, 50.0], 95) == 48.0
  {
    var vs := [10.0, 20.0, 30.0, 40.0, 50.0];
    assert SortAsc(vs) == vs by {
      assert StrictlyAsc(vs);
      SortStrictlyAscending(vs);
    }
    assert Rank(95, 5).Floor == 3 by {
      assert Rank(95, 5) == 3.8;
    }
    assert Lerp(40.0, 50.0, 0.8) == 48.0;
  }

  /** The last of the ascending values is the maximum. */
  lemma SortedLastIsMax(s: seq<real>)
    requires |s| > 0
    ensures SortAsc(s)[|s| - 1] == MaxOf(s)
  {
    var sorted := SortAsc(s);
    PermutationWithin(s, sorted, |s| - 1);
    assert MaxOf(s) in multiset(sorted);
    var j :| 0 <= j < |sorted| && sorted[j] == MaxOf(s);
  }

  /** The first of the ascending values is the minimum. */
  lemma SortedFirstIsMin(s: seq<real>)
    requires |s| > 0
    ensures SortAsc(s)[0] == MinOf(s)
  {
    var sorted := SortAsc(s);
    PermutationWithin(s, sorted, 0);
    assert MinOf(s) in multiset(sorted);
    var j :| 0 <= j < |sorted| && sorted[j] == MinOf(s);
  }

  /** The 100th percentile is the maximum and the 0th the minimum. */
  lemma PercentileExtremes(vs: seq<real>)
    requires |vs| > 0
    ensures Percentile(vs, 100) == MaxOf(vs)
    ensures Percentile(vs, 0) == MinOf(vs)
  {
    SortedLastIsMax(vs);
    SortedFirstIsMin(vs);
    assert Rank(0, |vs|).Floor == 0;
  }
}
