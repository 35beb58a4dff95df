/** Small numeric building blocks over `real`: maximum, sum and mean of a
    sequence, and the median that `np.median` computes (the middle element of
    the sorted values, or the average of the two middle elements when the
    length is even). */
module Stats {

  function Min(a: int, b: int): (m: int)
    ensures m <= a && m <= b && (m == a || m == b)
  {
    if a <= b then a else b
  }

  function Abs(x: real): (r: real)
    ensures r >= 0.0 && (r == x || r == -x)
  {
    if x < 0.0 then -x else x
  }

  /** Python's `max` over a non-empty list. */
  function Max(s: seq<real>): (m: real)
    requires |s| > 0
    ensures m in s
    ensures forall i :: 0 <= i < |s| ==> s[i] <= m
  {
    if |s| == 1 then s[0]
    else
      var rest := Max(s[1..]);
      assert forall i :: 1 <= i < |s| ==> s[i] == s[1..][i - 1];
      if s[0] >= rest then s[0] else rest
  }

  /** The smallest element of a non-empty list. The pipeline never takes the
      minimum of a list; this is the lower bound in the nominal-capacity
      contract. */
  function Least(s: seq<real>): (m: real)
    requires |s| > 0
    ensures m in s
    ensures forall i :: 0 <= i < |s| ==> m <= s[i]
  {
    if |s| == 1 then s[0]
    else
      var rest := Least(s[1..]);
      assert forall i :: 1 <= i < |s| ==> s[i] == s[1..][i - 1];
      if s[0] <= rest then s[0] else rest
  }

  function Sum(s: seq<real>): real
  {
    if |s| == 0 then 0.0 else Sum(s[..|s| - 1]) + s[|s| - 1]
  }

  /** `np.mean` of a non-empty list. */
  function Mean(s: seq<real>): real
    requires |s| > 0
  {
    Sum(s) / (|s| as real)
  }

  lemma {:induction false} SumBounds(s: seq<real>, lo: real, hi: real)
    requires forall i :: 0 <= i < |s| ==> lo <= s[i] <= hi
    ensures (|s| as real) * lo <= Sum(s) <= (|s| as real) * hi
  {
    if |s| > 0 {
      var init := s[..|s| - 1];
      assert forall i :: 0 <= i < |init| ==> init[i] == s[i];
      SumBounds(init, lo, hi);
      assert Sum(s) == Sum(init) + s[|s| - 1];
      assert (|s| as real) * lo == (|init| as real) * lo + lo;
      assert (|s| as real) * hi == (|init| as real) * hi + hi;
    }
  }

  /** The mean of a non-empty list lies between any bounds of its elements. */
  lemma MeanBounds(s: seq<real>, lo: real, hi: real)
    requires |s| > 0
    requires forall i :: 0 <= i < |s| ==> lo <= s[i] <= hi
    ensures lo <= Mean(s) <= hi
  {
    SumBounds(s, lo, hi);
    var n := |s| as real;
    assert n * lo <= Sum(s) <= n * hi;
    assert Mean(s) * n == Sum(s);
  }

  lemma {:induction false} SumAbove(s: seq<real>, lo: real)
    requires |s| > 0
    requires forall i :: 0 <= i < |s| ==> lo < s[i]
    ensures (|s| as real) * lo < Sum(s)
  {
    if |s| > 1 {
      var init := s[..|s| - 1];
      assert forall i :: 0 <= i < |init| ==> init[i] == s[i];
      SumAbove(init, lo);
      assert Sum(s) == Sum(init) + s[|s| - 1];
      assert (|s| as real) * lo == (|init| as real) * lo + lo;
    }
  }

  /** The mean of a non-empty list that is strictly above `lo` everywhere is strictly above `lo`. */
  lemma MeanAbove(s: seq<real>, lo: real)
    requires |s| > 0
    ensures (forall i :: 0 <= i < |s| ==> lo < s[i]) ==> lo < Mean(s)
  {
    if forall i :: 0 <= i < |s| ==> lo < s[i] {
      SumAbove(s, lo);
      var n := |s| as real;
      assert Mean(s) * n == Sum(s);
    }
  }

  ghost predicate SortedAsc(s: seq<real>)
  {
    forall i, j :: 0 <= i <= j < |s| ==> s[i] <= s[j]
  }

  function Insert(x: real, s: seq<real>): (r: seq<real>)
    requires SortedAsc(s)
    ensures SortedAsc(r)
    ensures multiset(r) == multiset(s) + multiset{x}
  {
    if |s| == 0 then [x]
    else if x <= s[0] then [x] + s
    else
      var tail := Insert(x, s[1..]);
      assert s == [s[0]] + s[1..];
      assert tail[0] in multiset(tail);
      [s[0]] + tail
  }

  /** Insertion sort: ascending and a permutation of the input. */
  function Sort(s: seq<real>): (r: seq<real>)
    ensures SortedAsc(r)
    ensures multiset(r) == multiset(s)
  {
    if |s| == 0 then []
    else
      assert s == s[..|s| - 1] + [s[|s| - 1]];
      Insert(s[|s| - 1], Sort(s[..|s| - 1]))
  }

  /** `np.median` of a non-empty list. */
  function Median(s: seq<real>): real
    requires |s| > 0
  {
    var r := Sort(s);
    assert |r| == |multiset(r)| == |multiset(s)| == |s|;
    if |s| % 2 == 1 then r[|s| / 2]
    else (r[|s| / 2 - 1] + r[|s| / 2]) / 2.0
  }

  /** The median lies between any bounds of the values; in particular the
      median of non-negative values is non-negative. */
  lemma MedianBounds(s: seq<real>, lo: real, hi: real)
    requires |s| > 0
    requires forall i :: 0 <= i < |s| ==> lo <= s[i] <= hi
    ensures lo <= Median(s) <= hi
  {
    var r := Sort(s);
    assert |r| == |multiset(r)| == |multiset(s)| == |s|;
    forall i | 0 <= i < |r|
      ensures lo <= r[i] <= hi
    {
      assert r[i] in multiset(r);
      assert r[i] in multiset(s);
      var j :| 0 <= j < |s| && s[j] == r[i];
    }
  }

  /** The median of one value is that value. */
  lemma MedianSingleton(v: real)
    ensures Median([v]) == v
  {
    assert [v][..0] == [];
    assert Sort([v]) == [v];
  }

  lemma SortedHeadLeast(r: seq<real>, x: real)
    requires SortedAsc(r) && x in r
    ensures r[0] <= x
  {
    var i :| 0 <= i < |r| && r[i] == x;
  }

  lemma SortedTail(r: seq<real>)
    requires SortedAsc(r) && |r| > 0
    ensures SortedAsc(r[1..])
  {
    forall i, j | 0 <= i <= j < |r| - 1
      ensures r[1..][i] <= r[1..][j]
    {
      assert r[1..][i] == r[i + 1] && r[1..][j] == r[j + 1];
    }
  }

  lemma MultisetTail(r: seq<real>)
    requires |r| > 0
    ensures multiset(r) == multiset{r[0]} + multiset(r[1..])
  {
    assert r == [r[0]] + r[1..];
  }

  /** Two ascending orderings of the same values are the same sequence. */
  lemma {:induction false} SortedUnique(r1: seq<real>, r2: seq<real>)
    requires SortedAsc(r1) && SortedAsc(r2)
    requires multiset(r1) == multiset(r2)
    ensures r1 == r2
    decreases |r1|
  {
    assert |r1| == |multiset(r1)| == |multiset(r2)| == |r2|;
    if |r1| > 0 {
      assert r1[0] in multiset(r2) && r2[0] in multiset(r1);
      SortedHeadLeast(r2, r1[0]);
      SortedHeadLeast(r1, r2[0]);
      MultisetTail(r1);
      MultisetTail(r2);
      SortedTail(r1);
      SortedTail(r2);
      assert r1[0] == r2[0];
      assert multiset(r1[1..]) == multiset(r1) - multiset{r1[0]} == multiset(r2[1..]);
      SortedUnique(r1[1..], r2[1..]);
      assert r1 == [r1[0]] + r1[1..] && r2 == [r2[0]] + r2[1..];
    }
  }

  /** The median can be read off any ascending ordering of the values. */
  lemma MedianOfOrdering(s: seq<real>, r: seq<real>)
    requires |s| > 0 && SortedAsc(r) && multiset(r) == multiset(s)
    ensures |r| == |s|
    ensures Median(s) == if |s| % 2 == 1 then r[|s| / 2] else (r[|s| / 2 - 1] + r[|s| / 2]) / 2.0
  {
    assert |r| == |multiset(r)| == |multiset(s)| == |s|;
    SortedUnique(Sort(s), r);
  }
}
