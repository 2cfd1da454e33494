// The median and the median absolute deviation that the match store computes with
// ORDER BY, LIMIT and OFFSET.
module OrderStatistics {
  import opened Common

  // ---------------------------------------------------------------- ORDER BY

  predicate Ascending(s: seq<real>) {
    forall j, k | 0 <= j < k < |s| :: s[j] <= s[k]
  }

  // `sorted` is a result that `ORDER BY` may give for the rows `s`.
  predicate OrderedBy(s: seq<real>, sorted: seq<real>) {
    multiset(s) == multiset(sorted) && Ascending(sorted)
  }

  function Insert(x: real, s: seq<real>): seq<real> {
    if s == [] || x <= s[0] then [x] + s else [s[0]] + Insert(x, s[1..])
  }

  function Sort(s: seq<real>): seq<real> {
    if s == [] then [] else Insert(s[0], Sort(s[1..]))
  }

  lemma {:induction false} InsertAdds(x: real, s: seq<real>)
    ensures multiset(Insert(x, s)) == multiset(s) + multiset{x}
  {
    if s == [] || x <= s[0] {
    } else {
      InsertAdds(x, s[1..]);
      assert s == [s[0]] + s[1..];
    }
  }

  lemma {:induction false} InsertIs(x: real, s: seq<real>)
    requires Ascending(s)
    ensures Ascending(Insert(x, s))
  {
    if s == [] || x <= s[0] {
    } else {
      InsertIs(x, s[1..]);
      var rest := Insert(x, s[1..]);
      forall k | 0 <= k < |rest|
        ensures s[0] <= rest[k]
      {
        InsertAdds(x, s[1..]);
        assert rest[k] in multiset(rest);
        assert rest[k] == x || rest[k] in s[1..];
      }
    }
  }

  lemma {:induction false} SortIs(s: seq<real>)
    ensures OrderedBy(s, Sort(s))
  {
    if s != [] {
      SortIs(s[1..]);
      InsertIs(s[0], Sort(s[1..]));
      InsertAdds(s[0], Sort(s[1..]));
      assert s == [s[0]] + s[1..];
    }
  }

  // ---------------------------------------------------------------- counting

  // How many values are below `v`, or at most `v`.
  function Below(s: seq<real>, v: real): nat {
    if s == [] then 0 else (if s[0] < v then 1 else 0) + Below(s[1..], v)
  }

  function AtMost(s: seq<real>, v: real): nat {
    if s == [] then 0 else (if s[0] <= v then 1 else 0) + AtMost(s[1..], v)
  }

  // The k-th smallest value, by counting and without sorting.
  predicate IsKth(s: seq<real>, k: nat, v: real) {
    v in s && Below(s, v) <= k < AtMost(s, v)
  }

  lemma {:induction false} CountsSplit(a: seq<real>, b: seq<real>, v: real)
    ensures Below(a + b, v) == Below(a, v) + Below(b, v)
    ensures AtMost(a + b, v) == AtMost(a, v) + AtMost(b, v)
  {
    if a == [] {
      assert a + b == b;
    } else {
      CountsSplit(a[1..], b, v);
      assert (a + b)[1..] == a[1..] + b;
    }
  }

  lemma {:induction false} CountsOfMultiset(a: seq<real>, b: seq<real>, v: real)
    requires multiset(a) == multiset(b)
    ensures Below(a, v) == Below(b, v) && AtMost(a, v) == AtMost(b, v)
  {
    if a == [] {
      assert |multiset(b)| == |b|;
    } else {
      var k, rest := Pair(a, b);
      CountsOfMultiset(a[1..], rest, v);
      CountsSplit(b[..k], b[k + 1..], v);
      CountsSplit(b[..k], [b[k]] + b[k + 1..], v);
    }
  }

  lemma {:induction false} BelowMonotone(s: seq<real>, u: real, v: real)
    requires u < v
    ensures AtMost(s, u) <= Below(s, v)
  {
    if s != [] {
      BelowMonotone(s[1..], u, v);
    }
  }

  lemma KthUnique(s: seq<real>, k: nat, u: real, v: real)
    requires IsKth(s, k, u) && IsKth(s, k, v)
    ensures u == v
  {
    if u < v {
      BelowMonotone(s, u, v);
    } else if v < u {
      BelowMonotone(s, v, u);
    }
  }

  lemma {:induction false} CountsAtEnds(s: seq<real>, v: real)
    ensures (forall k | 0 <= k < |s| :: v <= s[k]) ==> Below(s, v) == 0
    ensures (forall k | 0 <= k < |s| :: s[k] <= v) ==> AtMost(s, v) == |s|
    ensures Below(s, v) <= AtMost(s, v) <= |s|
  {
    if s != [] {
      CountsAtEnds(s[1..], v);
      assert forall k | 0 <= k < |s[1..]| :: s[1..][k] == s[k + 1];
    }
  }

  lemma KthOfAscending(s: seq<real>, k: nat)
    requires Ascending(s) && k < |s|
    ensures IsKth(s, k, s[k])
  {
    var v := s[k];
    assert s == s[..k] + s[k..] && s == s[..k + 1] + s[k + 1..];
    CountsSplit(s[..k], s[k..], v);
    CountsSplit(s[..k + 1], s[k + 1..], v);
    CountsAtEnds(s[k..], v);
    CountsAtEnds(s[..k], v);
    CountsAtEnds(s[..k + 1], v);
  }

  // Whatever result ORDER BY gives, its k-th row is the k-th smallest value.
  lemma OrderedKth(s: seq<real>, sorted: seq<real>, k: nat)
    requires OrderedBy(s, sorted) && k < |s|
    ensures |sorted| == |s| && IsKth(s, k, sorted[k])
  {
    assert |multiset(s)| == |s| && |multiset(sorted)| == |sorted|;
    KthOfAscending(sorted, k);
    CountsOfMultiset(s, sorted, sorted[k]);
    assert sorted[k] in multiset(sorted);
  }

  // ---------------------------------------------------------------- the median query

  function Mean(rows: seq<real>): real
    requires |rows| == 1 || |rows| == 2
  {
    if |rows| == 1 then rows[0] else (rows[0] + rows[1]) / 2.0
  }

  // SELECT … ORDER BY … LIMIT 1 or 2 OFFSET (count - 1) / 2, and the mean of what it returns.
  function Query(sorted: seq<real>): real
    requires sorted != []
  {
    var limit := if |sorted| % 2 == 0 then 2 else 1;
    var offset := (|sorted| - 1) / 2;
    Mean(sorted[offset..offset + limit])
  }

  function Median(s: seq<real>): real
    requires s != []
  {
    SortIs(s);
    assert multiset(s) != multiset{} by { assert s[0] in multiset(s); }
    Query(Sort(s))
  }

  // The mean of the two middle order statistics, which coincide for an odd count.
  ghost predicate IsMedian(s: seq<real>, m: real) {
    exists low, high :: Middle(s, low, high) && m == (low + high) / 2.0
  }

  predicate Middle(s: seq<real>, low: real, high: real) {
    |s| > 0 && IsKth(s, (|s| - 1) / 2, low) && IsKth(s, |s| / 2, high)
  }

  // The query computes the median of the group, whatever order the rows are stored in and
  // whichever order ORDER BY gives to equal scores.
  lemma QueryIsMedian(s: seq<real>, sorted: seq<real>)
    requires s != [] && OrderedBy(s, sorted)
    ensures sorted != [] && IsMedian(s, Query(sorted))
  {
    OrderedKth(s, sorted, (|s| - 1) / 2);
    OrderedKth(s, sorted, |s| / 2);
    assert Middle(s, sorted[(|s| - 1) / 2], sorted[|s| / 2]);
  }

  lemma MedianUnique(s: seq<real>, m: real, n: real)
    requires IsMedian(s, m) && IsMedian(s, n)
    ensures m == n
  {
    var a, b :| Middle(s, a, b) && m == (a + b) / 2.0;
    var c, d :| Middle(s, c, d) && n == (c + d) / 2.0;
    KthUnique(s, (|s| - 1) / 2, a, c);
    KthUnique(s, |s| / 2, b, d);
  }

  lemma IsMedianOfMultiset(s: seq<real>, t: seq<real>, m: real)
    requires multiset(s) == multiset(t) && IsMedian(s, m)
    ensures IsMedian(t, m)
  {
    var low, high :| Middle(s, low, high) && m == (low + high) / 2.0;
    assert |multiset(s)| == |s| && |multiset(t)| == |t|;
    CountsOfMultiset(s, t, low);
    CountsOfMultiset(s, t, high);
    assert low in multiset(s) && high in multiset(s);
    assert Middle(t, low, high);
  }

  lemma MedianIs(s: seq<real>)
    requires s != []
    ensures IsMedian(s, Median(s))
  {
    SortIs(s);
    QueryIsMedian(s, Sort(s));
  }

  lemma MedianOfMultiset(s: seq<real>, t: seq<real>)
    requires s != [] && t != [] && multiset(s) == multiset(t)
    ensures Median(s) == Median(t)
  {
    MedianIs(s);
    MedianIs(t);
    IsMedianOfMultiset(s, t, Median(s));
    MedianUnique(t, Median(s), Median(t));
  }

  lemma {:induction false} CountsMonotone(s: seq<real>, u: real, v: real)
    requires u <= v
    ensures AtMost(s, u) <= AtMost(s, v) && Below(s, u) <= Below(s, v)
  {
    if s != [] {
      CountsMonotone(s[1..], u, v);
    }
  }

  lemma MiddleOrdered(s: seq<real>, low: real, high: real)
    requires Middle(s, low, high)
    ensures low <= high
  {
    if high < low {
      BelowMonotone(s, high, low);
    }
  }

  lemma MiddleHalves(s: seq<real>, low: real, high: real, m: real)
    requires Middle(s, low, high) && low <= m <= high
    ensures 2 * AtMost(s, m) >= |s| && 2 * (|s| - Below(s, m)) >= |s|
  {
    CountsMonotone(s, low, m);
    CountsMonotone(s, m, high);
  }

  lemma Halfway(low: real, high: real)
    requires low <= high
    ensures low <= (low + high) / 2.0 <= high
  {
  }

  // At least half of the values lie on either side of the median, and it lies between the
  // smallest and the largest value.
  lemma MedianSplits(s: seq<real>, least: real, greatest: real)
    requires s != [] && forall x | x in s :: least <= x <= greatest
    ensures least <= Median(s) <= greatest
    ensures 2 * AtMost(s, Median(s)) >= |s| && 2 * (|s| - Below(s, Median(s))) >= |s|
  {
    var m := Median(s);
    MedianIs(s);
    var low, high :| Middle(s, low, high) && m == (low + high) / 2.0;
    MiddleOrdered(s, low, high);
    Halfway(low, high);
    MiddleHalves(s, low, high, m);
  }

  function Least(s: seq<real>): (x: real)
    requires s != []
    ensures x in s && forall k | 0 <= k < |s| :: x <= s[k]
  {
    if |s| == 1 then s[0]
    else
      var rest := Least(s[1..]);
      assert forall k | 0 < k < |s| :: s[k] == s[1..][k - 1];
      if s[0] <= rest then s[0] else rest
  }

  function Greatest(s: seq<real>): (x: real)
    requires s != []
    ensures x in s && forall k | 0 <= k < |s| :: s[k] <= x
  {
    if |s| == 1 then s[0]
    else
      var rest := Greatest(s[1..]);
      assert forall k | 0 < k < |s| :: s[k] == s[1..][k - 1];
      if rest <= s[0] then s[0] else rest
  }

  // The median of positive scores is positive, so dividing by it is defined.
  lemma MedianPositive(s: seq<real>)
    requires s != [] && forall x | x in s :: x > 0.0
    ensures 0.0 < Least(s) <= Median(s) <= Greatest(s)
  {
    MedianSplits(s, Least(s), Greatest(s));
  }

  // ---------------------------------------------------------------- the deviation query

  function Abs(x: real): real {
    if x < 0.0 then -x else x
  }

  function Deviations(s: seq<real>, m: real): (d: seq<real>)
    ensures |d| == |s|
  {
    seq(|s|, k requires 0 <= k < |s| => Abs(s[k] - m))
  }

  function MedianDeviation(s: seq<real>): real
    requires s != []
  {
    Median(Deviations(s, Median(s)))
  }

  lemma DeviationsSplit(a: seq<real>, b: seq<real>, m: real)
    ensures Deviations(a + b, m) == Deviations(a, m) + Deviations(b, m)
  {
  }

  lemma {:induction false} DeviationsOfMultiset(s: seq<real>, t: seq<real>, m: real)
    requires multiset(s) == multiset(t)
    ensures multiset(Deviations(s, m)) == multiset(Deviations(t, m))
  {
    if s == [] {
      assert |multiset(t)| == |t|;
    } else {
      var k, rest := Pair(s, t);
      DeviationsOfMultiset(s[1..], rest, m);
      DeviationsSplit([s[0]], s[1..], m);
      DeviationsSplit([t[k]], t[k + 1..], m);
      DeviationsSplit(t[..k], t[k + 1..], m);
      DeviationsSplit(t[..k], [t[k]] + t[k + 1..], m);
    }
  }

  // The deviation query depends on the scores of the group only, is never negative, and at least
  // half of the scores lie within it of the median.
  lemma DeviationOfMultiset(s: seq<real>, t: seq<real>)
    requires s != [] && t != [] && multiset(s) == multiset(t)
    ensures MedianDeviation(s) == MedianDeviation(t)
  {
    MedianOfMultiset(s, t);
    DeviationsOfMultiset(s, t, Median(s));
    MedianOfMultiset(Deviations(s, Median(s)), Deviations(t, Median(s)));
  }

  lemma DeviationCovers(s: seq<real>, greatest: real)
    requires s != [] && forall k | 0 <= k < |s| :: Abs(s[k] - Median(s)) <= greatest
    ensures 0.0 <= MedianDeviation(s) <= greatest
    ensures IsMedian(Deviations(s, Median(s)), MedianDeviation(s))
    ensures 2 * AtMost(Deviations(s, Median(s)), MedianDeviation(s)) >= |s|
  {
    var d := Deviations(s, Median(s));
    MedianIs(d);
    MedianSplits(d, 0.0, greatest);
  }

  // ---------------------------------------------------------------- the target score

  // Lower-is-better scores become targets by division, which is defined on positive medians and
  // turns the order around strictly.
  function Target(scale: real, median: real, higherIsBetter: bool): (target: real)
    requires scale > 0.0 && median > 0.0
    ensures target > 0.0
  {
    if higherIsBetter then median else Quotient(scale, median)
  }

  function Quotient(scale: real, median: real): (q: real)
    requires scale > 0.0 && median > 0.0
    ensures q * median == scale && q > 0.0
  {
    var q := scale / median;
    Divides(scale, median, q);
    q
  }

  lemma Divides(scale: real, median: real, q: real)
    requires scale > 0.0 && median > 0.0 && q == scale / median
    ensures q * median == scale && q > 0.0
  {
    assert q * median == scale;
  }

  // The target on the common scale, by multiplication.
  predicate OnScale(target: real, median: real, scale: real, higherIsBetter: bool) {
    if higherIsBetter then target == median else target * median == scale
  }

  lemma TargetIsOnScale(scale: real, median: real, higherIsBetter: bool)
    requires scale > 0.0 && median > 0.0
    ensures OnScale(Target(scale, median, higherIsBetter), median, scale, higherIsBetter)
  {
  }

  lemma TargetOrder(scale: real, a: real, b: real)
    requires scale > 0.0 && 0.0 < a && 0.0 < b
    ensures a < b <==> Target(scale, a, true) < Target(scale, b, true)
    ensures a < b <==> Target(scale, a, false) > Target(scale, b, false)
  {
    var p, q := Quotient(scale, a), Quotient(scale, b);
    if a < b && p <= q {
      ProductGrows(p, q, a, b);
    }
    if p > q && b <= a {
      ProductGrows(q, p, b, a);
    }
  }

  lemma ProductGrows(p: real, q: real, a: real, b: real)
    requires 0.0 < p <= q && 0.0 < a <= b && (p < q || a < b)
    ensures p * a < q * b
  {
    assert p * a <= p * b;
    assert p * b <= q * b;
    if p < q {
      assert p * b < q * b;
    } else {
      assert p * a < p * b;
    }
  }
}
