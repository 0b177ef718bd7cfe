/** Statistics over lists of similarities, written out over `seq<real>`.

    These are the reductions the scorers apply: Python's `max`,
    `statistics.mean`, numpy's default ("linear") percentile, and the mean of
    the elements at or above a threshold. Values are mathematical reals. */
module Stats {

  /** Sum of the elements, folded from the front. */
  function Sum(s: seq<real>): real
  {
    if |s| == 0 then 0.0 else s[0] + Sum(s[1..])
  }

  /** Every element is at least `lo`. */
  predicate AllAtLeast(s: seq<real>, lo: real)
  {
    forall i :: 0 <= i < |s| ==> lo <= s[i]
  }

  /** Every element is at most `hi`. */
  predicate AllAtMost(s: seq<real>, hi: real)
  {
    forall i :: 0 <= i < |s| ==> s[i] <= hi
  }

  /** Every element lies in the closed interval [lo, hi]. */
  predicate Within(s: seq<real>, lo: real, hi: real)
  {
    AllAtLeast(s, lo) && AllAtMost(s, hi)
  }

  /** Largest element (Python's `max` on a non-empty list). */
  function MaxOf(s: seq<real>): (m: real)
    requires |s| > 0
    ensures m in s
    ensures forall i :: 0 <= i < |s| ==> s[i] <= m
  {
    if |s| == 1 then s[0]
    else
      var rest := MaxOf(s[1..]);
      if s[0] >= rest then s[0] else rest
  }

  /** Smallest element. */
  function MinOf(s: seq<real>): (m: real)
    requires |s| > 0
    ensures m in s
    ensures forall i :: 0 <= i < |s| ==> m <= s[i]
  {
    if |s| == 1 then s[0]
    else
      var rest := MinOf(s[1..]);
      if s[0] <= rest then s[0] else rest
  }

  /** Multiplying both sides by a non-negative factor keeps `<=`. */
  lemma MulMonotone(a: real, b: real, k: real)
    requires a <= b && 0.0 <= k
    ensures a * k <= b * k
  {
  }

  /** Dividing both sides by a positive factor keeps `<=`. */
  lemma CancelLe(a: real, b: real, k: real)
    requires k > 0.0 && a * k <= b * k
    ensures a <= b
  {
  }

  /** Arithmetic mean (`statistics.mean` / `numpy.mean` in exact arithmetic). */
  function Mean(s: seq<real>): real
    requires |s| > 0
  {
    Sum(s) / |s| as real
  }

  /** Sum of the deviations x - m of the elements from a reference value m. */
  function Deviation(s: seq<real>, m: real): real
  {
    if |s| == 0 then 0.0 else (s[0] - m) + Deviation(s[1..], m)
  }

  /** The deviations from m sum to the total minus n * m. */
  lemma {:induction false} DeviationIsSumMinus(s: seq<real>, m: real)
    ensures Deviation(s, m) == Sum(s) - m * |s| as real
  {
    if |s| > 0 {
      DeviationIsSumMinus(s[1..], m);
      assert m * |s| as real == m * (|s| - 1) as real + m;
    }
  }

  /** The mean is at most m exactly when the deviations from m sum to at most
      zero, and at least m exactly when they sum to at least zero. */
  lemma MeanVersusDeviation(s: seq<real>, m: real)
    requires |s| > 0
    ensures Mean(s) <= m <==> Deviation(s, m) <= 0.0
    ensures m <= Mean(s) <==> 0.0 <= Deviation(s, m)
  {
    DeviationIsSumMinus(s, m);
    QuotientCompare(Sum(s), |s| as real, m);
  }

  /** Comparing a quotient x / n (n > 0) with m is comparing x with m * n. */
  lemma QuotientCompare(x: real, n: real, m: real)
    requires n > 0.0
    ensures x / n <= m <==> x <= m * n
    ensures m <= x / n <==> m * n <= x
  {
    if x / n <= m { QuotientAtMost(x, n, m); }
    if m <= x / n { QuotientAtLeast(x, n, m); }
    if x <= m * n { AtMostQuotient(x, n, m); }
    if m * n <= x { AtLeastQuotient(x, n, m); }
  }

  lemma QuotientTimes(x: real, n: real)
    requires n > 0.0
    ensures (x / n) * n == x
  {
  }

  lemma QuotientAtMost(x: real, n: real, m: real)
    requires n > 0.0 && x / n <= m
    ensures x <= m * n
  {
    QuotientTimes(x, n);
    MulMonotone(x / n, m, n);
  }

  lemma QuotientAtLeast(x: real, n: real, m: real)
    requires n > 0.0 && m <= x / n
    ensures m * n <= x
  {
    QuotientTimes(x, n);
    MulMonotone(m, x / n, n);
  }

  lemma AtMostQuotient(x: real, n: real, m: real)
    requires n > 0.0 && x <= m * n
    ensures x / n <= m
  {
    var q := x / n;
    QuotientTimes(x, n);
    assert q * n <= m * n;
    CancelLe(q, m, n);
  }

  lemma AtLeastQuotient(x: real, n: real, m: real)
    requires n > 0.0 && m * n <= x
    ensures m <= x / n
  {
    var q := x / n;
    QuotientTimes(x, n);
    assert m * n <= q * n;
    CancelLe(m, q, n);
  }

  /** Deviations from an upper bound sum to at most zero; from a lower bound,
      to at least zero. */
  lemma {:induction false} DeviationSign(s: seq<real>, m: real)
    ensures AllAtMost(s, m) ==> Deviation(s, m) <= 0.0
    ensures AllAtLeast(s, m) ==> 0.0 <= Deviation(s, m)
  {
    if |s| > 0 {
      DeviationSign(s[1..], m);
      assert forall i :: 0 <= i < |s| - 1 ==> s[1..][i] == s[i + 1];
    }
  }

  /** If every element lies in [lo, hi], so does the mean. */
  lemma MeanWithin(s: seq<real>, lo: real, hi: real)
    requires |s| > 0
    requires Within(s, lo, hi)
    ensures lo <= Mean(s) <= hi
  {
    DeviationSign(s, lo);
    DeviationSign(s, hi);
    MeanVersusDeviation(s, lo);
    MeanVersusDeviation(s, hi);
  }

  /** The mean lies between the smallest and the largest element. */
  lemma MeanBetweenMinMax(s: seq<real>)
    requires |s| > 0
    ensures MinOf(s) <= Mean(s) <= MaxOf(s)
  {
    MeanWithin(s, MinOf(s), MaxOf(s));
  }

  // ---------------------------------------------------------------------
  // Sorting (numpy sorts a copy before reading order statistics)
  // ---------------------------------------------------------------------

  /** Ascending order. */
  predicate Sorted(s: seq<real>)
  {
    forall i, j :: 0 <= i <= j < |s| ==> s[i] <= s[j]
  }

  /** Insert `x` into an ascending sequence. */
  function Insert(x: real, s: seq<real>): (r: seq<real>)
    requires Sorted(s)
    ensures Sorted(r)
    ensures multiset(r) == multiset(s) + multiset{x}
    ensures |r| == |s| + 1
  {
    if |s| == 0 then [x]
    else if x <= s[0] then [x] + s
    else
      var tail := Insert(x, s[1..]);
      assert s == [s[0]] + s[1..];
      BoundedByHead(s, x, tail);
      ConsSorted(s[0], tail);
      [s[0]] + tail
  }

  /** A head no larger than any element of an ascending tail keeps it ascending. */
  lemma ConsSorted(h: real, t: seq<real>)
    requires Sorted(t) && forall k :: 0 <= k < |t| ==> h <= t[k]
    ensures Sorted([h] + t)
  {
    var r := [h] + t;
    forall i, j | 0 <= i <= j < |r| ensures r[i] <= r[j] {
      if i > 0 {
        assert r[i] == t[i - 1] && r[j] == t[j - 1];
      } else {
        assert r[j] == h || r[j] == t[j - 1];
      }
    }
  }

  /** When `x` is above the head of a sorted `s`, every element of a
      permutation of the rest of `s` plus `x` is at least that head. */
  lemma BoundedByHead(s: seq<real>, x: real, t: seq<real>)
    requires Sorted(s) && |s| > 0 && s[0] < x
    requires multiset(t) == multiset(s[1..]) + multiset{x}
    ensures forall k :: 0 <= k < |t| ==> s[0] <= t[k]
  {
    forall k | 0 <= k < |t| ensures s[0] <= t[k] {
      assert t[k] in multiset(t);
      if t[k] != x {
        assert t[k] in multiset(s[1..]);
        var j :| 0 <= j < |s[1..]| && s[1..][j] == t[k];
        assert s[j + 1] == t[k];
      }
    }
  }

  /** A sorted permutation of `s` (insertion sort). */
  function Sort(s: seq<real>): (r: seq<real>)
    ensures Sorted(r)
    ensures multiset(r) == multiset(s)
    ensures |r| == |s|
  {
    if |s| == 0 then []
    else
      assert s == [s[0]] + s[1..];
      Insert(s[0], Sort(s[1..]))
  }

  /** Every element of the sorted copy lies between the minimum and the maximum. */
  lemma SortWithin(s: seq<real>)
    requires |s| > 0
    ensures Within(Sort(s), MinOf(s), MaxOf(s))
  {
    var v := Sort(s);
    forall i | 0 <= i < |v| ensures MinOf(s) <= v[i] <= MaxOf(s) {
      assert v[i] in multiset(v);
      assert v[i] in s;
    }
  }

  // ---------------------------------------------------------------------
  // numpy's default percentile
  // ---------------------------------------------------------------------

  /** Index of the lower order statistic for percentile `p` of `n` values:
      floor of the virtual index (n-1)*p/100. */
  function LowerIndex(n: nat, p: real): (k: nat)
    requires n > 0 && 0.0 <= p <= 100.0
    ensures k < n
    ensures k as real <= VirtualIndex(n, p) < k as real + 1.0
  {
    var h := VirtualIndex(n, p);
    h.Floor
  }

  /** numpy's "linear" virtual index (n-1)*p/100, which lies in [0, n-1]. */
  function VirtualIndex(n: nat, p: real): (h: real)
    requires n > 0 && 0.0 <= p <= 100.0
    ensures 0.0 <= h <= (n - 1) as real
  {
    var m := (n - 1) as real;
    var t := p / 100.0;
    FractionOf(t, m);
    t * m
  }

  /** A fraction t in [0, 1] of a non-negative m lies in [0, m]. */
  lemma FractionOf(t: real, m: real)
    requires 0.0 <= t <= 1.0 && 0.0 <= m
    ensures 0.0 <= t * m <= m
  {
    MulMonotone(0.0, t, m);
    MulMonotone(t, 1.0, m);
  }

  /** Index of the upper order statistic: one past the lower, clamped to the last. */
  function UpperIndex(n: nat, p: real): (k: nat)
    requires n > 0 && 0.0 <= p <= 100.0
    ensures LowerIndex(n, p) <= k < n
    ensures k == LowerIndex(n, p) + 1 || k == LowerIndex(n, p) == n - 1
  {
    var lo := LowerIndex(n, p);
    if lo + 1 < n then lo + 1 else n - 1
  }

  /** The point a fraction `t` of the way from `a` to `b`. */
  function Lerp(a: real, b: real, t: real): real
  {
    a + (b - a) * t
  }

  /** Linear interpolation at percentile `p` over an ascending list: between
      the order statistics at floor(h) and floor(h)+1 (clamped to the last
      index), h = (n-1)p/100. */
  function Interpolate(v: seq<real>, p: real): real
    requires |v| > 0 && 0.0 <= p <= 100.0
  {
    var n := |v|;
    var lo := LowerIndex(n, p);
    Lerp(v[lo], v[UpperIndex(n, p)], VirtualIndex(n, p) - lo as real)
  }

  /** Percentile `p` (0..100) as numpy computes it by default: sort, then
      interpolate linearly. */
  function Percentile(s: seq<real>, p: real): real
    requires |s| > 0 && 0.0 <= p <= 100.0
  {
    Interpolate(Sort(s), p)
  }

  /** Interpolating between a <= b with weight t in [0, 1] stays in [a, b]. */
  lemma LerpWithin(a: real, b: real, t: real)
    requires a <= b && 0.0 <= t <= 1.0
    ensures a <= Lerp(a, b, t) <= b
  {
    var d := b - a;
    FractionOf(t, d);
    assert d * t == t * d;
    assert Lerp(a, b, t) == a + d * t;
  }

  /** Interpolating between a <= b grows with the weight. */
  lemma LerpMonotone(a: real, b: real, t: real, u: real)
    requires a <= b && t <= u
    ensures Lerp(a, b, t) <= Lerp(a, b, u)
  {
    var d := b - a;
    MulMonotone(t, u, d);
    assert d * t == t * d && d * u == u * d;
    assert Lerp(a, b, t) == a + d * t && Lerp(a, b, u) == a + d * u;
  }

  /** On an ascending list, the interpolated value lies between the two order
      statistics it interpolates. */
  lemma InterpolateBetween(v: seq<real>, p: real)
    requires |v| > 0 && 0.0 <= p <= 100.0
    requires Sorted(v)
    ensures v[LowerIndex(|v|, p)] <= Interpolate(v, p) <= v[UpperIndex(|v|, p)]
  {
    var n := |v|;
    var lo := LowerIndex(n, p);
    LerpWithin(v[lo], v[UpperIndex(n, p)], VirtualIndex(n, p) - lo as real);
  }

  /** On an ascending list, the interpolated value lies between the first and
      last elements. */
  lemma InterpolateWithin(v: seq<real>, p: real)
    requires |v| > 0 && 0.0 <= p <= 100.0
    requires Sorted(v)
    ensures v[0] <= Interpolate(v, p) <= v[|v| - 1]
  {
    InterpolateBetween(v, p);
  }

  /** On an ascending list, interpolation is monotone in `p`. */
  lemma InterpolateMonotone(v: seq<real>, p: real, q: real)
    requires |v| > 0 && 0.0 <= p <= q <= 100.0
    requires Sorted(v)
    ensures Interpolate(v, p) <= Interpolate(v, q)
  {
    var n := |v|;
    VirtualIndexMonotone(n, p, q);
    var lp := LowerIndex(n, p);
    var lq := LowerIndex(n, q);
    if lp == lq {
      LerpMonotone(v[lp], v[UpperIndex(n, p)], VirtualIndex(n, p) - lp as real, VirtualIndex(n, q) - lq as real);
    } else {
      assert (lp as real) < (lq as real) + 1.0;
      InterpolateBetween(v, p);
      InterpolateBetween(v, q);
      assert UpperIndex(n, p) <= lq;
    }
  }

  /** The virtual index grows with `p`. */
  lemma VirtualIndexMonotone(n: nat, p: real, q: real)
    requires n > 0 && 0.0 <= p <= q <= 100.0
    ensures VirtualIndex(n, p) <= VirtualIndex(n, q)
  {
    var m := (n - 1) as real;
    var t := p / 100.0;
    var u := q / 100.0;
    VirtualIndexIs(n, p);
    VirtualIndexIs(n, q);
    MulMonotone(t, u, m);
    assert VirtualIndex(n, p) == t * m && VirtualIndex(n, q) == u * m;
  }

  /** The virtual index is the fraction p/100 of the last position. */
  lemma VirtualIndexIs(n: nat, p: real)
    requires n > 0 && 0.0 <= p <= 100.0
    ensures VirtualIndex(n, p) == (p / 100.0) * (n - 1) as real
  {
  }

  /** A percentile lies between the minimum and the maximum of the list. */
  lemma PercentileWithin(s: seq<real>, p: real)
    requires |s| > 0 && 0.0 <= p <= 100.0
    ensures MinOf(s) <= Percentile(s, p) <= MaxOf(s)
  {
    var v := Sort(s);
    SortWithin(s);
    InterpolateWithin(v, p);
    assert MinOf(s) <= v[0] && v[|v| - 1] <= MaxOf(s);
  }

  /** When the virtual index lands on a whole position k, the percentile is the
      k-th smallest element; in particular the 0th percentile is the minimum
      and the 100th the maximum. */
  lemma PercentileAtIndex(s: seq<real>, p: real, k: nat)
    requires |s| > 0 && 0.0 <= p <= 100.0
    requires VirtualIndex(|s|, p) == k as real
    ensures k < |s| && Percentile(s, p) == Sort(s)[k]
  {
    var v := Sort(s);
    var h := VirtualIndex(|s|, p);
    assert h.Floor == k;
    assert LowerIndex(|s|, p) == k;
    var hi := UpperIndex(|s|, p);
    assert Interpolate(v, p) == Lerp(v[k], v[hi], 0.0);
    LerpAtZero(v[k], v[hi]);
  }

  lemma LerpAtZero(a: real, b: real)
    ensures Lerp(a, b, 0.0) == a
  {
  }

  lemma PercentileEnds(s: seq<real>)
    requires |s| > 0
    ensures Percentile(s, 0.0) == MinOf(s)
    ensures Percentile(s, 100.0) == MaxOf(s)
  {
    PercentileAtIndex(s, 0.0, 0);
    PercentileAtIndex(s, 100.0, |s| - 1);
    SortEnds(s);
  }

  /** The first element of the sorted copy is the minimum and the last the maximum. */
  lemma SortEnds(s: seq<real>)
    requires |s| > 0
    ensures Sort(s)[0] == MinOf(s) && Sort(s)[|s| - 1] == MaxOf(s)
  {
    SortedEnds(Sort(s), s);
  }

  /** Any ascending permutation of `s` starts with its minimum and ends with its maximum. */
  lemma SortedEnds(v: seq<real>, s: seq<real>)
    requires |s| > 0 && Sorted(v) && multiset(v) == multiset(s)
    ensures |v| == |s| && v[0] == MinOf(s) && v[|v| - 1] == MaxOf(s)
  {
    assert |v| == |multiset(v)| == |s|;
    var lo := MinOf(s);
    var hi := MaxOf(s);
    assert lo in multiset(s) && hi in multiset(s);
    assert lo in v && hi in v;
    var a :| 0 <= a < |v| && v[a] == lo;
    var b :| 0 <= b < |v| && v[b] == hi;
    assert v[0] in multiset(s) && v[|v| - 1] in multiset(s);
    assert v[0] in s && v[|v| - 1] in s;
    assert v[0] <= v[a] && v[b] <= v[|v| - 1];
  }

  /** A larger `p` never gives a smaller percentile (so the 90th is at least the 75th). */
  lemma PercentileMonotone(s: seq<real>, p: real, q: real)
    requires |s| > 0 && 0.0 <= p <= q <= 100.0
    ensures Percentile(s, p) <= Percentile(s, q)
  {
    InterpolateMonotone(Sort(s), p, q);
  }

  // ---------------------------------------------------------------------
  // Upper tail: `arr[arr >= threshold]`
  // ---------------------------------------------------------------------

  /** The elements at or above `c`, in their original order. */
  function AtLeast(s: seq<real>, c: real): (r: seq<real>)
    ensures |r| <= |s|
    ensures forall i :: 0 <= i < |r| ==> c <= r[i] && r[i] in s
  {
    if |s| == 0 then []
    else if s[0] >= c then [s[0]] + AtLeast(s[1..], c)
    else AtLeast(s[1..], c)
  }

  /** The elements strictly below `c`, in their original order. */
  function Below(s: seq<real>, c: real): seq<real>
  {
    if |s| == 0 then []
    else if s[0] >= c then Below(s[1..], c)
    else [s[0]] + Below(s[1..], c)
  }

  /** `AtLeast` keeps exactly the elements at or above the threshold, and
      `Below` exactly those under it. */
  lemma {:induction false} AtLeastMembers(s: seq<real>, c: real)
    ensures forall x :: x in AtLeast(s, c) <==> x in s && x >= c
    ensures forall x :: x in Below(s, c) <==> x in s && x < c
  {
    if |s| > 0 {
      AtLeastMembers(s[1..], c);
      assert s == [s[0]] + s[1..];
      assert forall x :: x in s <==> x == s[0] || x in s[1..];
    }
  }

  /** `AtLeast` and `Below` split the list's length and sum. */
  lemma {:induction false} AtLeastSplits(s: seq<real>, c: real)
    ensures |AtLeast(s, c)| + |Below(s, c)| == |s|
    ensures Sum(AtLeast(s, c)) + Sum(Below(s, c)) == Sum(s)
  {
    if |s| > 0 {
      AtLeastSplits(s[1..], c);
    }
  }

  /** The tail at or above any threshold not above the maximum is non-empty. */
  lemma AtLeastNonEmpty(s: seq<real>, c: real)
    requires |s| > 0 && c <= MaxOf(s)
    ensures |AtLeast(s, c)| > 0
    ensures MaxOf(s) in AtLeast(s, c)
  {
    AtLeastMembers(s, c);
  }

  /** Filtering at `a` and then at `b >= a` is filtering at `b`. */
  lemma {:induction false} AtLeastTwice(s: seq<real>, a: real, b: real)
    requires a <= b
    ensures AtLeast(AtLeast(s, a), b) == AtLeast(s, b)
  {
    if |s| > 0 {
      AtLeastTwice(s[1..], a, b);
      if s[0] >= a {
        assert AtLeast(s, a)[1..] == AtLeast(s[1..], a);
      }
    }
  }

  /** Splitting at a threshold splits the deviations from any reference value. */
  lemma {:induction false} DeviationSplits(s: seq<real>, c: real, m: real)
    ensures Deviation(AtLeast(s, c), m) + Deviation(Below(s, c), m) == Deviation(s, m)
  {
    if |s| > 0 {
      DeviationSplits(s[1..], c, m);
      if s[0] >= c {
        assert AtLeast(s, c)[1..] == AtLeast(s[1..], c);
      } else {
        assert Below(s, c)[1..] == Below(s[1..], c);
      }
    }
  }

  /** The mean of a non-empty upper tail is at least the mean of the whole list. */
  lemma TailMeanAtLeastMean(s: seq<real>, c: real)
    requires |AtLeast(s, c)| > 0
    ensures |s| > 0
    ensures Mean(s) <= Mean(AtLeast(s, c))
  {
    AtLeastSplits(s, c);
    var top := AtLeast(s, c);
    var low := Below(s, c);
    var m := Mean(top);
    // the kept elements are all at least c, so their mean m is too
    assert AllAtLeast(top, c) by {
      AtLeastMembers(s, c);
      forall i | 0 <= i < |top| ensures c <= top[i] {
        assert top[i] in top;
      }
    }
    DeviationSign(top, c);
    MeanVersusDeviation(top, c);
    // the kept elements deviate from their own mean by zero in total
    MeanVersusDeviation(top, m);
    // the dropped elements are all below c <= m
    assert AllAtMost(low, m) by {
      AtLeastMembers(s, c);
      forall i | 0 <= i < |low| ensures low[i] <= m {
        assert low[i] in low;
      }
    }
    DeviationSign(low, m);
    DeviationSplits(s, c, m);
    MeanVersusDeviation(s, m);
  }

  /** Mean of the elements at or above the `p`-th percentile: the reduction of
      the `upper_cuartile` (p = 75) and `upper_decile` (p = 90) scorers. */
  function UpperMean(s: seq<real>, p: real): real
    requires |s| > 0 && 0.0 <= p <= 100.0
  {
    PercentileWithin(s, p);
    AtLeastNonEmpty(s, Percentile(s, p));
    Mean(AtLeast(s, Percentile(s, p)))
  }

  /** The upper mean lies between its percentile and the maximum. */
  lemma UpperMeanWithin(s: seq<real>, p: real)
    requires |s| > 0 && 0.0 <= p <= 100.0
    ensures Percentile(s, p) <= UpperMean(s, p) <= MaxOf(s)
  {
    var c := Percentile(s, p);
    var top := AtLeast(s, c);
    PercentileWithin(s, p);
    AtLeastNonEmpty(s, c);
    AtLeastMembers(s, c);
    assert Within(top, c, MaxOf(s)) by {
      forall i | 0 <= i < |top| ensures c <= top[i] <= MaxOf(s) {
        assert top[i] in top;
      }
    }
    MeanWithin(top, c, MaxOf(s));
  }

  /** The upper mean is at least the plain mean. */
  lemma UpperMeanAtLeastMean(s: seq<real>, p: real)
    requires |s| > 0 && 0.0 <= p <= 100.0
    ensures Mean(s) <= UpperMean(s, p)
  {
    PercentileWithin(s, p);
    AtLeastNonEmpty(s, Percentile(s, p));
    TailMeanAtLeastMean(s, Percentile(s, p));
  }

  /** A higher percentile gives an upper mean at least as large: the tail
      above the higher percentile is the upper tail of the lower one's tail. */
  lemma UpperMeanMonotone(s: seq<real>, p: real, q: real)
    requires |s| > 0 && 0.0 <= p <= q <= 100.0
    ensures UpperMean(s, p) <= UpperMean(s, q)
  {
    var cp := Percentile(s, p);
    var cq := Percentile(s, q);
    PercentileMonotone(s, p, q);
    PercentileWithin(s, q);
    AtLeastNonEmpty(s, cq);
    AtLeastTwice(s, cp, cq);
    TailMeanAtLeastMean(AtLeast(s, cp), cq);
  }
}
