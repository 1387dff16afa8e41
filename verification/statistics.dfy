/** Medians, percentiles and the paired bootstrap, over the reals. */
module Statistics {
  import opened Collections

  // ---- Sorting -------------------------------------------------------------------

  function Insert(sorted: seq<real>, x: real): (r: seq<real>)
    ensures |r| == |sorted| + 1 && multiset(r) == multiset(sorted) + multiset{x}
  {
    if sorted == [] || x <= sorted[0] then [x] + sorted
    else
      assert sorted == [sorted[0]] + sorted[1..];
      [sorted[0]] + Insert(sorted[1..], x)
  }

  function Sort(xs: seq<real>): (r: seq<real>)
    ensures |r| == |xs| && multiset(r) == multiset(xs)
  {
    if xs == [] then []
    else
      assert xs == [xs[0]] + xs[1..];
      Insert(Sort(xs[1..]), xs[0])
  }

  predicate Rising(xs: seq<real>)
  {
    forall i, j | 0 <= i < j < |xs| :: xs[i] <= xs[j]
  }

  // Pointwise no greater.
  predicate Below(xs: seq<real>, ys: seq<real>)
  {
    |xs| == |ys| && forall i | 0 <= i < |xs| :: xs[i] <= ys[i]
  }

  lemma {:induction false} InsertRises(sorted: seq<real>, x: real)
    requires Rising(sorted)
    ensures Rising(Insert(sorted, x))
  {
    if sorted != [] && x > sorted[0] {
      InsertRises(sorted[1..], x);
      MembersRise(sorted, x);
      PrependRises(sorted[0], Insert(sorted[1..], x));
    }
  }

  lemma MembersRise(sorted: seq<real>, x: real)
    requires sorted != [] && Rising(sorted) && sorted[0] <= x
    ensures forall y <- Insert(sorted[1..], x) :: sorted[0] <= y
  {
    hide Insert;
    SameMembers(Insert(sorted[1..], x), sorted[1..] + [x]);
  }

  lemma PrependRises(x: real, xs: seq<real>)
    requires Rising(xs) && forall y <- xs :: x <= y
    ensures Rising([x] + xs)
  {
    forall j | 0 < j < |[x] + xs| ensures ([x] + xs)[j] == xs[j - 1] && x <= xs[j - 1] {
      assert xs[j - 1] in xs;
    }
  }

  lemma {:induction false} SortRises(xs: seq<real>)
    ensures Rising(Sort(xs))
  {
    if xs != [] {
      SortRises(xs[1..]);
      InsertRises(Sort(xs[1..]), xs[0]);
    }
  }

  lemma {:induction false} InsertMonotone(a: seq<real>, b: seq<real>, x: real, y: real)
    requires Rising(a) && Rising(b) && Below(a, b) && x <= y
    ensures Below(Insert(a, x), Insert(b, y))
  {
    hide Insert, Below, Rising;
    InsertUnfold(a, x);
    InsertUnfold(b, y);
    SameEmptiness(a, b);
    if a == [] {
      BelowPrepend(x, y, a, b);
    } else {
      Tails(a, b);
      if x <= a[0] && y > b[0] {
        InsertMonotone(a[1..], b[1..], a[0], y);
        FirstStays(a);
        BelowPrepend(x, b[0], a, Insert(b[1..], y));
      } else if x > a[0] && y <= b[0] {
        InsertMonotone(a[1..], b[1..], x, b[0]);
        FirstStays(b);
        BelowPrepend(a[0], y, Insert(a[1..], x), b);
      } else if x > a[0] {
        InsertMonotone(a[1..], b[1..], x, y);
        BelowPrepend(a[0], b[0], Insert(a[1..], x), Insert(b[1..], y));
      } else {
        BelowPrepend(x, y, a, b);
      }
    }
  }

  lemma SameEmptiness(a: seq<real>, b: seq<real>)
    requires Below(a, b)
    ensures a == [] <==> b == []
  {
  }

  lemma Tails(a: seq<real>, b: seq<real>)
    requires Below(a, b) && a != [] && b != [] && Rising(a) && Rising(b)
    ensures Below(a[1..], b[1..]) && Rising(a[1..]) && Rising(b[1..]) && a[0] <= b[0]
  {
  }

  lemma BelowPrepend(x: real, y: real, a: seq<real>, b: seq<real>)
    requires x <= y && Below(a, b)
    ensures Below([x] + a, [y] + b)
  {
  }

  lemma InsertUnfold(sorted: seq<real>, x: real)
    ensures Insert(sorted, x) ==
            if sorted == [] || x <= sorted[0] then [x] + sorted else [sorted[0]] + Insert(sorted[1..], x)
  {
  }

  lemma FirstStays(a: seq<real>)
    requires a != [] && Rising(a)
    ensures Insert(a[1..], a[0]) == a
  {
    if |a| > 1 {
      assert a[0] <= a[1];
    }
  }

  // Raising the values one by one raises every order statistic.
  lemma {:induction false} SortMonotone(xs: seq<real>, ys: seq<real>)
    requires Below(xs, ys)
    ensures Below(Sort(xs), Sort(ys))
  {
    if xs != [] {
      SortMonotone(xs[1..], ys[1..]);
      SortRises(xs[1..]);
      SortRises(ys[1..]);
      InsertMonotone(Sort(xs[1..]), Sort(ys[1..]), xs[0], ys[0]);
    }
  }

  // ---- Median and percentile -------------------------------------------------------

  function Median(xs: seq<real>): real
    requires xs != []
  {
    var s, n := Sort(xs), |xs|;
    if n % 2 == 1 then s[n / 2] else (s[n / 2 - 1] + s[n / 2]) / 2.0
  }

  // There is only one way to sort.
  lemma {:induction false} SortedUnique(a: seq<real>, b: seq<real>)
    requires Rising(a) && Rising(b) && multiset(a) == multiset(b)
    ensures a == b
  {
    hide Rising;
    assert |a| == |multiset(a)| == |multiset(b)| == |b|;
    if a != [] {
      SameFirst(a, b);
      RisingTail(a);
      RisingTail(b);
      assert a == [a[0]] + a[1..] && b == [b[0]] + b[1..];
      assert multiset(a[1..]) == multiset(a) - multiset{a[0]};
      assert multiset(b[1..]) == multiset(b) - multiset{b[0]};
      SortedUnique(a[1..], b[1..]);
    }
  }

  lemma RisingTail(a: seq<real>)
    requires Rising(a) && a != []
    ensures Rising(a[1..]) && forall x <- a :: a[0] <= x
  {
  }

  lemma SameFirst(a: seq<real>, b: seq<real>)
    requires a != [] && b != [] && Rising(a) && Rising(b) && multiset(a) == multiset(b)
    ensures a[0] == b[0]
  {
    hide Rising;
    RisingTail(a);
    RisingTail(b);
    assert a[0] in multiset(b) && b[0] in multiset(a);
    assert a[0] in b && b[0] in a;
  }

  // However the values are put in order, the median is halfway between the middle one from either end.
  lemma MedianIsMiddle(xs: seq<real>, ordered: seq<real>)
    requires xs != [] && Rising(ordered) && multiset(ordered) == multiset(xs)
    ensures |ordered| == |xs|
    ensures Median(xs) == (ordered[(|xs| - 1) / 2] + ordered[|xs| / 2]) / 2.0
  {
    assert |ordered| == |multiset(ordered)| == |multiset(xs)| == |xs|;
    SortRises(xs);
    SortedUnique(Sort(xs), ordered);
  }

  lemma MedianMonotone(xs: seq<real>, ys: seq<real>)
    requires xs != [] && Below(xs, ys)
    ensures Median(xs) <= Median(ys)
  {
    SortMonotone(xs, ys);
  }

  function Times(a: real, b: real): real { a * b }

  function Lerp(a: real, b: real, t: real): real
  {
    a + Times(b - a, t)
  }

  // Between the order statistics on either side of `at`.
  function Interpolate(sorted: seq<real>, at: real): real
    requires sorted != [] && 0.0 <= at <= (|sorted| - 1) as real
  {
    var lo := at.Floor;
    if lo + 1 < |sorted| then Lerp(sorted[lo], sorted[lo + 1], at - lo as real) else sorted[|sorted| - 1]
  }

  // Linear interpolation, numpy's default; `q` is a fraction of 1.
  function Percentile(xs: seq<real>, q: real): real
    requires xs != [] && 0.0 <= q <= 1.0
  {
    PlaceInRange((|xs| - 1) as real, q);
    Interpolate(Sort(xs), Times((|xs| - 1) as real, q))
  }

  lemma PlaceInRange(d: real, t: real)
    requires d >= 0.0 && 0.0 <= t <= 1.0
    ensures 0.0 <= Times(d, t) <= d
  {
    assert d * (1.0 - t) >= 0.0;
  }

  lemma TimesRises(d: real, t: real, u: real)
    requires d >= 0.0 && t <= u
    ensures Times(d, t) <= Times(d, u)
  {
    assert d * (u - t) >= 0.0;
  }

  lemma TimesSplits(a: real, b: real, t: real)
    ensures Times(a - b, t) == Times(a, t) - Times(b, t)
  {
  }

  lemma LerpMonotone(a: real, b: real, a': real, b': real, t: real)
    requires a <= a' && b <= b' && 0.0 <= t <= 1.0
    ensures Lerp(a, b, t) <= Lerp(a', b', t)
  {
    hide Times;
    TimesSplits(b, a, t);
    TimesSplits(b', a', t);
    TimesSplits(b', b, t);
    TimesSplits(a', a, t);
    PlaceInRange(a' - a, t);
    PlaceInRange(b' - b, t);
  }

  lemma LerpBetween(a: real, b: real, t: real)
    requires a <= b && 0.0 <= t <= 1.0
    ensures a <= Lerp(a, b, t) <= b
  {
    hide Times;
    PlaceInRange(b - a, t);
  }

  lemma InterpolateMonotone(s: seq<real>, s': seq<real>, at: real)
    requires s != [] && Below(s, s') && 0.0 <= at <= (|s| - 1) as real
    ensures Interpolate(s, at) <= Interpolate(s', at)
  {
    hide Lerp;
    var lo := at.Floor;
    if lo + 1 < |s| {
      LerpMonotone(s[lo], s[lo + 1], s'[lo], s'[lo + 1], at - lo as real);
    }
  }

  lemma InterpolateBetween(s: seq<real>, at: real)
    requires s != [] && Rising(s) && 0.0 <= at <= (|s| - 1) as real
    ensures var lo := at.Floor;
            lo < |s| && s[lo] <= Interpolate(s, at) && (lo + 1 < |s| ==> Interpolate(s, at) <= s[lo + 1])
            && Interpolate(s, at) <= s[|s| - 1]
  {
    hide Lerp;
    var lo := at.Floor;
    if lo + 1 < |s| {
      assert s[lo] <= s[lo + 1];
      LerpBetween(s[lo], s[lo + 1], at - lo as real);
    }
  }

  lemma InterpolateRises(s: seq<real>, a: real, b: real)
    requires s != [] && Rising(s) && 0.0 <= a <= b <= (|s| - 1) as real
    ensures Interpolate(s, a) <= Interpolate(s, b)
  {
    hide Times;
    InterpolateBetween(s, a);
    InterpolateBetween(s, b);
    var lo := a.Floor;
    if lo == b.Floor && lo + 1 < |s| {
      TimesRises(s[lo + 1] - s[lo], a - lo as real, b - lo as real);
    }
  }

  lemma PercentileMonotone(xs: seq<real>, ys: seq<real>, q: real)
    requires xs != [] && Below(xs, ys) && 0.0 <= q <= 1.0
    ensures Percentile(xs, q) <= Percentile(ys, q)
  {
    hide Times, Interpolate, Sort;
    SortMonotone(xs, ys);
    PlaceInRange((|xs| - 1) as real, q);
    InterpolateMonotone(Sort(xs), Sort(ys), Times((|xs| - 1) as real, q));
  }

  lemma PercentileRises(xs: seq<real>, p: real, q: real)
    requires xs != [] && 0.0 <= p <= q <= 1.0
    ensures Percentile(xs, p) <= Percentile(xs, q)
  {
    hide Times, Interpolate, Sort;
    SortRises(xs);
    PlaceInRange((|xs| - 1) as real, p);
    PlaceInRange((|xs| - 1) as real, q);
    TimesRises((|xs| - 1) as real, p, q);
    InterpolateRises(Sort(xs), Times((|xs| - 1) as real, p), Times((|xs| - 1) as real, q));
  }

  // At a whole place a percentile is the order statistic there.
  lemma PercentileIsOrderStatistic(xs: seq<real>, ordered: seq<real>, q: real, k: nat)
    requires Rising(ordered) && multiset(ordered) == multiset(xs)
    requires k < |xs| && 0.0 <= q <= 1.0 && q * (|xs| - 1) as real == k as real
    ensures |ordered| == |xs| && Percentile(xs, q) == ordered[k]
  {
    assert |ordered| == |multiset(ordered)| == |multiset(xs)| == |xs|;
    SortRises(xs);
    SortedUnique(Sort(xs), ordered);
    AtPlace(Sort(xs), k);
    assert Times((|xs| - 1) as real, q) == k as real;
  }

  // Between two places it lies on the straight line between their order statistics.
  lemma PercentileIsInterpolated(xs: seq<real>, ordered: seq<real>, q: real, k: nat)
    requires Rising(ordered) && multiset(ordered) == multiset(xs)
    requires k + 1 < |xs| && 0.0 <= q <= 1.0 && k as real <= q * (|xs| - 1) as real < (k + 1) as real
    ensures |ordered| == |xs|
    ensures Percentile(xs, q) == ordered[k] + (ordered[k + 1] - ordered[k]) * (q * (|xs| - 1) as real - k as real)
  {
    hide Times, Lerp, Interpolate, Sort, Rising;
    assert |ordered| == |multiset(ordered)| == |multiset(xs)| == |xs|;
    SortRises(xs);
    SortedUnique(Sort(xs), ordered);
    var n := (|xs| - 1) as real;
    PlaceInRange(n, q);
    TimesIs(n, q);
    InterpolateAt(ordered, Times(n, q), k);
    TimesIs(ordered[k + 1] - ordered[k], Times(n, q) - k as real);
  }

  lemma TimesIs(a: real, b: real)
    ensures Times(a, b) == a * b && Times(a, b) == b * a
  {}

  lemma InterpolateAt(sorted: seq<real>, at: real, k: nat)
    requires k + 1 < |sorted| && k as real <= at < (k + 1) as real && at <= (|sorted| - 1) as real
    ensures Interpolate(sorted, at) == sorted[k] + Times(sorted[k + 1] - sorted[k], at - k as real)
  {
    hide Times;
    assert at.Floor == k;
  }

  lemma AtPlace(sorted: seq<real>, k: nat)
    requires k < |sorted|
    ensures Interpolate(sorted, k as real) == sorted[k]
  {
    assert (k as real).Floor == k;
  }

  lemma PercentileBetween(xs: seq<real>, q: real, low: real, high: real)
    requires xs != [] && 0.0 <= q <= 1.0 && forall x <- xs :: low <= x <= high
    ensures low <= Percentile(xs, q) <= high
  {
    hide Times, Interpolate, Sort;
    var s := Sort(xs);
    SortRises(xs);
    SameMembers(s, xs);
    PlaceInRange((|xs| - 1) as real, q);
    var at := Times((|xs| - 1) as real, q);
    InterpolateBetween(s, at);
    assert s[at.Floor] in s && s[|s| - 1] in s;
  }

  // ---- The paired bootstrap -----------------------------------------------------------

  const RESAMPLES: nat := 2000
  const LEVEL: real := 0.95

  // The generator's i-th resample, j-th draw, for `length` values: fixed by the seed, blind to the values.
  type Draws = (nat, nat, nat) -> nat

  ghost predicate InRange(draws: Draws, length: nat)
  {
    forall i: nat, j: nat :: draws(length, i, j) < length
  }

  function Total(xs: seq<real>): real
  {
    if xs == [] then 0.0 else Total(xs[..|xs| - 1]) + xs[|xs| - 1]
  }

  function Mean(xs: seq<real>): real
    requires xs != []
  {
    Total(xs) / |xs| as real
  }

  function Resample(deltas: seq<real>, draws: Draws, i: nat): (r: seq<real>)
    requires InRange(draws, |deltas|)
    ensures |r| == |deltas| && forall j | 0 <= j < |r| :: r[j] == deltas[draws(|deltas|, i, j)]
  {
    seq(|deltas|, j requires 0 <= j < |deltas| => deltas[draws(|deltas|, i, j)])
  }

  function Means(deltas: seq<real>, draws: Draws, n: nat): (r: seq<real>)
    requires deltas != [] && InRange(draws, |deltas|)
    ensures |r| == n && forall i | 0 <= i < n :: r[i] == Mean(Resample(deltas, draws, i))
  {
    seq(n, i requires 0 <= i < n => Mean(Resample(deltas, draws, i)))
  }

  function ConfidenceInterval(deltas: seq<real>, n: nat, level: real, draws: Draws): (real, real)
    requires n > 0 && 0.0 <= level <= 1.0 && InRange(draws, |deltas|)
  {
    if deltas == [] then (0.0, 0.0)
    else
      var (means, alpha) := (Means(deltas, draws, n), (1.0 - level) / 2.0);
      (Percentile(means, alpha), Percentile(means, 1.0 - alpha))
  }

  method BootstrapCi(deltas: seq<real>, n: nat, level: real, draws: Draws) returns (lower: real, upper: real)
    requires n > 0 && 0.0 <= level <= 1.0 && InRange(draws, |deltas|)
    ensures (lower, upper) == ConfidenceInterval(deltas, n, level, draws)
    ensures deltas == [] ==> lower == upper == 0.0
  {
    hide Mean, Percentile;
    if deltas == [] {
      return 0.0, 0.0;
    }
    var means := new real[n];
    for i := 0 to n
      invariant forall k | 0 <= k < i :: means[k] == Mean(Resample(deltas, draws, k))
    {
      means[i] := Mean(Resample(deltas, draws, i));
    }
    assert means[..] == Means(deltas, draws, n);
    var alpha := (1.0 - level) / 2.0;
    lower := Percentile(means[..], alpha);
    upper := Percentile(means[..], 1.0 - alpha);
  }

  lemma {:induction false} TotalMonotone(xs: seq<real>, ys: seq<real>)
    requires Below(xs, ys)
    ensures Total(xs) <= Total(ys)
  {
    if xs != [] {
      TotalMonotone(xs[..|xs| - 1], ys[..|ys| - 1]);
    }
  }

  lemma {:induction false} TotalBetween(xs: seq<real>, low: real, high: real)
    requires forall x <- xs :: low <= x <= high
    ensures low * |xs| as real <= Total(xs) <= high * |xs| as real
  {
    if xs != [] {
      var init, last := xs[..|xs| - 1], xs[|xs| - 1];
      assert last in xs;
      forall x | x in init ensures low <= x <= high { assert x in xs; }
      TotalBetween(init, low, high);
      assert low * |xs| as real == low * |init| as real + low;
      assert high * |xs| as real == high * |init| as real + high;
    }
  }

  lemma Divided(a: real, b: real, n: real)
    requires n > 0.0
    ensures a <= b ==> a / n <= b / n
    ensures (a * n) / n == a
  {
  }

  lemma MeanMonotone(xs: seq<real>, ys: seq<real>)
    requires xs != [] && Below(xs, ys)
    ensures Mean(xs) <= Mean(ys)
  {
    TotalMonotone(xs, ys);
    Divided(Total(xs), Total(ys), |xs| as real);
  }

  lemma MeanBetween(xs: seq<real>, low: real, high: real)
    requires xs != [] && forall x <- xs :: low <= x <= high
    ensures low <= Mean(xs) <= high
  {
    TotalBetween(xs, low, high);
    var n := |xs| as real;
    Divided(low * n, Total(xs), n);
    Divided(Total(xs), high * n, n);
    Divided(low, low, n);
    Divided(high, high, n);
  }

  // However the 2000 resample means are put in order, the ends of the 95% interval are a fortieth of the way short of the
  // 51st and a fortieth of the way past the 1950th.
  lemma IntervalEnds(deltas: seq<real>, draws: Draws, ordered: seq<real>)
    requires deltas != [] && InRange(draws, |deltas|)
    requires Rising(ordered) && multiset(ordered) == multiset(Means(deltas, draws, 2000))
    ensures |ordered| == 2000
    ensures ConfidenceInterval(deltas, 2000, 0.95, draws)
            == (0.025 * ordered[49] + 0.975 * ordered[50], 0.975 * ordered[1949] + 0.025 * ordered[1950])
  {
    hide Percentile, Means, Rising;
    var means := Means(deltas, draws, 2000);
    assert |ordered| == |multiset(ordered)| == |multiset(means)| == 2000;
    PercentileIsInterpolated(means, ordered, 0.025, 49);
    PercentileIsInterpolated(means, ordered, 0.975, 1949);
    assert 0.025 * 1999.0 == 49.975 && 0.975 * 1999.0 == 1949.025;
  }

  // With the same seed, raising the deltas raises both ends of the interval.
  lemma IntervalMonotone(xs: seq<real>, ys: seq<real>, n: nat, level: real, draws: Draws)
    requires Below(xs, ys) && n > 0 && 0.0 <= level <= 1.0 && InRange(draws, |xs|)
    ensures ConfidenceInterval(xs, n, level, draws).0 <= ConfidenceInterval(ys, n, level, draws).0
    ensures ConfidenceInterval(xs, n, level, draws).1 <= ConfidenceInterval(ys, n, level, draws).1
  {
    hide Mean, Percentile;
    if xs != [] {
      forall i | 0 <= i < n ensures Means(xs, draws, n)[i] <= Means(ys, draws, n)[i] {
        MeanMonotone(Resample(xs, draws, i), Resample(ys, draws, i));
      }
      var alpha := (1.0 - level) / 2.0;
      PercentileMonotone(Means(xs, draws, n), Means(ys, draws, n), alpha);
      PercentileMonotone(Means(xs, draws, n), Means(ys, draws, n), 1.0 - alpha);
    }
  }

  // Whatever is drawn, both ends stay between the least and the greatest delta.
  lemma IntervalBetween(deltas: seq<real>, n: nat, level: real, draws: Draws, low: real, high: real)
    requires deltas != [] && n > 0 && 0.0 <= level <= 1.0 && InRange(draws, |deltas|)
    requires forall d <- deltas :: low <= d <= high
    ensures var (lower, upper) := ConfidenceInterval(deltas, n, level, draws);
            low <= lower <= high && low <= upper <= high
  {
    hide Mean, Percentile;
    var means := Means(deltas, draws, n);
    forall m | m in means ensures low <= m <= high {
      var i :| 0 <= i < n && means[i] == m;
      ResampleBetween(deltas, draws, i, low, high);
      MeanBetween(Resample(deltas, draws, i), low, high);
    }
    var alpha := (1.0 - level) / 2.0;
    PercentileBetween(means, alpha, low, high);
    PercentileBetween(means, 1.0 - alpha, low, high);
  }

  lemma ResampleBetween(deltas: seq<real>, draws: Draws, i: nat, low: real, high: real)
    requires InRange(draws, |deltas|) && forall d <- deltas :: low <= d <= high
    ensures forall x <- Resample(deltas, draws, i) :: low <= x <= high
  {
    forall x | x in Resample(deltas, draws, i) ensures low <= x <= high {
      var j :| 0 <= j < |deltas| && Resample(deltas, draws, i)[j] == x;
      assert deltas[draws(|deltas|, i, j)] in deltas;
    }
  }

  // The interval is never inside out.
  lemma IntervalOrdered(deltas: seq<real>, n: nat, level: real, draws: Draws)
    requires n > 0 && 0.0 <= level <= 1.0 && InRange(draws, |deltas|)
    ensures ConfidenceInterval(deltas, n, level, draws).0 <= ConfidenceInterval(deltas, n, level, draws).1
  {
    hide Mean, Percentile;
    if deltas != [] {
      var alpha := (1.0 - level) / 2.0;
      PercentileRises(Means(deltas, draws, n), alpha, 1.0 - alpha);
    }
  }
}
