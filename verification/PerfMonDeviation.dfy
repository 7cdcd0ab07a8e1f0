/** How far the running variance of the monitoring records, kept in whole numbers, is from the sum of
    the squared deviations of the samples from their mean. */
module PerfMonDeviation {
  import opened Arith
  import opened PerfMon

  function Times(a: real, b: real): real { a * b }

  function Mean(xs: seq<int>): real
    requires xs != []
  {
    Sum(xs) as real / |xs| as real
  }

  /** The sum of the squared deviations from mu. */
  function Deviations(xs: seq<int>, mu: real): real {
    if xs == [] then 0.0
    else
      Deviations(xs[..|xs| - 1], mu) + Times(xs[|xs| - 1] as real - mu, xs[|xs| - 1] as real - mu)
  }

  function Squares(xs: seq<int>): real {
    if xs == [] then 0.0 else Squares(xs[..|xs| - 1]) + Times(xs[|xs| - 1] as real, xs[|xs| - 1] as real)
  }

  /** The same sum, from the sum of the squares and the sum of the samples. */
  function Expanded(squares: real, sum: real, n: real, mu: real): real {
    squares - 2.0 * mu * sum + n * mu * mu
  }

  lemma ExpandedStep(squares: real, sum: real, n: real, mu: real, x: real)
    ensures Expanded(squares, sum, n, mu) + Times(x - mu, x - mu) == Expanded(squares + Times(x, x), sum + x, n + 1.0, mu)
  {
    assert (x - mu) * (x - mu) == x * x - 2.0 * mu * x + mu * mu;
    assert 2.0 * mu * (sum + x) == 2.0 * mu * sum + 2.0 * mu * x;
    assert (n + 1.0) * mu * mu == n * mu * mu + mu * mu;
  }

  lemma {:induction false} DeviationsExpand(xs: seq<int>, mu: real)
    ensures Deviations(xs, mu) == Expanded(Squares(xs), Sum(xs) as real, |xs| as real, mu)
  {
    if xs != [] {
      hide Expanded, Times;
      var ys, x := xs[..|xs| - 1], xs[|xs| - 1] as real;
      DeviationsExpand(ys, mu);
      ExpandedStep(Squares(ys), Sum(ys) as real, |ys| as real, mu, x);
    }
  }

  function LessMean(squares: real, n: real, mu: real): real { squares - n * mu * mu }

  lemma QuotientTimes(sum: real, n: real, mu: real)
    requires n > 0.0 && mu == sum / n
    ensures Times(mu, n) == sum
  {
  }

  lemma ExpandedAtMean(squares: real, sum: real, n: real, mu: real)
    requires Times(mu, n) == sum
    ensures Expanded(squares, sum, n, mu) == LessMean(squares, n, mu)
  {
    assert mu * sum == mu * (mu * n);
    assert 2.0 * mu * sum == 2.0 * (mu * sum) && n * mu * mu == mu * (mu * n);
  }

  /** From the mean, the sum is the squares less n times the squared mean. */
  lemma DeviationsFromMean(xs: seq<int>)
    requires xs != []
    ensures Times(Mean(xs), |xs| as real) == Sum(xs) as real
    ensures Deviations(xs, Mean(xs)) == LessMean(Squares(xs), |xs| as real, Mean(xs))
  {
    QuotientTimes(Sum(xs) as real, |xs| as real, Mean(xs));
    hide Times, Mean, Expanded, LessMean, Deviations, Squares, Sum;
    DeviationsExpand(xs, Mean(xs));
    ExpandedAtMean(Squares(xs), Sum(xs) as real, |xs| as real, Mean(xs));
  }

  /** One more sample adds the product of its distances to the mean before and after. */
  lemma WelfordIdentity(n: real, mu: real, mu': real, x: real)
    requires n * mu == (n - 1.0) * mu' + x
    ensures (x - mu') * (x - mu) == x * x - n * mu * mu + (n - 1.0) * mu' * mu'
  {
    assert x == n * mu - (n - 1.0) * mu';
    assert x * (mu + mu') == n * mu * mu + n * mu * mu' - (n - 1.0) * mu' * mu - (n - 1.0) * mu' * mu';
    assert n * mu * mu' - (n - 1.0) * mu' * mu == mu * mu';
    assert (x - mu') * (x - mu) == x * x - x * (mu + mu') + mu * mu';
  }

  lemma DeviationStep(n: real, q: real, sum: real, x: real, mu': real, mu: real, d': real, d: real)
    requires Times(mu', n - 1.0) == sum && Times(mu, n) == sum + x
    requires d' == LessMean(q, n - 1.0, mu') && d == LessMean(q + Times(x, x), n, mu)
    ensures d == d' + Times(x - mu', x - mu)
  {
    WelfordIdentity(n, mu, mu', x);
  }

  lemma OneMoreDeviation(xs: seq<int>, x: int)
    requires xs != []
    ensures var ys := xs + [x];
            Deviations(ys, Mean(ys))
            == Deviations(xs, Mean(xs)) + Times(x as real - Mean(xs), x as real - Mean(ys))
  {
    var ys := xs + [x];
    assert ys[..|ys| - 1] == xs;
    var n := |ys| as real;
    assert |xs| as real == n - 1.0;
    assert Squares(ys) == Squares(xs) + Times(x as real, x as real) && Sum(ys) as real == Sum(xs) as real + x as real;
    hide Deviations, Mean, Squares, Sum, Times, LessMean;
    DeviationsFromMean(xs);
    DeviationsFromMean(ys);
    DeviationStep(n, Squares(xs), Sum(xs) as real, x as real, Mean(xs), Mean(ys),
                  Deviations(xs, Mean(xs)), Deviations(ys, Mean(ys)));
  }

  // ----- the rounding of the running mean -----

  predicate Between(lo: int, hi: int, xs: seq<int>) { forall x <- xs :: lo <= x <= hi }

  lemma {:induction false} SumBetween(lo: int, hi: int, xs: seq<int>)
    requires Between(lo, hi, xs)
    ensures |xs| * lo <= Sum(xs) <= |xs| * hi
  {
    if xs != [] {
      var ys := xs[..|xs| - 1];
      assert xs[|xs| - 1] in xs && forall y <- ys :: y in xs;
      assert Between(lo, hi, ys);
      SumBetween(lo, hi, ys);
      assert |xs| * lo == (|xs| - 1) * lo + lo && |xs| * hi == (|xs| - 1) * hi + hi;
    }
  }

  lemma AtMost(n: real, a: real, b: real)
    requires n > 0.0 && Times(n, a) <= Times(n, b)
    ensures a <= b
  {
    assert a > b ==> n * (a - b) > 0.0;
  }

  lemma WholeTimes(n: int, x: int)
    ensures (n * x) as real == Times(n as real, x as real)
  {
  }

  lemma MeanIsBetween(lo: int, hi: int, xs: seq<int>)
    requires xs != [] && Between(lo, hi, xs)
    ensures lo as real <= Mean(xs) <= hi as real
  {
    SumBetween(lo, hi, xs);
    DeviationsFromMean(xs);
    WholeTimes(|xs|, lo);
    WholeTimes(|xs|, hi);
    assert Times(Mean(xs), |xs| as real) == Times(|xs| as real, Mean(xs));
    hide Mean, Times, Sum, Deviations, LessMean, Squares;
    AtMost(|xs| as real, lo as real, Mean(xs));
    AtMost(|xs| as real, Mean(xs), hi as real);
  }

  lemma AbsProductR(a: real, b: real)
    ensures AbsR(a * b) == AbsR(a) * AbsR(b)
  {
  }

  lemma DividedTimes(n: real, m: real, mu: real, sum: real)
    requires n > 0.0 && Times(mu, n) == sum
    ensures 2.0 * AbsR(Times(n, m) - sum) == Times(n, 2.0 * AbsR(m - mu))
  {
    assert n * m - sum == n * (m - mu);
    AbsProductR(n, m - mu);
    var e := AbsR(m - mu);
    assert AbsR(n * m - sum) == n * e;
    hide AbsR;
    assert n * (2.0 * e) == 2.0 * (n * e);
  }

  lemma WholeError(n: int, m: int, sum: int)
    requires 2 * Abs(n * m - sum) <= n * (n - 1)
    ensures 2.0 * AbsR(Times(n as real, m as real) - sum as real) <= Times(n as real, n as real - 1.0)
  {
    WholeTimes(n, m);
    WholeTimes(n, n - 1);
    var e := n * m - sum;
    assert (2 * Abs(e)) as real == 2.0 * AbsR(e as real);
  }

  /** The stored mean is within (n - 1) / 2 of the true one, and between the same bounds. */
  lemma StoredMeanError(s: Stat, xs: seq<int>, lo: int, hi: int)
    requires xs != [] && MeanDescribes(s, xs) && Between(lo, hi, xs)
    ensures lo <= s.mean <= hi && 2.0 * AbsR(s.mean as real - Mean(xs)) <= |xs| as real - 1.0
  {
    hide Sum, Mean, Deviations, Squares, AbsR, Times, LessMean;
    DeviationsFromMean(xs);
    WholeError(|xs|, s.mean, Sum(xs));
    DividedTimes(|xs| as real, s.mean as real, Mean(xs), Sum(xs) as real);
    AtMost(|xs| as real, 2.0 * AbsR(s.mean as real - Mean(xs)), |xs| as real - 1.0);
  }

  // ----- the error of the variance -----

  lemma ProductAtMost(a: real, b: real, r: real, e: real)
    requires AbsR(a) <= r && AbsR(b) <= e
    ensures AbsR(Times(a, b)) <= Times(r, e)
  {
    AbsProductR(a, b);
    var x, y := AbsR(a), AbsR(b);
    assert x >= 0.0 && y >= 0.0;
    hide AbsR;
    assert (r - x) * y >= 0.0 && r * (e - y) >= 0.0;
  }

  lemma ProductsDiffer(x: real, m: real, m': real, mu: real, mu': real)
    ensures Times(x - m', x - m) - Times(x - mu', x - mu) == Times(x - m, mu' - m') + Times(x - mu', mu - m)
  {
  }

  lemma TimesSum(r: real, e: real, e': real)
    ensures Times(r, e + e') == Times(r, e) + Times(r, e')
  {
  }

  /** The product with the rounded means is off by at most r times the sum of their errors. */
  lemma StepError(x: real, m: real, m': real, mu: real, mu': real, r: real, e: real, e': real)
    requires AbsR(x - m) <= r && AbsR(x - mu') <= r && AbsR(m - mu) <= e && AbsR(m' - mu') <= e'
    ensures AbsR(Times(x - m', x - m) - Times(x - mu', x - mu)) <= Times(r, e + e')
  {
    hide Times;
    ProductAtMost(x - m, mu' - m', r, e');
    ProductAtMost(x - mu', mu - m, r, e);
    ProductsDiffer(x, m, m', mu, mu');
    TimesSum(r, e, e');
  }

  function Bound(r: real, n: real): real { r * (n - 1.0) * (n - 1.0) }

  /** Within half the bound of the sum of the squared deviations. */
  predicate VarianceNear(s: Stat, xs: seq<int>, lo: int, hi: int)
    requires xs != []
  {
    2.0 * AbsR(s.variance as real - Deviations(xs, Mean(xs))) <= Bound((hi - lo) as real, |xs| as real)
  }

  lemma BoundGrows(r: real, n: real)
    ensures Bound(r, n - 1.0) + 2.0 * Times(r, (n - 1.0) / 2.0 + (n - 2.0) / 2.0) == Bound(r, n)
  {
    assert 2.0 * ((n - 1.0) / 2.0 + (n - 2.0) / 2.0) == 2.0 * n - 3.0;
    assert r * (n - 2.0) * (n - 2.0) + r * (2.0 * n - 3.0) == r * (n - 1.0) * (n - 1.0);
  }

  /** Variance and deviations after one more sample. */
  lemma ErrorAfter(r: real, n: real, v: real, v': real, d: real, d': real, x: real,
                   m: real, m': real, mu: real, mu': real)
    requires 2.0 * AbsR(v' - d') <= Bound(r, n - 1.0)
    requires v == v' + Times(x - m', x - m) && d == d' + Times(x - mu', x - mu)
    requires AbsR(x - m) <= r && AbsR(x - mu') <= r
    requires 2.0 * AbsR(m - mu) <= n - 1.0 && 2.0 * AbsR(m' - mu') <= n - 2.0
    ensures 2.0 * AbsR(v - d) <= Bound(r, n)
  {
    hide Times, Bound;
    StepError(x, m, m', mu, mu', r, (n - 1.0) / 2.0, (n - 2.0) / 2.0);
    BoundGrows(r, n);
  }

  lemma WholeStep(v: int, v': int, x: int, m: int, m': int)
    requires v == v' + (x - m') * (x - m)
    ensures v as real == v' as real + Times(x as real - m' as real, x as real - m as real)
  {
    assert ((x - m') * (x - m)) as real == (x - m') as real * (x - m) as real;
  }

  lemma WithinRange(lo: int, hi: int, x: int, y: real)
    requires lo <= x <= hi && lo as real <= y <= hi as real
    ensures AbsR(x as real - y) <= (hi - lo) as real
  {
  }

  lemma AddKeepsVarianceNear(s: Stat, s': Stat, xs: seq<int>, x: int, lo: int, hi: int)
    requires xs != [] && MeanDescribes(s, xs) && MeanDescribes(s', xs + [x])
    requires s'.variance as real == s.variance as real + Times(x as real - s.mean as real, x as real - s'.mean as real)
    requires Between(lo, hi, xs + [x]) && VarianceNear(s, xs, lo, hi)
    ensures VarianceNear(s', xs + [x], lo, hi)
  {
    var ys := xs + [x];
    assert x in ys && forall y <- xs :: y in ys;
    assert |xs| as real - 1.0 == |ys| as real - 2.0;
    hide MeanDescribes, AbsR, Deviations, Mean, Bound, Times;
    StoredMeanError(s, xs, lo, hi);
    StoredMeanError(s', ys, lo, hi);
    MeanIsBetween(lo, hi, xs);
    OneMoreDeviation(xs, x);
    WithinRange(lo, hi, x, s'.mean as real);
    WithinRange(lo, hi, x, Mean(xs));
    ErrorAfter((hi - lo) as real, |ys| as real, s'.variance as real, s.variance as real,
               Deviations(ys, Mean(ys)), Deviations(xs, Mean(xs)), x as real,
               s'.mean as real, s.mean as real, Mean(ys), Mean(xs));
  }

  lemma FirstDeviation(x: int)
    ensures Mean([x]) == x as real && Deviations([x], Mean([x])) == 0.0
  {
    assert [x][..0] == [];
    assert Sum([x]) == x;
    DeviationsFromMean([x]);
  }

  lemma VarianceStep(s: Stat, x: int)
    requires 0 < s.n < TWO32 - 1 && s.prevMean == s.mean && s.prevVar == s.variance
    ensures var s' := AddStat(s, x);
            && s'.Some?
            && s'.value.variance as real
               == s.variance as real + Times(x as real - s.mean as real, x as real - s'.value.mean as real)
  {
    var s' := AddStat(s, x).value;
    assert s'.variance == s.variance + (x - s.mean) * (x - s'.mean);
    WholeStep(s'.variance, s.variance, x, s'.mean, s.mean);
  }

  /** The variance that is stored for n samples, none of them further apart than hi - lo, is within
      (hi - lo) * (n - 1)^2 / 2 of the sum of their squared deviations from their mean. */
  lemma {:induction false} VarianceIsDeviation(xs: seq<int>, lo: int, hi: int)
    requires 0 < |xs| < TWO32 && Between(lo, hi, xs)
    ensures Collected(xs).Some? && VarianceNear(Collected(xs).value.stat, xs, lo, hi)
  {
    CollectedDescribes(xs);
    var ys, x := xs[..|xs| - 1], xs[|xs| - 1];
    assert xs == ys + [x];
    if ys == [] {
      assert Collected(ys) == Some(Reset());
      FirstDeviation(x);
    } else {
      assert forall y <- ys :: y in xs;
      VarianceIsDeviation(ys, lo, hi);
      CollectedDescribes(ys);
      var s := Collected(ys).value.stat;
      VarianceStep(s, x);
      hide AddStat, VarianceNear, Between, MeanDescribes, IsMin, IsMax, Times;
      AddKeepsVarianceNear(s, Collected(xs).value.stat, ys, x, lo, hi);
    }
  }
}
