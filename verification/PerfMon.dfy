/** Running statistics of the performance monitoring records (tsn_gptp/gptp_perfmon.c). Values
    are in nanoseconds and do not overflow 64 bits; the records hold them scaled by 2^16. */
module PerfMon {
  import opened Arith

  const SCALEDNS_FACTOR := 0x10000
  const INVALID := 0x7FFF_FFFF_FFFF_FFFF

  /** PerfMonAncillaryDataRecord: N, prev_M, M, prev_V, V */
  datatype Stat = Stat(n: nat, prevMean: int, mean: int, prevVar: int, variance: int)

  /** The fields of one monitored parameter. */
  datatype Param = Param(average: int, min: int, max: int, stat: Stat)

  function Reset(): Param { Param(INVALID, INVALID, INVALID, Stat(0, 0, 0, 0, 0)) }

  /** perfmon_running_stat_add; None is the division by zero when the 32-bit count wraps. */
  function AddStat(s: Stat, x: int): Option<Stat> {
    var n := (s.n + 1) % TWO32;
    if n == 1 then Some(s.(n := 1, prevMean := x, mean := x, prevVar := 0))
    else if n == 0 then None
    else
      var m := s.prevMean + DivC(x - s.prevMean, n);
      var v := s.prevVar + (x - s.prevMean) * (x - m);
      Some(Stat(n, m, m, v, v))
  }

  /** gptp_port_perfmon_ppmpddr_dr_add and gptp_clock_perfmon_cpmdr_dr_add, but for the square
      root of the variance. */
  function AddSample(p: Param, x: int): Option<Param> {
    var scaled := x * SCALEDNS_FACTOR;
    match AddStat(p.stat, x)
    case None => None
    case Some(stat) =>
      Some(Param(
             stat.mean * SCALEDNS_FACTOR,
             if p.min == INVALID || p.min > scaled then scaled else p.min,
             if p.max == INVALID || p.max < scaled then scaled else p.max,
             stat))
  }

  /** The record after these samples since its reset. */
  function Collected(xs: seq<int>): Option<Param> {
    if xs == [] then Some(Reset())
    else
      match Collected(xs[..|xs| - 1])
      case None => None
      case Some(p) => AddSample(p, xs[|xs| - 1])
  }

  // ----- what the numbers mean -----

  function Sum(xs: seq<int>): int {
    if xs == [] then 0 else Sum(xs[..|xs| - 1]) + xs[|xs| - 1]
  }

  predicate IsMin(m: int, xs: seq<int>) { m in xs && forall x <- xs :: m <= x }

  predicate IsMax(m: int, xs: seq<int>) { m in xs && forall x <- xs :: x <= m }

  predicate AllEqual(xs: seq<int>) { forall i, j | 0 <= i < |xs| && 0 <= j < |xs| :: xs[i] == xs[j] }

  // ----- one step -----

  /** The new mean lies between the old one and the sample, and is the sample only if they agree
      or it is the first. */
  lemma MeanBetween(m: int, x: int, n: nat)
    requires n >= 2
    ensures var m' := m + DivC(x - m, n);
            && Min(m, x) <= m' <= Max(m, x)
            && (m' == x <==> m == x)
            && Abs(n * m' - ((n - 1) * m + x)) <= n - 1
  {
    var d := x - m;
    var q := DivC(d, n);
    DivCBounds(d, n);
    assert n * (m + q) - ((n - 1) * m + x) == n * q - d;
    if q == d && d != 0 {
      assert n * d == d + (n - 1) * d;
      if d > 0 {
        ProductMonotonic(n - 1, 1, d);
      } else {
        ProductMonotonic(n - 1, d, -1);
      }
    }
  }

  lemma SameSign(m: int, x: int, m': int)
    requires Min(m, x) <= m' <= Max(m, x)
    ensures (x - m) * (x - m') >= 0
    ensures (x - m) * (x - m') == 0 <==> m == x || m' == x
  {
    var a, b := x - m, x - m';
    if a > 0 && b > 0 {
      ProductMonotonic(a, 1, b);
    } else if a < 0 && b < 0 {
      ProductMonotonic(-a, 1, -b);
      assert -a * -b == a * b;
    } else {
      assert a == 0 || b == 0;
    }
  }

  // ----- all samples since the reset -----

  predicate MeanDescribes(s: Stat, xs: seq<int>) {
    && s.n == |xs| && s.prevMean == s.mean
    && (exists lo <- xs, hi <- xs :: lo <= s.mean <= hi)
    && 2 * Abs(s.n * s.mean - Sum(xs)) <= s.n * (s.n - 1)
  }

  predicate VarianceDescribes(s: Stat, xs: seq<int>) {
    && xs != [] && s.prevVar == s.variance && s.variance >= 0
    && (s.variance == 0 <==> AllEqual(xs))
    && (s.variance == 0 ==> s.mean == xs[0])
  }

  /** What the statistics say about the samples. */
  predicate Describes(s: Stat, xs: seq<int>) { MeanDescribes(s, xs) && VarianceDescribes(s, xs) }

  lemma ErrorGrows(n: nat, m: int, m': int, x: int, sum: int)
    requires n >= 2 && Abs(n * m' - ((n - 1) * m + x)) <= n - 1
    requires 2 * Abs((n - 1) * m - sum) <= (n - 1) * (n - 2)
    ensures 2 * Abs(n * m' - (sum + x)) <= n * (n - 1)
  {
    assert n * (n - 1) == (n - 1) * (n - 2) + 2 * (n - 1);
  }

  lemma AllEqualExtends(xs: seq<int>, x: int)
    requires xs != []
    ensures AllEqual(xs + [x]) <==> AllEqual(xs) && x == xs[0]
  {
    var ys := xs + [x];
    if AllEqual(ys) {
      forall i, j | 0 <= i < |xs| && 0 <= j < |xs| ensures xs[i] == xs[j] {
        assert ys[i] == ys[j];
      }
      assert ys[0] == ys[|xs|];
    }
  }

  lemma AddDescribesMean(s: Stat, xs: seq<int>, x: int)
    requires xs != [] && MeanDescribes(s, xs) && |xs| + 1 < TWO32
    ensures AddStat(s, x).Some? && MeanDescribes(AddStat(s, x).value, xs + [x])
  {
    hide DivC;
    var n := s.n + 1;
    var m := AddStat(s, x).value.mean;
    var ys := xs + [x];
    assert ys[..|ys| - 1] == xs;
    assert Sum(ys) == Sum(xs) + x;
    hide Sum;
    MeanBetween(s.mean, x, n);
    ErrorGrows(n, s.mean, m, x, Sum(xs));
    var lo, hi :| lo in xs && hi in xs && lo <= s.mean <= hi;
    assert Min(lo, x) in ys && Max(hi, x) in ys;
  }

  lemma AddDescribesVariance(s: Stat, xs: seq<int>, x: int)
    requires s.n == |xs| && s.prevMean == s.mean && VarianceDescribes(s, xs) && |xs| + 1 < TWO32
    ensures AddStat(s, x).Some? && VarianceDescribes(AddStat(s, x).value, xs + [x])
    ensures AddStat(s, x).value.variance >= s.variance
  {
    hide DivC, AllEqual;
    var m := AddStat(s, x).value.mean;
    MeanBetween(s.mean, x, s.n + 1);
    SameSign(s.mean, x, m);
    AllEqualExtends(xs, x);
  }

  lemma AddDescribes(s: Stat, xs: seq<int>, x: int)
    requires xs != [] && Describes(s, xs) && |xs| + 1 < TWO32
    ensures AddStat(s, x).Some? && Describes(AddStat(s, x).value, xs + [x])
    ensures AddStat(s, x).value.variance >= s.variance
  {
    AddDescribesMean(s, xs, x);
    AddDescribesVariance(s, xs, x);
    hide MeanDescribes, VarianceDescribes, AddStat;
  }

  /** The count is the number of samples; the mean is between two samples and n times it is
      within n * (n - 1) / 2 of their sum; the variance is never negative, and zero exactly when
      all samples are equal. The records hold 2^16 times the mean and the extremes: the value
      that marks an unused record is none of those. */
  lemma {:induction false} CollectedDescribes(xs: seq<int>)
    requires 0 < |xs| < TWO32
    ensures Collected(xs).Some?
    ensures var p := Collected(xs).value;
            && Describes(p.stat, xs)
            && p.average == p.stat.mean * SCALEDNS_FACTOR
            && p.min % SCALEDNS_FACTOR == 0 && IsMin(p.min / SCALEDNS_FACTOR, xs)
            && p.max % SCALEDNS_FACTOR == 0 && IsMax(p.max / SCALEDNS_FACTOR, xs)
  {
    var x, ys := xs[|xs| - 1], xs[..|xs| - 1];
    assert xs == ys + [x];
    NeverInvalid(x);
    if ys == [] {
      assert Collected(ys) == Some(Reset());
      assert Sum(ys) == 0;
      assert xs[0] in xs;
    } else {
      CollectedDescribes(ys);
      var p := Collected(ys).value;
      AddDescribes(p.stat, ys, x);
      NeverInvalid(p.min / SCALEDNS_FACTOR);
      NeverInvalid(p.max / SCALEDNS_FACTOR);
    }
  }

  /** No scaled sample is the invalid value. */
  lemma NeverInvalid(x: int)
    ensures x * SCALEDNS_FACTOR != INVALID
    ensures (x * SCALEDNS_FACTOR) / SCALEDNS_FACTOR == x && (x * SCALEDNS_FACTOR) % SCALEDNS_FACTOR == 0
  {
  }

  /** A sample never lowers the variance. */
  lemma VarianceNeverFalls(xs: seq<int>, x: int)
    requires xs != [] && |xs| + 1 < TWO32
    ensures Collected(xs).Some? && Collected(xs + [x]).Some?
    ensures Collected(xs + [x]).value.stat.variance >= Collected(xs).value.stat.variance
  {
    CollectedDescribes(xs);
    assert (xs + [x])[..|xs|] == xs;
    AddDescribes(Collected(xs).value.stat, xs, x);
  }

  /** The count wraps after 2^32 - 1 samples: the next one divides by zero, and no other does. */
  lemma {:induction false} DividesByZeroIff(xs: seq<int>)
    ensures Collected(xs).None? <==> |xs| >= TWO32
  {
    hide AddStat;
    if 0 < |xs| < TWO32 {
      CollectedDescribes(xs);
    } else if |xs| == TWO32 {
      WrapDividesByZero(xs);
    } else if |xs| > TWO32 {
      DividesByZeroIff(xs[..|xs| - 1]);
    }
  }

  lemma WrapDividesByZero(xs: seq<int>)
    requires |xs| == TWO32
    ensures Collected(xs).None?
  {
    CollectedDescribes(xs[..|xs| - 1]);
  }

  // ----- the records -----

  /** The record of one parameter; `samples` are the values added since its reset. */
  class Record {
    var average: int
    var min: int
    var max: int
    var n: nat
    var prevMean: int
    var mean: int
    var prevVar: int
    var variance: int
    ghost var samples: seq<int>

    ghost function Abs(): Param
      reads this
    {
      Param(average, min, max, Stat(n, prevMean, mean, prevVar, variance))
    }

    ghost predicate Valid()
      reads this
    {
      Collected(samples) == Some(Abs())
    }

    constructor ()
      ensures Valid() && samples == []
    {
      average, min, max := INVALID, INVALID, INVALID;
      n, prevMean, mean, prevVar, variance := 0, 0, 0, 0, 0;
      samples := [];
    }

    method Clear()
      modifies this
      ensures Valid() && samples == []
    {
      average, min, max := INVALID, INVALID, INVALID;
      n, prevMean, mean, prevVar, variance := 0, 0, 0, 0, 0;
      samples := [];
    }

    /** perfmon_running_stat_add. `trapped` is the division by zero, at which the program ends. */
    method RunningStatAdd(x: int) returns (trapped: bool)
      modifies `n, `prevMean, `mean, `prevVar, `variance
      ensures trapped == AddStat(old(Abs().stat), x).None?
      ensures !trapped ==> Some(Abs().stat) == AddStat(old(Abs().stat), x)
    {
      n := (n + 1) % TWO32;
      if n == 1 {
        mean := x;
        prevMean := x;
        prevVar := 0;
      } else {
        if n == 0 {
          return true;
        }
        mean := prevMean + DivC(x - prevMean, n);
        variance := prevVar + (x - prevMean) * (x - mean);
        prevMean := mean;
        prevVar := variance;
      }
      return false;
    }

    /** Adds a sample; it traps at exactly the 2^32nd since the reset. */
    method Add(x: int) returns (trapped: bool)
      requires Valid()
      modifies this
      ensures trapped == (|old(samples)| + 1 == TWO32)
      ensures !trapped ==> Valid() && samples == old(samples) + [x]
    {
      DividesByZeroIff(samples);
      DividesByZeroIff(samples + [x]);
      assert (samples + [x])[..|samples|] == samples;
      var scaled := x * SCALEDNS_FACTOR;
      var wasMax, wasMin := max, min;
      max := if wasMax == INVALID || wasMax < scaled then scaled else wasMax;
      min := if wasMin == INVALID || wasMin > scaled then scaled else wasMin;
      trapped := RunningStatAdd(x);
      if trapped {
        return;
      }
      average := mean * SCALEDNS_FACTOR;
      samples := samples + [x];
    }
  }

  /** A parameter is kept over the short and over the long interval. */
  class Monitor {
    const shortIntv: Record
    const longIntv: Record

    ghost predicate Valid()
      reads this, shortIntv, longIntv
    {
      shortIntv != longIntv && shortIntv.Valid() && longIntv.Valid()
    }

    constructor ()
      ensures Valid() && shortIntv.samples == [] && longIntv.samples == []
      ensures fresh(shortIntv) && fresh(longIntv)
    {
      shortIntv := new Record();
      longIntv := new Record();
    }

    /** gptp_port_perfmon_ppmpddr_add */
    method Add(x: int) returns (trapped: bool)
      requires Valid()
      modifies shortIntv, longIntv
      ensures trapped == (|old(shortIntv.samples)| + 1 == TWO32 || |old(longIntv.samples)| + 1 == TWO32)
      ensures !trapped ==>
                && Valid() && shortIntv.samples == old(shortIntv.samples) + [x]
                && longIntv.samples == old(longIntv.samples) + [x]
    {
      trapped := shortIntv.Add(x);
      if trapped {
        return;
      }
      trapped := longIntv.Add(x);
    }

    /** The end of the short interval leaves the long one alone. */
    method ResetShort()
      requires Valid()
      modifies shortIntv
      ensures Valid() && shortIntv.samples == [] && longIntv.samples == old(longIntv.samples)
    {
      shortIntv.Clear();
    }
  }
}
