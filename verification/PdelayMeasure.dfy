/** What the peer-delay arithmetic measures when the neighbour's clock runs at rate `r` of the
    local one and a frame takes `d` of local time each way. The neighbour's stamps may be off:
    `m` bounds the error of an interval between two of them (0 for an ideal clock). */
module PdelayMeasure {
  import opened Arith
  import opened PdelayReq

  /** The neighbour counted `theirs` while the local clock counted `ours`. */
  predicate Counted(r: real, m: real, ours: real, theirs: real) {
    AbsR(theirs - r * ours) <= m
  }

  /** Two stamps of a clock that shows r * t + c at local time t, each at most e off, are such
      an interval with m = 2e. */
  lemma LinearClockCounts(r: real, c: real, e: real, at: real, at': real, stamp: real, stamp': real)
    requires AbsR(stamp - (r * at + c)) <= e && AbsR(stamp' - (r * at' + c)) <= e
    ensures Counted(r, 2.0 * e, at' - at, stamp' - stamp)
  {
    assert r * (at' - at) == r * at' - r * at;
  }

  /** A usable sample misses the neighbour's rate by at most m over the spacing; it is the
      rate itself when the stamps are ideal. */
  lemma SampleMeasuresRate(env: Env, ts: Stamps, r: real, m: real)
    requires SpacingsUsable(env, ts) && ts.t1 >= ts.prevT1
    requires Counted(r, m, (ts.t1 - ts.prevT1) as real, (ts.t2 - ts.prevT2) as real)
    ensures AbsR(RateSample(env, ts) - r) * (ts.t1 - ts.prevT1) as real <= m
    ensures m == 0.0 ==> RateSample(env, ts) == r
  {
    QuotientError(RateSample(env, ts), r, (ts.t1 - ts.prevT1) as real, (ts.t2 - ts.prevT2) as real, m);
  }

  lemma QuotientError(x: real, r: real, ours: real, theirs: real, m: real)
    requires ours > 0.0 && x == theirs / ours && Counted(r, m, ours, theirs)
    ensures AbsR(x - r) * ours <= m
    ensures m == 0.0 ==> x == r
  {
    assert x * ours == theirs;
    AbsTimes(x - r, ours);
    assert AbsR(x - r) * ours == AbsR((x - r) * ours) == AbsR(theirs - r * ours);
  }

  lemma AbsTimes(x: real, y: real)
    requires y >= 0.0
    ensures AbsR(x) * y == AbsR(x * y)
    ensures y > 0.0 && x * y == 0.0 ==> x == 0.0
  {
  }

  /** An exchange: the request leaves at t1 and the response comes back at t4; in between lie
      two link delays and the time `stay` the neighbour held it, stamped t3 - t2. */
  predicate Exchange(r: real, m: real, d: real, stay: real, t1: int, t2: int, t3: int, t4: int) {
    (t4 - t1) as real == stay + 2.0 * d && Counted(r, m, stay, (t3 - t2) as real)
  }

  /** How far the ratio in use can push the delay off: half the round trip times its error. */
  function RatioError(ratio: real, r: real, t1: int, t4: int): real {
    AbsR((ratio - r) * (t4 - t1) as real) / 2.0
  }

  lemma RoundTripIdentity(ratio: real, r: real, d: real, stay: real, trip: real, reply: real, m: real)
    requires trip == stay + 2.0 * d && Counted(r, m, stay, reply)
    ensures AbsR(ratio * trip - reply - 2.0 * (r * d) - ((ratio - r) * trip)) <= m
  {
    assert (ratio - r) * trip == ratio * trip - r * trip;
    assert r * trip == r * stay + 2.0 * (r * d);
  }

  /** Before the range check the result is within 1 ns, half the stamp error and the ratio
      error of r * d, which is the link delay as the neighbour's clock counts it. */
  lemma HalfRoundTripAccuracy(
      ratio: real, r: real, m: real, d: real, stay: real, t1: int, t2: int, t3: int, t4: int)
    requires Exchange(r, m, d, stay, t1, t2, t3, t4)
    ensures AbsR(HalfRoundTrip(ratio, t1, t2, t3, t4) as real - r * d)
            < 1.0 + m / 2.0 + RatioError(ratio, r, t1, t4)
  {
    TripError(ratio, r, m, d, stay, t1, t2, t3, t4);
    ScaledError(ratio * (t4 - t1) as real, t3 - t2, r * d, RatioError(ratio, r, t1, t4), m);
  }

  lemma TripError(ratio: real, r: real, m: real, d: real, stay: real, t1: int, t2: int, t3: int, t4: int)
    requires Exchange(r, m, d, stay, t1, t2, t3, t4)
    ensures AbsR(ratio * (t4 - t1) as real - (t3 - t2) as real - 2.0 * (r * d))
            <= m + 2.0 * RatioError(ratio, r, t1, t4)
  {
    RoundTripIdentity(ratio, r, d, stay, (t4 - t1) as real, (t3 - t2) as real, m);
  }

  /** Truncating the scaled round trip and halving what is left adds less than 1 ns. */
  lemma ScaledError(x: real, reply: int, delay: real, off: real, m: real)
    requires AbsR(x - reply as real - 2.0 * delay) <= m + 2.0 * off
    ensures AbsR(DivC(Trunc(x) - reply, 2) as real - delay) < 1.0 + m / 2.0 + off
  {
    TruncBounds(x);
    DivCBounds(Trunc(x) - reply, 2);
    SumOfErrors(DivC(Trunc(x) - reply, 2), Trunc(x) - reply, Trunc(x), x, reply, delay, off, m);
  }

  lemma SumOfErrors(h: int, n: int, trunc: int, x: real, reply: int, delay: real, off: real, m: real)
    requires Abs(n - 2 * h) <= 1 && n == trunc - reply && AbsR(trunc as real - x) < 1.0
    requires AbsR(x - reply as real - 2.0 * delay) <= m + 2.0 * off
    ensures AbsR(h as real - delay) < 1.0 + m / 2.0 + off
  {
  }

  /** computePropTime is that accurate as soon as the delay and the errors together stay below
      the 10 ms cut-off; a result that falls below zero is then set to zero, which is nearer. */
  lemma PropTimeAccuracy(
      ratio: real, r: real, m: real, d: real, stay: real, t1: int, t2: int, t3: int, t4: int)
    requires Exchange(r, m, d, stay, t1, t2, t3, t4) && r * d >= 0.0
    requires r * d + 1.0 + m / 2.0 + RatioError(ratio, r, t1, t4) <= NS_10MS as real
    ensures AbsR(ComputePropTime(ratio, t1, t2, t3, t4) as real - r * d)
            < 1.0 + m / 2.0 + RatioError(ratio, r, t1, t4)
  {
    HalfRoundTripAccuracy(ratio, r, m, d, stay, t1, t2, t3, t4);
  }

  /** The cut-off itself: the delay of a longer link is reported as 0, never as too long. */
  lemma LongDelaysReadZero(
      ratio: real, r: real, m: real, d: real, stay: real, t1: int, t2: int, t3: int, t4: int)
    requires Exchange(r, m, d, stay, t1, t2, t3, t4)
    requires r * d > NS_10MS as real + 1.0 + m / 2.0 + RatioError(ratio, r, t1, t4)
    ensures ComputePropTime(ratio, t1, t2, t3, t4) == 0
  {
    HalfRoundTripAccuracy(ratio, r, m, d, stay, t1, t2, t3, t4);
  }

  // ----- what the result is, exactly -----

  /** The link delay in whole nanoseconds of the neighbour's clock. */
  function NeighbourTime(r: real, d: real): int { (r * d).Floor }

  lemma HalfOfDifference(x: real, reply: int, y: real)
    requires x >= 0.0 && y >= 0.0 && x - reply as real == 2.0 * y
    ensures DivC(Trunc(x) - reply, 2) == y.Floor
  {
    var n := Trunc(x) - reply;
    assert x.Floor as real <= x < x.Floor as real + 1.0;
    assert n as real <= 2.0 * y < n as real + 1.0;
    var h := y.Floor;
    assert h as real <= y < h as real + 1.0;
    assert 2 * h <= n <= 2 * h + 1;
  }

  /** With ideal stamps and the right ratio the result is the delay in whole nanoseconds of the
      neighbour's clock, or 0 beyond the cut-off; so it is off the delay of the link by at most
      `tolerance` if and only if that number is. */
  lemma PropTimeExact(r: real, d: real, stay: real, t1: int, t2: int, t3: int, t4: int, tolerance: real)
    requires Exchange(r, 0.0, d, stay, t1, t2, t3, t4) && r > 0.0 && d >= 0.0 && t4 >= t1
    ensures var result := ComputePropTime(r, t1, t2, t3, t4);
            && result == (if NeighbourTime(r, d) <= NS_10MS then NeighbourTime(r, d) else 0)
            && (NeighbourTime(r, d) <= NS_10MS ==>
                  (AbsR(result as real - d) <= tolerance <==> AbsR(NeighbourTime(r, d) as real - d) <= tolerance))
  {
    var trip := (t4 - t1) as real;
    RoundTripIdentity(r, r, d, stay, trip, (t3 - t2) as real, 0.0);
    assert (r - r) * trip == 0.0;
    assert r * trip >= 0.0 && r * d >= 0.0;
    HalfOfDifference(r * trip, t3 - t2, r * d);
  }

  /** A neighbour that is 200 ppm fast, 5 ms away: the result is 1000 ns too long. */
  lemma FastNeighbourSeemsFarther()
    ensures Exchange(1.0002, 0.0, 5_000_000.0, 10_000_000.0, 0, 0, 10_002_000, 20_000_000)
    ensures ComputePropTime(1.0002, 0, 0, 10_002_000, 20_000_000) == 5_001_000
  {
    assert 1.0002 * 20_000_000.0 == 20_004_000.0;
    assert Trunc(20_004_000.0) == 20_004_000;
  }
}
