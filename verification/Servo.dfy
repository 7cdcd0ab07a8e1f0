/** The phase and frequency servo of a slave clock (tsn_gptp/clock_master_sync_receive_sm.c).
    `double` is modelled as `real`, and timestamps do not exceed 63 bits. */
module Servo {
  import opened Arith

  const PHASE_NEWGM_CRITERION := 1_000_000
  const PHASE_STABLE_CRITERION := 10_000
  const PHASE_UNSTABLE_CRITERION := 30_000
  const STABLE_TRNS := 3
  const TOO_BIG_PASSTIME_GAP := SEC_NS / 10
  const NOOP := -99_999_999
  const MSEC_NS := 1_000_000

  /** The phase side of the configuration. */
  datatype PhaseCfg = PhaseCfg(
    intervalMsec: int, alphaStart: int, alphaStable: int, hwPhase: bool, byFreqBelow: int, byFreq: bool)

  /** The frequency side; `skipMax` is how many updates a phase step of the hardware skips. */
  datatype RateCfg = RateCfg(
    quick: bool, stablePpb: int, alphaStart: int, alphaStable: int, leapPpb: int, updatePpb: int,
    maxAdj: int, skipMax: int)

  datatype Cfg = Cfg(phase: PhaseCfg, rate: RateCfg)

  predicate Valid(cfg: Cfg) {
    && cfg.phase.alphaStart >= 1 && cfg.phase.alphaStable >= 1
    && cfg.rate.alphaStart >= 1 && cfg.rate.alphaStable >= 1 && cfg.rate.maxAdj >= 0
  }

  datatype Adj = NotAdj | StartAdj | UnstableAdj | StableAdj

  /** offsetGM, offsetGM_stable, offsetGM_stable_count, gmchange_ind */
  datatype Phase = Phase(offset: int, adj: Adj, count: int, gmInd: int)

  /** mrate, alpha, rate_stable_count, rate_is_stable, gmadjppb, skip_freqadj */
  datatype Rate = Rate(mrate: real, alpha: real, count: int, stable: bool, adjppb: int, skip: int)

  /** What the servo does to the clocks; `Declare(p, r)` is the declaration of
      GMSYNC_SYNC_STABLE after p entries of the phase history and r of the rate history. */
  datatype Act = SetOffset(offset: int) | SetAdj(ppb: int) | DeclareSync | DeclareStable(p: nat, r: nat)

  /** History of one side: a sample that was compared with the thresholds, a new start, or the
      resetting of the side by INITIALIZING. */
  datatype Entry = Sample(gap: nat) | StartedOver | Reinitialized

  datatype State = State(
    phase: Phase, rate: Rate, lastLts: int, lastMts: int,
    plog: seq<Entry>, rlog: seq<Entry>, acts: seq<Act>)

  function Boot(): State {
    State(Phase(0, StartAdj, 0, 0), Rate(0.0, 0.0, 0, false, 0, 0), 0, 0, [], [], [])
  }

  // ----- the phase side -----

  /** The integer filter of the phase offset. */
  function Filter(alpha: int, dts: int, offset: int): int
    requires alpha >= 1
  {
    DivC(dts, alpha) + (alpha - 1) * DivC(offset, alpha)
  }

  /** A gap of more than 1 ms; the result says that the sample is dropped. */
  function Jump(p: Phase, gap: nat, gm: int): (Phase, bool) {
    if gap < PHASE_NEWGM_CRITERION then (p, false)
    else if p.gmInd != 0 && p.gmInd == gm && p.adj != NotAdj then (p.(adj := NotAdj), true)
    else (p.(adj := StartAdj), false)
  }

  predicate Waits(cfg: Cfg, p: Phase, dlts: int) {
    0 < dlts < cfg.phase.intervalMsec * MSEC_NS && p.adj in {UnstableAdj, StableAdj}
  }

  /** The offset before it is stored, or None when the grandmaster has changed. */
  function Track(cfg: Cfg, p: Phase, dts: int, gap: nat, gm: int): (Phase, Option<int>)
    requires Valid(cfg)
  {
    match p.adj
    case NotAdj => (p.(adj := UnstableAdj, count := 0), Some(dts))
    case StartAdj => (p.(adj := UnstableAdj, count := 0), Some(dts))
    case UnstableAdj =>
      var offset := Filter(cfg.phase.alphaStart, dts, p.offset);
      if gap >= PHASE_STABLE_CRITERION then (p.(count := 0), Some(offset))
      else if p.count + 1 >= STABLE_TRNS then (p.(adj := StableAdj, gmInd := gm, count := 0), Some(offset))
      else (p.(count := p.count + 1), Some(offset))
    case StableAdj =>
      if p.gmInd != gm then (p.(adj := StartAdj), None)
      else
        (if gap > PHASE_UNSTABLE_CRITERION then p.(adj := UnstableAdj) else p,
         Some(Filter(cfg.phase.alphaStable, dts, p.offset)))
  }

  /** What the sample adds to the phase history. */
  function PhaseEntry(p: Phase, gap: nat, gm: int): Entry {
    if p.adj in {NotAdj, StartAdj} || (p.adj == StableAdj && p.gmInd != gm) then StartedOver else Sample(gap)
  }

  /** Small changes are left to the frequency adjustment; others step the clock. */
  function StepPhase(cfg: Cfg, s: State, offset: int): (State, int) {
    var od := offset - s.phase.offset;
    if Abs(od) < cfg.phase.byFreqBelow && cfg.phase.byFreq then (s, od)
    else
      (s.(phase := s.phase.(offset := if cfg.phase.hwPhase then 0 else offset),
          rate := if cfg.phase.hwPhase then s.rate.(skip := cfg.rate.skipMax) else s.rate,
          acts := s.acts + [SetOffset(offset)]), 0)
  }

  /** set_phase_offsetGM */
  function SetPhase(cfg: Cfg, s: State, dts: int, dlts: int, gm: int): (State, int)
    requires Valid(cfg)
  {
    var gap := Abs(dts - s.phase.offset);
    var (p, dropped) := Jump(s.phase, gap, gm);
    if dropped then (s.(phase := p, plog := s.plog + [StartedOver]), 0)
    else if Waits(cfg, p, dlts) then (s.(phase := p), NOOP)
    else
      var (p1, offset) := Track(cfg, p, dts, gap, gm);
      var s1 := s.(phase := p1, plog := s.plog + [PhaseEntry(p, gap, gm)]);
      if offset.None? then (s1, 0) else StepPhase(cfg, s1, offset.value)
  }

  // ----- the frequency side -----

  function Inverse(alpha: int): real
    requires alpha >= 1
  {
    1.0 / alpha as real
  }

  /** The filter of the rate ratio. */
  function Iir(alpha: real, x: real, before: real): real { alpha * x + (1.0 - alpha) * before }

  function ToPpb(rate: real): int { Trunc((rate - 1.0) * 1_000_000_000.0) }

  /** The filtered rate difference in ppb. */
  function RatePpb(r: Rate, dmts: int, dlts: int): int
    requires dlts != 0
  {
    ToPpb(Iir(r.alpha, dmts as real / dlts as real, r.mrate))
  }

  function TrackRate(cfg: Cfg, r: Rate, ppb: int): Rate
    requires Valid(cfg)
  {
    if !r.stable then
      if Abs(ppb) >= cfg.rate.stablePpb then r.(count := 0)
      else if r.count + 1 < STABLE_TRNS then r.(count := r.count + 1)
      else r.(count := r.count + 1, stable := true, alpha := Inverse(cfg.rate.alphaStable))
    else if Abs(ppb) > cfg.rate.leapPpb then
      r.(count := 0, stable := false, alpha := Inverse(cfg.rate.alphaStart))
    else r
  }

  function Clamp(x: int, bound: int): int
  {
    if x > bound then bound else if x < -bound then -bound else x
  }

  function AdjustRate(cfg: Cfg, s: State, ppb: int): State {
    if Abs(ppb) <= cfg.rate.updatePpb then s
    else
      var adj := Clamp(s.rate.adjppb + ppb, cfg.rate.maxAdj);
      s.(rate := s.rate.(adjppb := adj, mrate := 1.0), acts := s.acts + [SetAdj(adj)])
  }

  function UpdateRate(cfg: Cfg, s: State, dmts: int, dlts: int, comp: int): State
    requires Valid(cfg) && dlts != 0
  {
    var ppb := RatePpb(s.rate, dmts, dlts);
    AdjustRate(cfg, s.(rate := TrackRate(cfg, s.rate, ppb), rlog := s.rlog + [Sample(Abs(ppb))]), ppb + comp)
  }

  /** No new Sync: everything starts over. */
  function Restart(s: State): State {
    s.(rate := s.rate.(count := 0, stable := false, skip := 1),
       phase := s.phase.(adj := StartAdj, count := 0),
       plog := s.plog + [StartedOver], rlog := s.rlog + [StartedOver])
  }

  function AfterPhase(cfg: Cfg, s: State, lts: int, mts: int, comp: int): State
    requires Valid(cfg) && lts != s.lastLts
  {
    var dlts, dmts := lts - s.lastLts, mts - s.lastMts;
    var s1 := s.(lastLts := lts, lastMts := mts);
    if Abs(dmts - dlts) > TOO_BIG_PASSTIME_GAP then s1
    else if s1.rate.skip > 0 then s1.(rate := s1.rate.(skip := s1.rate.skip - 1))
    else UpdateRate(cfg, s1, dmts, dlts, comp)
  }

  /** computeGmRateRatio */
  function Compute(cfg: Cfg, s: State, lts: nat, mts: nat, gm: int): State
    requires Valid(cfg)
  {
    if mts == s.lastMts || lts == s.lastLts || mts == 0 || lts == 0 then Restart(s)
    else
      var (s1, comp) := if !cfg.rate.quick || s.rate.stable
                        then SetPhase(cfg, s, mts - lts, lts - s.lastLts, gm) else (s, 0);
      if comp == NOOP then s1 else AfterPhase(cfg, s1, lts, mts, comp)
  }

  // ----- the state machine -----

  datatype Event = Initialize | SourceTime(lts: nat, mts: nat, gm: int, unsync: bool)

  /** initializing_proc; it leaves offsetGM_stable as it was. */
  function Initialized(cfg: Cfg, s: State): State
    requires Valid(cfg)
  {
    s.(rate := Rate(1.0, Inverse(cfg.rate.alphaStart), 0, false, s.rate.adjppb, 0),
       phase := s.phase.(offset := 0, count := 0),
       lastLts := 0, lastMts := 0, plog := s.plog + [Reinitialized], rlog := s.rlog + [Reinitialized])
  }

  /** The declaration at the end of receive_source_time_proc. */
  function Declare(s: State, unsync: bool): State {
    if unsync then s.(acts := s.acts + [DeclareSync])
    else if s.rate.stable && s.phase.adj == StableAdj
    then s.(acts := s.acts + [DeclareStable(|s.plog|, |s.rlog|)])
    else s
  }

  function Handle(cfg: Cfg, s: State, ev: Event): State
    requires Valid(cfg)
  {
    match ev
    case Initialize => Initialized(cfg, s)
    case SourceTime(lts, mts, gm, unsync) => Declare(Compute(cfg, s, lts, mts, gm), unsync)
  }

  function Run(cfg: Cfg, evs: seq<Event>): State
    requires Valid(cfg)
    decreases |evs|
  {
    if evs == [] then Boot() else Handle(cfg, Run(cfg, evs[..|evs| - 1]), evs[|evs| - 1])
  }

  // ----- the filter -----

  /** Within alpha - 1 of the exact weighted average, and never beyond the larger input. */
  lemma FilterBounds(alpha: int, dts: int, offset: int)
    requires alpha >= 1
    ensures Abs(alpha * Filter(alpha, dts, offset) - (dts + (alpha - 1) * offset)) <= alpha * (alpha - 1)
    ensures Abs(Filter(alpha, dts, offset)) <= Max(Abs(dts), Abs(offset))
  {
    var q1, q2 := DivC(dts, alpha), DivC(offset, alpha);
    DivCBounds(dts, alpha);
    DivCBounds(offset, alpha);
    var r1, r2 := dts - alpha * q1, offset - alpha * q2;
    FilterError(alpha, dts, offset, q1, q2, r1, r2);
    FilterMagnitude(alpha, dts, offset, q1, q2);
  }

  lemma FilterError(alpha: int, dts: int, offset: int, q1: int, q2: int, r1: int, r2: int)
    requires alpha >= 1 && dts == alpha * q1 + r1 && offset == alpha * q2 + r2
    requires Abs(r1) <= alpha - 1 && Abs(r2) <= alpha - 1
    ensures Abs(alpha * (q1 + (alpha - 1) * q2) - (dts + (alpha - 1) * offset)) <= alpha * (alpha - 1)
  {
    var k := alpha - 1;
    FilterIdentity(alpha, k, q1, q2, r1, r2);
    AbsProduct(k, r2);
    ProductMonotonic(k, Abs(r2), k);
    assert alpha * k == k + k * k;
  }

  lemma FilterIdentity(alpha: int, k: int, q1: int, q2: int, r1: int, r2: int)
    ensures alpha * (q1 + k * q2) - ((alpha * q1 + r1) + k * (alpha * q2 + r2)) == -(r1 + k * r2)
  {
    assert alpha * (q1 + k * q2) == alpha * q1 + alpha * (k * q2);
    assert k * (alpha * q2 + r2) == alpha * (k * q2) + k * r2;
  }

  /** |x / a| as the quotient of magnitudes */
  lemma DivCMagnitude(x: int, a: int)
    requires a >= 1
    ensures a * Abs(DivC(x, a)) <= Abs(x)
  {
    DivCBounds(x, a);
    if x < 0 {
      assert a * Abs(DivC(x, a)) == -(a * DivC(x, a));
    }
  }

  lemma FilterMagnitude(alpha: int, dts: int, offset: int, q1: int, q2: int)
    requires alpha >= 1 && q1 == DivC(dts, alpha) && q2 == DivC(offset, alpha)
    ensures Abs(q1 + (alpha - 1) * q2) <= Max(Abs(dts), Abs(offset))
  {
    DivCMagnitude(dts, alpha);
    DivCMagnitude(offset, alpha);
    var k, m := alpha - 1, Max(Abs(dts), Abs(offset));
    assert Abs(k * q2) == k * Abs(q2) by {
      AbsProduct(k, q2);
    }
    assert Abs(q1 + k * q2) <= Abs(q1) + k * Abs(q2);
    WeightedAtMost(alpha, Abs(q1), Abs(q2), m);
  }

  lemma AbsProduct(k: int, x: int)
    requires k >= 0
    ensures Abs(k * x) == k * Abs(x)
  {
    if x >= 0 {
      ProductMonotonic(k, 0, x);
    } else {
      ProductMonotonic(k, x, 0);
      assert k * -x == -(k * x);
    }
  }

  lemma WeightedAtMost(alpha: int, a: int, b: int, m: int)
    requires alpha >= 1 && alpha * a <= m && alpha * b <= m
    ensures a + (alpha - 1) * b <= m
  {
    assert alpha * (a + (alpha - 1) * b) == alpha * a + (alpha - 1) * (alpha * b);
    ProductMonotonic(alpha - 1, alpha * b, m);
    assert alpha * (a + (alpha - 1) * b) <= m + (alpha - 1) * m == alpha * m;
    assert alpha * (m + 1) == alpha * m + alpha;
    if a + (alpha - 1) * b > m {
      ProductMonotonic(alpha, m + 1, a + (alpha - 1) * b);
    }
  }

  /** A step towards a constant target: the error shrinks by the filter's weight, up to rounding. */
  lemma FilterContracts(alpha: int, dts: int, offset: int)
    requires alpha >= 1
    ensures alpha * Abs(Filter(alpha, dts, offset) - dts) <= (alpha - 1) * Abs(offset - dts) + alpha * (alpha - 1)
  {
    FilterBounds(alpha, dts, offset);
    var f := Filter(alpha, dts, offset);
    hide Filter;
    AbsProduct(alpha, f - dts);
    AbsProduct(alpha - 1, offset - dts);
    ErrorSplit(alpha, f, dts, offset);
  }

  lemma ErrorSplit(alpha: int, f: int, dts: int, offset: int)
    ensures alpha * (f - dts) == (alpha * f - (dts + (alpha - 1) * offset)) + (alpha - 1) * (offset - dts)
  {
    assert (alpha - 1) * (offset - dts) == (alpha - 1) * offset - alpha * dts + dts;
  }
}
