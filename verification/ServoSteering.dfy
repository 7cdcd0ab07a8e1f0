/** Which way the servo steers: what its adjustments are, as numbers, in terms of the two clocks, and
    that it never steers away from the master. */
module ServoSteering {
  import opened Arith
  import opened Servo
  import opened ServoProofs

  // ----- the frequency -----

  /** How many ppb the master runs ahead of a clock that filters with `alpha` over `before`. */
  function MasterAhead(alpha: real, before: real, dmts: int, dlts: int): real
    requires dlts != 0
  {
    1_000_000_000.0 * (alpha * (dmts as real / dlts as real) + (1.0 - alpha) * before - 1.0)
  }

  lemma MeasuredPpb(r: Rate, dmts: int, dlts: int)
    requires dlts != 0
    ensures var exact := MasterAhead(r.alpha, r.mrate, dmts, dlts);
            && AbsR(RatePpb(r, dmts, dlts) as real - exact) < 1.0
            && (exact >= 0.0 ==> RatePpb(r, dmts, dlts) >= 0) && (exact <= 0.0 ==> RatePpb(r, dmts, dlts) <= 0)
  {
    var x := Iir(r.alpha, dmts as real / dlts as real, r.mrate);
    assert MasterAhead(r.alpha, r.mrate, dmts, dlts) == (x - 1.0) * 1_000_000_000.0;
    hide Iir, MasterAhead;
    TruncBounds((x - 1.0) * 1_000_000_000.0);
  }

  /** The adjustment moves by `by` ppb, give or take one, as far as the limit lets it. */
  predicate MovedBy(adj: int, adj': int, step: real, limit: int) {
    && -limit <= adj' <= limit
    && (adj' < limit ==> adj as real + step < adj' as real + 1.0)
    && (adj' > -limit ==> adj as real + step > adj' as real - 1.0)
  }

  lemma ClampMoves(adj: int, ppb: int, step: real, limit: int)
    requires AbsR(ppb as real - step) < 1.0 && limit >= 0
    ensures MovedBy(adj, Clamp(adj + ppb, limit), step, limit)
  {
  }

  /** One update: the sample that is compared with the thresholds is the size of the measured
      difference, and the adjustment moves by that difference and the compensation, or stays where it
      is if they do not exceed the update threshold. */
  lemma UpdateMeasures(cfg: Cfg, s: State, dmts: int, dlts: int, comp: int)
    requires Valid(cfg) && dlts != 0
    ensures var s' := UpdateRate(cfg, s, dmts, dlts, comp);
            var exact := MasterAhead(s.rate.alpha, s.rate.mrate, dmts, dlts);
            && (exists gap: nat :: s'.rlog == s.rlog + [Sample(gap)] && AbsR(gap as real - AbsR(exact)) < 1.0)
            && (if s'.acts == s.acts
                then s'.rate.adjppb == s.rate.adjppb && s'.rate.mrate == s.rate.mrate
                     && AbsR(exact + comp as real) < cfg.rate.updatePpb as real + 1.0
                else && s'.acts == s.acts + [SetAdj(s'.rate.adjppb)] && s'.rate.mrate == 1.0
                     && MovedBy(s.rate.adjppb, s'.rate.adjppb, exact + comp as real, cfg.rate.maxAdj)
                     && AbsR(exact + comp as real) > cfg.rate.updatePpb as real - 1.0)
  {
    var exact := MasterAhead(s.rate.alpha, s.rate.mrate, dmts, dlts);
    var ppb := RatePpb(s.rate, dmts, dlts);
    MeasuredPpb(s.rate, dmts, dlts);
    hide RatePpb, MasterAhead;
    assert UpdateRate(cfg, s, dmts, dlts, comp).rlog == s.rlog + [Sample(Abs(ppb))] &&
           AbsR(Abs(ppb) as real - AbsR(exact)) < 1.0;
    ClampMoves(s.rate.adjppb, ppb + comp, exact + comp as real, cfg.rate.maxAdj);
  }

  /** A clock in step with its past: what every call after INITIALIZING finds. */
  predicate InStep(cfg: Cfg, s: State) {
    s.rate.mrate == 1.0 && 0.0 < s.rate.alpha <= 1.0 && Abs(s.rate.adjppb) <= cfg.rate.maxAdj
  }

  lemma AheadOrBehind(alpha: real, dmts: int, dlts: int)
    requires 0.0 < alpha && dlts > 0
    ensures dmts >= dlts ==> MasterAhead(alpha, 1.0, dmts, dlts) >= 0.0
    ensures dmts <= dlts ==> MasterAhead(alpha, 1.0, dmts, dlts) <= 0.0
  {
    var q := dmts as real / dlts as real;
    assert q * dlts as real == dmts as real;
    assert alpha * q + (1.0 - alpha) * 1.0 - 1.0 == alpha * (q - 1.0);
    if dmts >= dlts {
      QuotientAtLeastOne(q, dmts, dlts);
    }
    if dmts <= dlts {
      QuotientAtMostOne(q, dmts, dlts);
    }
  }

  lemma QuotientAtLeastOne(q: real, dmts: int, dlts: int)
    requires dlts > 0 && q * dlts as real == dmts as real && dmts >= dlts
    ensures q >= 1.0
  {
    assert q < 1.0 ==> (1.0 - q) * dlts as real > 0.0;
  }

  lemma QuotientAtMostOne(q: real, dmts: int, dlts: int)
    requires dlts > 0 && q * dlts as real == dmts as real && dmts <= dlts
    ensures q <= 1.0
  {
    assert q > 1.0 ==> (q - 1.0) * dlts as real > 0.0;
  }

  /** Towards the master: never slower while the master is the faster one, and never faster while it
      is the slower one. */
  predicate Towards(adj: int, adj': int, dmts: int, dlts: int) {
    (dmts >= dlts ==> adj' >= adj) && (dmts <= dlts ==> adj' <= adj)
  }

  lemma UpdateSteersTowards(cfg: Cfg, s: State, dmts: int, dlts: int)
    requires Valid(cfg) && dlts > 0 && InStep(cfg, s)
    ensures Towards(s.rate.adjppb, UpdateRate(cfg, s, dmts, dlts, 0).rate.adjppb, dmts, dlts)
  {
    MeasuredPpb(s.rate, dmts, dlts);
    AheadOrBehind(s.rate.alpha, dmts, dlts);
    hide RatePpb, MasterAhead;
  }

  // ----- the phase -----

  /** The weight of the new sample is one part in this many. */
  function Weight(cfg: Cfg, adj: Adj, gap: nat): int {
    if gap >= 1_000_000 then 1
    else match adj
      case NotAdj => 1
      case StartAdj => 1
      case UnstableAdj => cfg.phase.alphaStart
      case StableAdj => cfg.phase.alphaStable
  }

  /** x is that weighted average of the sample and the offset before it, up to rounding. */
  predicate Averages(alpha: int, x: int, dts: int, before: int) {
    Abs(alpha * x - (dts + (alpha - 1) * before)) <= alpha * (alpha - 1)
  }

  /** A phase sample does nothing to the clock, or sets an offset that averages the sample with the
      one before, or hands the difference to the frequency side and keeps the offset. */
  lemma PhaseSampleEffect(cfg: Cfg, s: State, dts: int, dlts: int, gm: int)
    requires Valid(cfg)
    ensures var (s', comp) := SetPhase(cfg, s, dts, dlts, gm);
            var alpha := Weight(cfg, s.phase.adj, Abs(dts - s.phase.offset));
            if s'.acts == s.acts then
              && s'.phase.offset == s.phase.offset && s'.rate == s.rate
              && (comp != 0 && comp != NOOP ==>
                    && cfg.phase.byFreq && Abs(comp) < cfg.phase.byFreqBelow
                    && Averages(alpha, s.phase.offset + comp, dts, s.phase.offset))
            else
              && comp == 0
              && |s'.acts| == |s.acts| + 1 && s'.acts[..|s.acts|] == s.acts && s'.acts[|s.acts|].SetOffset?
              && Averages(alpha, s'.acts[|s.acts|].offset, dts, s.phase.offset)
              && s'.phase.offset == (if cfg.phase.hwPhase then 0 else s'.acts[|s.acts|].offset)
              && s'.rate == (if cfg.phase.hwPhase then s.rate.(skip := cfg.rate.skipMax) else s.rate)
  {
    FilterBounds(cfg.phase.alphaStart, dts, s.phase.offset);
    FilterBounds(cfg.phase.alphaStable, dts, s.phase.offset);
    hide Filter, PhaseEntry, Waits;
  }

  /** A sample that comes before the compute interval is over, of a clock that is being followed,
      changes nothing at all; the next difference is taken from the last one that counted. */
  lemma EarlySampleChangesNothing(cfg: Cfg, s: State, lts: nat, mts: nat, gm: int)
    requires Valid(cfg) && (!cfg.rate.quick || s.rate.stable) && s.phase.adj in {UnstableAdj, StableAdj}
    requires lts != 0 && mts != 0 && mts != s.lastMts
    requires 0 < lts - s.lastLts < cfg.phase.intervalMsec * 1_000_000
    requires Abs(mts - lts - s.phase.offset) < 1_000_000
    ensures Compute(cfg, s, lts, mts, gm) == s
  {
    assert s.(phase := s.phase) == s;
  }

  // ----- all runs -----

  lemma InverseIsWeight(alpha: int)
    requires alpha >= 1
    ensures 0.0 < Inverse(alpha) <= 1.0
  {
    assert Inverse(alpha) * alpha as real == 1.0;
  }

  lemma UpdateInStep(cfg: Cfg, s: State, dmts: int, dlts: int, comp: int)
    requires Valid(cfg) && dlts != 0 && InStep(cfg, s)
    ensures InStep(cfg, UpdateRate(cfg, s, dmts, dlts, comp))
  {
    InverseIsWeight(cfg.rate.alphaStart);
    InverseIsWeight(cfg.rate.alphaStable);
    hide Inverse, RatePpb;
  }

  lemma AfterPhaseInStep(cfg: Cfg, s: State, lts: int, mts: int, comp: int)
    requires Valid(cfg) && lts != s.lastLts && InStep(cfg, s)
    ensures InStep(cfg, AfterPhase(cfg, s, lts, mts, comp))
  {
    UpdateInStep(cfg, s.(lastLts := lts, lastMts := mts), mts - s.lastMts, lts - s.lastLts, comp);
    hide UpdateRate;
  }

  /** The phase side changes neither the rate nor when the last Sync was. */
  lemma PhaseKeepsRate(cfg: Cfg, s: State, dts: int, dlts: int, gm: int)
    requires Valid(cfg)
    ensures var s' := SetPhase(cfg, s, dts, dlts, gm).0;
            && s'.rate == s.rate.(skip := s'.rate.skip)
            && s'.lastLts == s.lastLts && s'.lastMts == s.lastMts
            && LastAdj(s'.acts) == LastAdj(s.acts)
  {
    PhaseSampleEffect(cfg, s, dts, dlts, gm);
    SetPhaseKeepsLast(cfg, s, dts, dlts, gm);
    hide SetPhase, Averages, Weight;
    var s' := SetPhase(cfg, s, dts, dlts, gm).0;
    if s'.acts != s.acts {
      assert s'.acts == s.acts + [s'.acts[|s.acts|]];
      OneMoreAct(s.acts, s'.acts[|s.acts|]);
    }
  }

  lemma PhaseInStep(cfg: Cfg, s: State, dts: int, dlts: int, gm: int)
    requires Valid(cfg) && InStep(cfg, s)
    ensures InStep(cfg, SetPhase(cfg, s, dts, dlts, gm).0) && SetPhase(cfg, s, dts, dlts, gm).0.lastLts == s.lastLts
  {
    hide SetPhase, LastAdj;
    PhaseKeepsRate(cfg, s, dts, dlts, gm);
  }

  lemma ComputeInStep(cfg: Cfg, s: State, lts: nat, mts: nat, gm: int)
    requires Valid(cfg) && InStep(cfg, s)
    ensures InStep(cfg, Compute(cfg, s, lts, mts, gm))
  {
    hide SetPhase, AfterPhase;
    if mts == s.lastMts || lts == s.lastLts || mts == 0 || lts == 0 {
      assert Compute(cfg, s, lts, mts, gm) == Restart(s);
    } else {
      hide InStep, Restart;
      PhaseInStep(cfg, s, mts - lts, lts - s.lastLts, gm);
      var (s1, comp) := if !cfg.rate.quick || s.rate.stable
                        then SetPhase(cfg, s, mts - lts, lts - s.lastLts, gm) else (s, 0);
      AfterPhaseInStep(cfg, s1, lts, mts, comp);
    }
  }

  lemma HandleInStep(cfg: Cfg, s: State, ev: Event)
    requires Valid(cfg) && Abs(s.rate.adjppb) <= cfg.rate.maxAdj && (ev.Initialize? || InStep(cfg, s))
    ensures InStep(cfg, Handle(cfg, s, ev))
  {
    InverseIsWeight(cfg.rate.alphaStart);
    hide Inverse, Compute;
    if ev.SourceTime? {
      ComputeInStep(cfg, s, ev.lts, ev.mts, ev.gm);
    }
  }

  lemma {:induction false} RunInStep(cfg: Cfg, evs: seq<Event>)
    requires Valid(cfg) && evs != [] && evs[0].Initialize?
    ensures InStep(cfg, Run(cfg, evs))
    decreases |evs|
  {
    hide Handle;
    var before := evs[..|evs| - 1];
    AdjustmentsAreLimited(cfg, before);
    if before != [] {
      RunInStep(cfg, before);
    }
    HandleInStep(cfg, Run(cfg, before), evs[|evs| - 1]);
  }

  /** The Sync that a call looks at is a new one and later than the last one that counted. */
  predicate NewSync(s: State, lts: nat, mts: nat) { lts > s.lastLts && mts != s.lastMts && mts != 0 }

  lemma AfterPhaseSteersTowards(cfg: Cfg, s: State, lts: int, mts: int)
    requires Valid(cfg) && lts > s.lastLts && InStep(cfg, s)
    ensures Towards(s.rate.adjppb, AfterPhase(cfg, s, lts, mts, 0).rate.adjppb, mts - s.lastMts, lts - s.lastLts)
  {
    UpdateSteersTowards(cfg, s.(lastLts := lts, lastMts := mts), mts - s.lastMts, lts - s.lastLts);
    hide UpdateRate;
  }

  lemma NoCompensation(cfg: Cfg, s: State, dts: int, dlts: int, gm: int)
    requires Valid(cfg) && !cfg.phase.byFreq
    ensures SetPhase(cfg, s, dts, dlts, gm).1 in {0, NOOP}
  {
    PhaseSampleEffect(cfg, s, dts, dlts, gm);
    hide SetPhase, Averages, Weight;
  }

  lemma ComputeSteersTowards(cfg: Cfg, s: State, lts: nat, mts: nat, gm: int)
    requires Valid(cfg) && !cfg.phase.byFreq && InStep(cfg, s) && NewSync(s, lts, mts)
    ensures Towards(s.rate.adjppb, Compute(cfg, s, lts, mts, gm).rate.adjppb, mts - s.lastMts, lts - s.lastLts)
  {
    PhaseKeepsRate(cfg, s, mts - lts, lts - s.lastLts, gm);
    NoCompensation(cfg, s, mts - lts, lts - s.lastLts, gm);
    hide SetPhase, AfterPhase, LastAdj;
    var s1 := if !cfg.rate.quick || s.rate.stable then SetPhase(cfg, s, mts - lts, lts - s.lastLts, gm).0 else s;
    AfterPhaseSteersTowards(cfg, s1, lts, mts);
  }

  /** Over all runs that begin with INITIALIZING, and with phase differences left to phase steps: a
      new Sync never lowers the adjustment while the master has counted more than the clock since
      the last Sync that counted, and never raises it while it has counted less. */
  lemma SteersTowardsMaster(cfg: Cfg, evs: seq<Event>, lts: nat, mts: nat, gm: int, unsync: bool)
    requires Valid(cfg) && !cfg.phase.byFreq && evs != [] && evs[0].Initialize?
    requires NewSync(Run(cfg, evs), lts, mts)
    ensures var s := Run(cfg, evs);
            var s' := Run(cfg, evs + [SourceTime(lts, mts, gm, unsync)]);
            Towards(s.rate.adjppb, s'.rate.adjppb, mts - s.lastMts, lts - s.lastLts)
  {
    hide Compute, Towards, Run, NewSync;
    RunInStep(cfg, evs);
    RunOneMore(cfg, evs, SourceTime(lts, mts, gm, unsync));
    ComputeSteersTowards(cfg, Run(cfg, evs), lts, mts, gm);
  }

  // ----- what the clock was told -----

  /** The latest rate and offset that were given to the clock. */
  function LastAdj(acts: seq<Act>): Option<int> {
    if acts == [] then None
    else if acts[|acts| - 1].SetAdj? then Some(acts[|acts| - 1].ppb) else LastAdj(acts[..|acts| - 1])
  }

  /** The adjustment the servo counts with is the one the clock has. */
  predicate Told(s: State) {
    s.rate.adjppb == if LastAdj(s.acts).Some? then LastAdj(s.acts).value else 0
  }

  lemma OneMoreAct(acts: seq<Act>, act: Act)
    ensures LastAdj(acts + [act]) == if act.SetAdj? then Some(act.ppb) else LastAdj(acts)
  {
    assert (acts + [act])[..|acts + [act]| - 1] == acts;
  }

  lemma UpdateTells(cfg: Cfg, s: State, dmts: int, dlts: int, comp: int)
    requires Valid(cfg) && dlts != 0 && Told(s)
    ensures Told(UpdateRate(cfg, s, dmts, dlts, comp))
  {
    UpdateMeasures(cfg, s, dmts, dlts, comp);
    var s' := UpdateRate(cfg, s, dmts, dlts, comp);
    OneMoreAct(s.acts, SetAdj(s'.rate.adjppb));
    hide UpdateRate, MasterAhead;
  }

  lemma AfterPhaseTells(cfg: Cfg, s: State, lts: int, mts: int, comp: int)
    requires Valid(cfg) && lts != s.lastLts && Told(s)
    ensures Told(AfterPhase(cfg, s, lts, mts, comp))
  {
    UpdateTells(cfg, s.(lastLts := lts, lastMts := mts), mts - s.lastMts, lts - s.lastLts, comp);
    hide UpdateRate, LastAdj;
  }

  lemma PhaseTells(cfg: Cfg, s: State, dts: int, dlts: int, gm: int)
    requires Valid(cfg) && Told(s)
    ensures Told(SetPhase(cfg, s, dts, dlts, gm).0) && SetPhase(cfg, s, dts, dlts, gm).0.lastLts == s.lastLts
  {
    hide SetPhase, LastAdj;
    PhaseKeepsRate(cfg, s, dts, dlts, gm);
  }

  lemma ComputeTells(cfg: Cfg, s: State, lts: nat, mts: nat, gm: int)
    requires Valid(cfg) && Told(s)
    ensures Told(Compute(cfg, s, lts, mts, gm))
  {
    hide SetPhase, AfterPhase, LastAdj;
    if mts == s.lastMts || lts == s.lastLts || mts == 0 || lts == 0 {
      assert Compute(cfg, s, lts, mts, gm) == Restart(s);
    } else {
      hide Told, Restart;
      PhaseTells(cfg, s, mts - lts, lts - s.lastLts, gm);
      var (s1, comp) := if !cfg.rate.quick || s.rate.stable
                        then SetPhase(cfg, s, mts - lts, lts - s.lastLts, gm) else (s, 0);
      AfterPhaseTells(cfg, s1, lts, mts, comp);
    }
  }

  lemma HandleTells(cfg: Cfg, s: State, ev: Event)
    requires Valid(cfg) && Told(s)
    ensures Told(Handle(cfg, s, ev))
  {
    if ev.SourceTime? {
      var s1 := Compute(cfg, s, ev.lts, ev.mts, ev.gm);
      ComputeTells(cfg, s, ev.lts, ev.mts, ev.gm);
      OneMoreAct(s1.acts, DeclareSync);
      OneMoreAct(s1.acts, DeclareStable(|s1.plog|, |s1.rlog|));
    }
    hide Compute, LastAdj;
  }

  /** After every run the rate the servo keeps is the one it last gave to the clock, or 0. */
  lemma {:induction false} AdjustmentIsTold(cfg: Cfg, evs: seq<Event>)
    requires Valid(cfg)
    ensures Told(Run(cfg, evs))
    decreases |evs|
  {
    if evs == [] {
      assert LastAdj([]) == None;
    } else {
      hide Told, Handle;
      AdjustmentIsTold(cfg, evs[..|evs| - 1]);
      HandleTells(cfg, Run(cfg, evs[..|evs| - 1]), evs[|evs| - 1]);
    }
  }

  // ----- what counts as a sample -----

  /** A Sync reaches the rate filter if and only if the two clocks have not run apart by more than a
      tenth of a second since the last one and no updates are to be skipped; otherwise the adjustment
      stays, and a skip is used up unless the gap was too big. */
  lemma SampleCountsIff(cfg: Cfg, s: State, lts: int, mts: int, comp: int)
    requires Valid(cfg) && lts != s.lastLts
    ensures var s' := AfterPhase(cfg, s, lts, mts, comp);
            var near := Abs((mts - s.lastMts) - (lts - s.lastLts)) <= 100_000_000;
            && s'.lastLts == lts && s'.lastMts == mts
            && if near && s.rate.skip <= 0 then |s'.rlog| == |s.rlog| + 1
               else s'.rlog == s.rlog && s'.acts == s.acts
                    && s'.rate == s.rate.(skip := if near then s.rate.skip - 1 else s.rate.skip)
  {
    UpdateMeasures(cfg, s.(lastLts := lts, lastMts := mts), mts - s.lastMts, lts - s.lastLts, comp);
    UpdateKeepsLast(cfg, s.(lastLts := lts, lastMts := mts), mts - s.lastMts, lts - s.lastLts, comp);
    hide UpdateRate, MasterAhead;
  }

  lemma UpdateKeepsLast(cfg: Cfg, s: State, dmts: int, dlts: int, comp: int)
    requires Valid(cfg) && dlts != 0
    ensures var s' := UpdateRate(cfg, s, dmts, dlts, comp);
            s'.lastLts == s.lastLts && s'.lastMts == s.lastMts
  {
    hide RatePpb;
  }

  /** The weight of a rate sample follows the stability of the rate: one part in alphaStable when it
      becomes stable, one in alphaStart when it is lost, and otherwise what it was. */
  lemma WeightFollowsStability(cfg: Cfg, s: State, dmts: int, dlts: int, comp: int)
    requires Valid(cfg) && dlts != 0
    ensures var r, r' := s.rate, UpdateRate(cfg, s, dmts, dlts, comp).rate;
            && (r'.stable && !r.stable ==> r'.alpha * cfg.rate.alphaStable as real == 1.0)
            && (r.stable && !r'.stable ==> r'.alpha * cfg.rate.alphaStart as real == 1.0)
            && (r.stable == r'.stable ==> r'.alpha == r.alpha)
  {
    hide RatePpb;
    var start, stable := Inverse(cfg.rate.alphaStart), Inverse(cfg.rate.alphaStable);
    assert start * cfg.rate.alphaStart as real == 1.0 && stable * cfg.rate.alphaStable as real == 1.0;
    hide Inverse;
  }

  /** With a stable phase and the same grandmaster one sample that is off by 1 ms or more is dropped;
      the sample after it is taken as it is, whatever it says. */
  lemma JumpNeedsTwoSamples(cfg: Cfg, s: State, dts: int, dlts: int, gm: int, dts': int, dlts': int)
    requires Valid(cfg) && s.phase.adj == StableAdj && s.phase.gmInd == gm && gm != 0
    requires Abs(dts - s.phase.offset) >= 1_000_000 && !cfg.phase.byFreq
    ensures var (s1, comp) := SetPhase(cfg, s, dts, dlts, gm);
            var s2 := SetPhase(cfg, s1, dts', dlts', gm).0;
            && comp == 0 && s1.acts == s.acts && s1.phase == s.phase.(adj := NotAdj)
            && s2.acts == s.acts + [SetOffset(dts')] && s2.phase.adj == UnstableAdj
            && s2.phase.offset == if cfg.phase.hwPhase then 0 else dts'
  {
  }

  /** A jump of 1 ms or more is taken at once while no stable grandmaster is remembered, if it is
      another one now, or if the sample before was dropped. */
  lemma OtherJumpsAreTaken(cfg: Cfg, s: State, dts: int, dlts: int, gm: int)
    requires Valid(cfg) && !cfg.phase.byFreq && Abs(dts - s.phase.offset) >= 1_000_000
    requires s.phase.gmInd == 0 || s.phase.gmInd != gm || s.phase.adj == NotAdj
    ensures var s' := SetPhase(cfg, s, dts, dlts, gm).0;
            && s'.acts == s.acts + [SetOffset(dts)] && s'.phase.adj == UnstableAdj && s'.phase.count == 0
            && s'.phase.offset == if cfg.phase.hwPhase then 0 else dts
  {
  }

  /** The grandmaster that is remembered is the one under which the phase became stable. */
  lemma StableRemembersMaster(cfg: Cfg, s: State, dts: int, dlts: int, gm: int)
    requires Valid(cfg)
    ensures var p, p' := s.phase, SetPhase(cfg, s, dts, dlts, gm).0.phase;
            p'.gmInd == if p.adj != StableAdj && p'.adj == StableAdj then gm else p.gmInd
  {
    hide Filter;
  }

  /** A call without a new Sync starts everything over: the first Sync after it sets the phase and
      leaves the frequency alone. */
  lemma FirstSyncAfterGapIsSkipped(cfg: Cfg, s: State, lts: nat, mts: nat, gm: int, lts': nat, mts': nat)
    requires Valid(cfg) && !cfg.phase.hwPhase
    requires mts == 0 || lts == 0 || mts == s.lastMts || lts == s.lastLts
    ensures var s1 := Compute(cfg, s, lts, mts, gm);
            var s2 := Compute(cfg, s1, lts', mts', gm);
            && s1.acts == s.acts && !s1.rate.stable && s1.phase.adj == StartAdj && s1.lastLts == s.lastLts
            && s2.rate.adjppb == s.rate.adjppb && LastAdj(s2.acts) == LastAdj(s.acts)
  {
    var s1 := Compute(cfg, s, lts, mts, gm);
    assert s1 == Restart(s);
    hide SetPhase, AfterPhase, LastAdj, Restart;
    if !(mts' == s1.lastMts || lts' == s1.lastLts || mts' == 0 || lts' == 0) {
      PhaseKeepsRate(cfg, s1, mts' - lts', lts' - s1.lastLts, gm);
      PhaseSkipsOn(cfg, s1, mts' - lts', lts' - s1.lastLts, gm);
      var (s2, comp) := if !cfg.rate.quick || s1.rate.stable
                        then SetPhase(cfg, s1, mts' - lts', lts' - s1.lastLts, gm) else (s1, 0);
      SampleCountsIff(cfg, s2, lts', mts', comp);
    } else {
      assert Compute(cfg, s1, lts', mts', gm) == Restart(s1);
      RestartKeepsAdj(s1);
    }
  }

  lemma RestartKeepsAdj(s: State)
    ensures Restart(s).rate.adjppb == s.rate.adjppb && Restart(s).acts == s.acts
  {
  }

  lemma PhaseSkipsOn(cfg: Cfg, s: State, dts: int, dlts: int, gm: int)
    requires Valid(cfg) && !cfg.phase.hwPhase
    ensures SetPhase(cfg, s, dts, dlts, gm).0.rate == s.rate
  {
    PhaseSampleEffect(cfg, s, dts, dlts, gm);
    hide SetPhase, Averages, Weight;
  }

  /** INITIALIZING forgets the offset, the rate and the last Sync, and keeps what the clock was told
      and the phase state. */
  lemma InitializingForgets(cfg: Cfg, s: State)
    requires Valid(cfg)
    ensures var s' := Handle(cfg, s, Initialize);
            && s'.phase.offset == 0 && s'.phase.count == 0 && s'.phase.adj == s.phase.adj && s'.phase.gmInd == s.phase.gmInd
            && s'.rate.mrate == 1.0 && s'.rate.alpha * cfg.rate.alphaStart as real == 1.0
            && !s'.rate.stable && s'.rate.count == 0 && s'.rate.skip == 0 && s'.rate.adjppb == s.rate.adjppb
            && s'.lastLts == 0 && s'.lastMts == 0 && s'.acts == s.acts
  {
  }
}
