/** What holds of the servo over all runs: the filter settles, adjustments stay within their
    limit, and a side is stable exactly when its history says so. */
module ServoProofs {
  import opened Arith
  import opened Servo

  // ----- the filter, sample after sample -----

  /** n samples of the same time difference */
  function Filtered(alpha: int, dts: int, offset: int, n: nat): int
    requires alpha >= 1
  {
    if n == 0 then offset else Filter(alpha, dts, Filtered(alpha, dts, offset, n - 1))
  }

  /** The offset comes at least 1 ns closer with each sample until it is within
      alpha * (alpha - 1) ns of the difference, and stays there. */
  lemma {:induction false} FilterSettles(alpha: int, dts: int, offset: int, n: nat)
    requires alpha >= 1
    ensures Abs(Filtered(alpha, dts, offset, n) - dts) <= Max(alpha * (alpha - 1), Abs(offset - dts) - n)
  {
    if n > 0 {
      FilterSettles(alpha, dts, offset, n - 1);
      var f := Filtered(alpha, dts, offset, n - 1);
      FilterContracts(alpha, dts, f);
      Closer(alpha, Abs(f - dts), Abs(Filter(alpha, dts, f) - dts));
    }
  }

  lemma Closer(alpha: int, e: nat, e': nat)
    requires alpha >= 1 && alpha * e' <= (alpha - 1) * e + alpha * (alpha - 1)
    ensures e' <= Max(alpha * (alpha - 1), e - 1)
  {
    var b := alpha * (alpha - 1);
    assert (alpha - 1) * e == alpha * e - e;
    assert (alpha - 1) * b == alpha * b - b;
    assert alpha * (b + 1) == alpha * b + alpha;
    if e <= b {
      ProductMonotonic(alpha - 1, e, b);
      if e' > b {
        ProductMonotonic(alpha, b + 1, e');
      }
    } else if e' >= e {
      ProductMonotonic(alpha, e, e');
    }
  }

  // ----- the phase side, sample after sample -----

  function Rounding(cfg: Cfg): (r: int)
    requires Valid(cfg)
    ensures r >= 0
  {
    ProductMonotonic(cfg.phase.alphaStart - 1, 0, cfg.phase.alphaStart);
    Max(cfg.phase.alphaStart * (cfg.phase.alphaStart - 1), cfg.phase.alphaStable * (cfg.phase.alphaStable - 1))
  }

  function Error(s: State, dts: int): nat { Abs(s.phase.offset - dts) }

  /** How many samples in a row may be left out: the one at which the grandmaster changes, and a
      first big jump after it. */
  function Slack(adj: Adj): nat {
    match adj
    case NotAdj => 2
    case StartAdj => 1
    case _ => 0
  }

  /** A sample that is not too early to be looked at. */
  predicate InTime(cfg: Cfg, dlts: int) { dlts <= 0 || dlts >= cfg.phase.intervalMsec * MSEC_NS }

  /** A sample brings the offset at least 1 ns closer, down to the rounding, unless it is one of
      the few left out; after those the offset is taken over as it is. */
  lemma SampleCloses(cfg: Cfg, s: State, dts: int, dlts: int, gm: int)
    requires Valid(cfg) && !cfg.phase.hwPhase && !cfg.phase.byFreq && InTime(cfg, dlts)
    ensures var s' := SetPhase(cfg, s, dts, dlts, gm).0;
            || (Error(s', dts) <= Max(Rounding(cfg), if Slack(s.phase.adj) > 0 then 0 else Error(s, dts) - 1)
                && Slack(s'.phase.adj) == 0)
            || (Error(s', dts) == Error(s, dts) && Slack(s'.phase.adj) > Slack(s.phase.adj))
  {
    FilterCloses(cfg, dts, s.phase.offset);
    hide Filter, Rounding;
  }

  lemma FilterCloses(cfg: Cfg, dts: int, offset: int)
    requires Valid(cfg)
    ensures var closer := Max(Rounding(cfg), Abs(offset - dts) - 1);
            && Abs(Filter(cfg.phase.alphaStart, dts, offset) - dts) <= closer
            && Abs(Filter(cfg.phase.alphaStable, dts, offset) - dts) <= closer
  {
    var start, stable := cfg.phase.alphaStart, cfg.phase.alphaStable;
    FilterContracts(start, dts, offset);
    Closer(start, Abs(offset - dts), Abs(Filter(start, dts, offset) - dts));
    FilterContracts(stable, dts, offset);
    Closer(stable, Abs(offset - dts), Abs(Filter(stable, dts, offset) - dts));
    hide Filter;
  }

  /** The phase side after samples of one time difference, each with its spacing and indicator. */
  function Tracked(cfg: Cfg, s: State, dts: int, samples: seq<(int, int)>): State
    requires Valid(cfg)
    decreases |samples|
  {
    if samples == [] then s
    else
      var n := |samples| - 1;
      SetPhase(cfg, Tracked(cfg, s, dts, samples[..n]), dts, samples[n].0, samples[n].1).0
  }

  /** Whatever the state and the changes of grandmaster, the offset comes at least 1 ns closer to
      a constant time difference with each sample in time, but for two, until it is within the
      rounding, and stays there. */
  lemma {:induction false} PhaseSettles(cfg: Cfg, s: State, dts: int, samples: seq<(int, int)>)
    requires Valid(cfg) && !cfg.phase.hwPhase && !cfg.phase.byFreq
    requires forall sample <- samples :: InTime(cfg, sample.0)
    ensures var s' := Tracked(cfg, s, dts, samples);
            Error(s', dts) <= Max(Rounding(cfg), Error(s, dts) - |samples| + Slack(s'.phase.adj))
    decreases |samples|
  {
    hide SetPhase, Rounding;
    if samples != [] {
      var n := |samples| - 1;
      PhaseSettles(cfg, s, dts, samples[..n]);
      assert samples[n] in samples;
      SampleCloses(cfg, Tracked(cfg, s, dts, samples[..n]), dts, samples[n].0, samples[n].1);
    }
  }

  // ----- histories -----

  predicate Inside(entry: Entry, bound: int) { entry.Sample? && entry.gap < bound }

  /** An entry after which a settled history stays settled. A loose reading of the history looks
      past the resetting by INITIALIZING. */
  predicate Keeps(entry: Entry, keep: int, loose: bool) {
    Inside(entry, keep + 1) || (loose && entry.Reinitialized?)
  }

  /** How many entries at the end of the history are below the bound. */
  function Trailing(log: seq<Entry>, bound: int): (n: nat)
    ensures n <= |log|
    ensures forall k | |log| - n <= k < |log| :: Inside(log[k], bound)
  {
    var n := |log| - 1;
    if log == [] || !Inside(log[n], bound) then 0 else Trailing(log[..n], bound) + 1
  }

  /** Three entries in a row below `inside`, and since then none beyond `keep` and no reset. */
  predicate Settled(log: seq<Entry>, inside: int, keep: int, loose: bool)
    decreases |log|
  {
    && log != []
    && (Trailing(log, inside) >= STABLE_TRNS
        || (Keeps(log[|log| - 1], keep, loose) && Settled(log[..|log| - 1], inside, keep, loose)))
  }

  predicate SettledAt(log: seq<Entry>, inside: int, keep: int, loose: bool, k: nat) {
    && STABLE_TRNS <= k <= |log|
    && (forall j | k - STABLE_TRNS <= j < k :: Inside(log[j], inside))
    && (forall j | k <= j < |log| :: Keeps(log[j], keep, loose))
  }

  lemma {:induction false} TrailingAtLeast(log: seq<Entry>, bound: int, n: nat)
    requires n <= |log| && forall k | |log| - n <= k < |log| :: Inside(log[k], bound)
    ensures Trailing(log, bound) >= n
  {
    if n > 0 {
      TrailingAtLeast(log[..|log| - 1], bound, n - 1);
    }
  }

  /** The same without recursion. */
  lemma {:induction false} SettledMeans(log: seq<Entry>, inside: int, keep: int, loose: bool)
    ensures Settled(log, inside, keep, loose) <==> exists k: nat :: SettledAt(log, inside, keep, loose, k)
    decreases |log|
  {
    if log != [] {
      var log1 := log[..|log| - 1];
      SettledMeans(log1, inside, keep, loose);
      if Trailing(log, inside) >= STABLE_TRNS {
        assert SettledAt(log, inside, keep, loose, |log|);
      } else if Settled(log, inside, keep, loose) {
        var k: nat :| SettledAt(log1, inside, keep, loose, k);
        assert SettledAt(log, inside, keep, loose, k);
      }
      if k: nat :| SettledAt(log, inside, keep, loose, k) {
        if k == |log| {
          TrailingAtLeast(log, inside, STABLE_TRNS);
        } else {
          assert SettledAt(log1, inside, keep, loose, k);
        }
      }
    }
  }

  /** A side of the servo agrees with its history. The two thresholds are normally ordered. */
  predicate Agrees(log: seq<Entry>, inside: int, keep: int, loose: bool, stable: bool, count: int) {
    && (stable ==> Settled(log, inside, keep, loose))
    && (!stable ==> 0 <= count <= Trailing(log, inside) && count < STABLE_TRNS)
    && (inside <= keep + 1 ==>
          && (Settled(log, inside, keep, loose) ==> stable)
          && (!stable ==> count == Trailing(log, inside)))
  }

  lemma AgreesAfterReset(log: seq<Entry>, inside: int, keep: int, loose: bool, entry: Entry)
    requires entry.StartedOver? || (entry.Reinitialized? && !loose)
    ensures Agrees(log + [entry], inside, keep, loose, false, 0)
  {
  }

  /** The loose reading looks past INITIALIZING when the side is stable; when it is not, the
      count starts again all the same. */
  lemma AgreesAfterReinitialized(log: seq<Entry>, inside: int, keep: int, stable: bool, count: int)
    requires Agrees(log, inside, keep, true, stable, count)
    ensures Agrees(log + [Reinitialized], inside, keep, true, stable, 0)
  {
    var log1 := log + [Reinitialized];
    assert log1[..|log1| - 1] == log;
  }

  lemma AgreesAfterSample(
      log: seq<Entry>, inside: int, keep: int, loose: bool, stable: bool, count: int, gap: nat)
    requires Agrees(log, inside, keep, loose, stable, count)
    ensures var log1 := log + [Sample(gap)];
            if stable then Agrees(log1, inside, keep, loose, gap <= keep, 0)
            else if gap >= inside then Agrees(log1, inside, keep, loose, false, 0)
            else Agrees(log1, inside, keep, loose, count + 1 >= STABLE_TRNS, count + 1)
  {
    var log1 := log + [Sample(gap)];
    assert log1[..|log1| - 1] == log;
  }

  // ----- the invariant -----

  predicate PhaseSettled(log: seq<Entry>, loose: bool) {
    Settled(log, PHASE_STABLE_CRITERION, PHASE_UNSTABLE_CRITERION, loose)
  }

  predicate RateSettled(cfg: Cfg, log: seq<Entry>) {
    Settled(log, cfg.rate.stablePpb, cfg.rate.leapPpb, false)
  }

  predicate PhaseAgrees(s: State, loose: bool) {
    var count := if s.phase.adj == UnstableAdj then s.phase.count else 0;
    && (s.phase.adj == StableAdj ==> s.phase.count == 0)
    && Agrees(s.plog, PHASE_STABLE_CRITERION, PHASE_UNSTABLE_CRITERION, loose, s.phase.adj == StableAdj, count)
  }

  predicate RateAgrees(cfg: Cfg, s: State) {
    Agrees(s.rlog, cfg.rate.stablePpb, cfg.rate.leapPpb, false, s.rate.stable, s.rate.count)
  }

  /** Adjustments within the limit, and declarations only with both histories settled. */
  predicate Sound(cfg: Cfg, act: Act, plog: seq<Entry>, rlog: seq<Entry>, loose: bool) {
    match act
    case SetAdj(ppb) => Arith.Abs(ppb) <= cfg.rate.maxAdj
    case DeclareStable(p, r) =>
      p <= |plog| && r <= |rlog| && PhaseSettled(plog[..p], loose) && RateSettled(cfg, rlog[..r])
    case _ => true
  }

  predicate ActsSound(cfg: Cfg, s: State, loose: bool) {
    Abs(s.rate.adjppb) <= cfg.rate.maxAdj && forall act <- s.acts :: Sound(cfg, act, s.plog, s.rlog, loose)
  }

  /** With the loose reading this holds of every run, with the strict one of some. */
  predicate Inv(cfg: Cfg, s: State, loose: bool) {
    PhaseAgrees(s, loose) && RateAgrees(cfg, s) && ActsSound(cfg, s, loose)
  }

  /** Histories only grow, and what is done in between has to be sound only at the end. */
  predicate Extends(cfg: Cfg, s: State, t: State, loose: bool) {
    && s.plog <= t.plog && s.rlog <= t.rlog && s.acts <= t.acts
    && Abs(t.rate.adjppb) <= cfg.rate.maxAdj
    && forall act <- t.acts[|s.acts|..] :: Sound(cfg, act, t.plog, t.rlog, loose)
  }

  lemma ExtendsKeepsActs(cfg: Cfg, s: State, t: State, loose: bool)
    requires ActsSound(cfg, s, loose) && Extends(cfg, s, t, loose)
    ensures ActsSound(cfg, t, loose)
  {
    forall act | act in t.acts ensures Sound(cfg, act, t.plog, t.rlog, loose) {
      if act in s.acts {
        if act.DeclareStable? {
          assert t.plog[..act.p] == s.plog[..act.p] && t.rlog[..act.r] == s.rlog[..act.r];
        }
      } else {
        assert act in t.acts[|s.acts|..];
      }
    }
  }

  // ----- the phase side -----

  lemma StepPhaseKeeps(cfg: Cfg, s: State, offset: int, loose: bool)
    requires Valid(cfg) && Inv(cfg, s, loose)
    ensures Inv(cfg, StepPhase(cfg, s, offset).0, loose)
  {
    ExtendsKeepsActs(cfg, s, StepPhase(cfg, s, offset).0, loose);
  }

  lemma TrackKeeps(cfg: Cfg, s: State, p: Phase, dts: int, gap: nat, gm: int, loose: bool)
    requires Valid(cfg) && Inv(cfg, s, loose)
    requires p == s.phase || (p == s.phase.(adj := StartAdj))
    ensures var (p1, offset) := Track(cfg, p, dts, gap, gm);
            Inv(cfg, s.(phase := p1, plog := s.plog + [PhaseEntry(p, gap, gm)]), loose)
  {
    hide Filter, Settled;
    var s1 := s.(phase := Track(cfg, p, dts, gap, gm).0, plog := s.plog + [PhaseEntry(p, gap, gm)]);
    ExtendsKeepsActs(cfg, s, s1, loose);
    AgreesAfterReset(s.plog, PHASE_STABLE_CRITERION, PHASE_UNSTABLE_CRITERION, loose, StartedOver);
    if PhaseEntry(p, gap, gm).Sample? {
      var count := if p.adj == UnstableAdj then p.count else 0;
      AgreesAfterSample(
        s.plog, PHASE_STABLE_CRITERION, PHASE_UNSTABLE_CRITERION, loose, p.adj == StableAdj, count, gap);
    }
  }

  lemma SetPhaseKeeps(cfg: Cfg, s: State, dts: int, dlts: int, gm: int, loose: bool)
    requires Valid(cfg) && Inv(cfg, s, loose)
    ensures Inv(cfg, SetPhase(cfg, s, dts, dlts, gm).0, loose)
  {
    hide StepPhase, Track, Settled, Trailing;
    var gap := Abs(dts - s.phase.offset);
    var (p, dropped) := Jump(s.phase, gap, gm);
    if dropped {
      AgreesAfterReset(s.plog, PHASE_STABLE_CRITERION, PHASE_UNSTABLE_CRITERION, loose, StartedOver);
      ExtendsKeepsActs(cfg, s, s.(phase := p, plog := s.plog + [StartedOver]), loose);
    } else if !Waits(cfg, p, dlts) {
      TrackKeeps(cfg, s, p, dts, gap, gm, loose);
      var (p1, offset) := Track(cfg, p, dts, gap, gm);
      var s1 := s.(phase := p1, plog := s.plog + [PhaseEntry(p, gap, gm)]);
      if offset.Some? {
        StepPhaseKeeps(cfg, s1, offset.value, loose);
      }
    }
  }

  // ----- the frequency side -----

  lemma UpdateRateKeeps(cfg: Cfg, s: State, dmts: int, dlts: int, comp: int, loose: bool)
    requires Valid(cfg) && Inv(cfg, s, loose) && dlts != 0
    ensures Inv(cfg, UpdateRate(cfg, s, dmts, dlts, comp), loose)
  {
    hide RatePpb, Settled, Trailing;
    var ppb := RatePpb(s.rate, dmts, dlts);
    AgreesAfterSample(s.rlog, cfg.rate.stablePpb, cfg.rate.leapPpb, false, s.rate.stable, s.rate.count, Abs(ppb));
    ExtendsKeepsActs(cfg, s, UpdateRate(cfg, s, dmts, dlts, comp), loose);
  }

  lemma ComputeKeeps(cfg: Cfg, s: State, lts: nat, mts: nat, gm: int, loose: bool)
    requires Valid(cfg) && Inv(cfg, s, loose)
    ensures Inv(cfg, Compute(cfg, s, lts, mts, gm), loose)
  {
    hide SetPhase, UpdateRate, Settled, Trailing;
    if mts == s.lastMts || lts == s.lastLts || mts == 0 || lts == 0 {
      AgreesAfterReset(s.plog, PHASE_STABLE_CRITERION, PHASE_UNSTABLE_CRITERION, loose, StartedOver);
      AgreesAfterReset(s.rlog, cfg.rate.stablePpb, cfg.rate.leapPpb, false, StartedOver);
      ExtendsKeepsActs(cfg, s, Restart(s), loose);
    } else {
      SetPhaseKeeps(cfg, s, mts - lts, lts - s.lastLts, gm, loose);
      SetPhaseKeepsLast(cfg, s, mts - lts, lts - s.lastLts, gm);
      var (s1, comp) := if !cfg.rate.quick || s.rate.stable
                        then SetPhase(cfg, s, mts - lts, lts - s.lastLts, gm) else (s, 0);
      if comp != NOOP {
        UpdateRateKeeps(
          cfg, s1.(lastLts := lts, lastMts := mts), mts - s1.lastMts, lts - s1.lastLts, comp, loose);
      }
    }
  }

  lemma SetPhaseKeepsLast(cfg: Cfg, s: State, dts: int, dlts: int, gm: int)
    requires Valid(cfg)
    ensures var t := SetPhase(cfg, s, dts, dlts, gm).0;
            t.lastLts == s.lastLts && t.lastMts == s.lastMts
  {
  }

  // ----- all runs -----

  /** INITIALIZING is entered while the phase side is stable. */
  predicate ReinitializesStable(s: State, ev: Event) { ev.Initialize? && s.phase.adj == StableAdj }

  lemma HandleKeeps(cfg: Cfg, s: State, ev: Event, loose: bool)
    requires Valid(cfg) && Inv(cfg, s, loose) && (loose || !ReinitializesStable(s, ev))
    ensures Inv(cfg, Handle(cfg, s, ev), loose)
  {
    hide Compute, Settled, Trailing;
    match ev
    case Initialize =>
      if loose {
        var count := if s.phase.adj == UnstableAdj then s.phase.count else 0;
        AgreesAfterReinitialized(
          s.plog, PHASE_STABLE_CRITERION, PHASE_UNSTABLE_CRITERION, s.phase.adj == StableAdj, count);
      } else {
        AgreesAfterReset(s.plog, PHASE_STABLE_CRITERION, PHASE_UNSTABLE_CRITERION, false, Reinitialized);
      }
      AgreesAfterReset(s.rlog, cfg.rate.stablePpb, cfg.rate.leapPpb, false, Reinitialized);
      ExtendsKeepsActs(cfg, s, Initialized(cfg, s), loose);
    case SourceTime(lts, mts, gm, unsync) =>
      ComputeKeeps(cfg, s, lts, mts, gm, loose);
      var s1 := Compute(cfg, s, lts, mts, gm);
      assert s1.plog[..|s1.plog|] == s1.plog && s1.rlog[..|s1.rlog|] == s1.rlog;
      ExtendsKeepsActs(cfg, s1, Declare(s1, unsync), loose);
  }

  /** No event of the run enters INITIALIZING while the phase side is stable. */
  predicate Guarded(cfg: Cfg, evs: seq<Event>)
    requires Valid(cfg)
  {
    forall n | 0 <= n < |evs| :: !ReinitializesStable(Run(cfg, evs[..n]), evs[n])
  }

  lemma GuardedPrefix(cfg: Cfg, evs: seq<Event>)
    requires Valid(cfg) && evs != []
    ensures Guarded(cfg, evs) <==>
              var n := |evs| - 1;
              Guarded(cfg, evs[..n]) && !ReinitializesStable(Run(cfg, evs[..n]), evs[n])
  {
    hide Run;
    var before := evs[..|evs| - 1];
    assert forall n | 0 <= n < |before| :: before[..n] == evs[..n] && before[n] == evs[n];
  }

  lemma {:induction false} RunKeeps(cfg: Cfg, evs: seq<Event>, loose: bool)
    requires Valid(cfg) && (loose || Guarded(cfg, evs))
    ensures Inv(cfg, Run(cfg, evs), loose)
    decreases |evs|
  {
    if evs != [] {
      GuardedPrefix(cfg, evs);
      RunKeeps(cfg, evs[..|evs| - 1], loose);
      HandleKeeps(cfg, Run(cfg, evs[..|evs| - 1]), evs[|evs| - 1], loose);
    }
  }

  /** Over all runs the rate given to the clock, and every adjustment ever made, is within the
      configured limit. */
  lemma AdjustmentsAreLimited(cfg: Cfg, evs: seq<Event>)
    requires Valid(cfg)
    ensures Abs(Run(cfg, evs).rate.adjppb) <= cfg.rate.maxAdj
    ensures forall act <- Run(cfg, evs).acts :: act.SetAdj? ==> Abs(act.ppb) <= cfg.rate.maxAdj
  {
    RunKeeps(cfg, evs, true);
    forall act | act in Run(cfg, evs).acts && act.SetAdj? ensures Abs(act.ppb) <= cfg.rate.maxAdj {
      assert Sound(cfg, act, Run(cfg, evs).plog, Run(cfg, evs).rlog, true);
    }
  }

  /** Three consecutive samples inside the threshold on each side, with nothing on that side
      since then beyond its second threshold and no reset, after p and r entries of the histories. */
  ghost predicate Earned(cfg: Cfg, s: State, p: nat, r: nat, loose: bool) {
    && p <= |s.plog| && r <= |s.rlog|
    && (exists k: nat :: SettledAt(s.plog[..p], PHASE_STABLE_CRITERION, PHASE_UNSTABLE_CRITERION, loose, k))
    && (exists k: nat :: SettledAt(s.rlog[..r], cfg.rate.stablePpb, cfg.rate.leapPpb, false, k))
  }

  /** Every declaration of SYNC_STABLE has been earned: in the loose reading, which looks past
      INITIALIZING on the phase side, in every run; and in the strict one, in every run that
      does not enter INITIALIZING while the phase side is stable. */
  lemma DeclarationsAreEarned(cfg: Cfg, evs: seq<Event>, loose: bool)
    requires Valid(cfg) && (loose || Guarded(cfg, evs))
    ensures forall act <- Run(cfg, evs).acts :: act.DeclareStable? ==>
              Earned(cfg, Run(cfg, evs), act.p, act.r, loose)
  {
    RunKeeps(cfg, evs, loose);
    var s := Run(cfg, evs);
    hide Run, Settled, SettledAt;
    forall act | act in s.acts && act.DeclareStable? ensures Earned(cfg, s, act.p, act.r, loose) {
      assert Sound(cfg, act, s.plog, s.rlog, loose);
      SettledMeans(s.plog[..act.p], PHASE_STABLE_CRITERION, PHASE_UNSTABLE_CRITERION, loose);
      SettledMeans(s.rlog[..act.r], cfg.rate.stablePpb, cfg.rate.leapPpb, false);
    }
  }

  /** And it is always declared when it has been earned: once a domain is no longer UNSYNC, a
      source time declares SYNC_STABLE exactly when both histories are settled. */
  lemma DeclaredExactlyWhenSettled(cfg: Cfg, evs: seq<Event>, lts: nat, mts: nat, gm: int, loose: bool)
    requires Valid(cfg) && cfg.rate.stablePpb <= cfg.rate.leapPpb + 1 && (loose || Guarded(cfg, evs))
    ensures var s1 := Compute(cfg, Run(cfg, evs), lts, mts, gm);
            var s := Handle(cfg, Run(cfg, evs), SourceTime(lts, mts, gm, false));
            (s.acts != s1.acts <==> PhaseSettled(s1.plog, loose) && RateSettled(cfg, s1.rlog))
  {
    hide Compute, Settled;
    RunKeeps(cfg, evs, loose);
    ComputeKeeps(cfg, Run(cfg, evs), lts, mts, gm, loose);
  }

  // ----- INITIALIZING does not reset the phase side -----

  /** A phase side that is stable has a settled history, with no reset in it since. */
  predicate StableIsEarned(s: State) { s.phase.adj == StableAdj ==> PhaseSettled(s.plog, false) }

  /** One call keeps that if and only if it does not enter INITIALIZING while the phase side is
      stable: initializing_proc clears the offset and the count, and leaves the side stable. */
  lemma StableIsEarnedIff(cfg: Cfg, s: State, ev: Event)
    requires Valid(cfg) && Inv(cfg, s, false)
    ensures StableIsEarned(Handle(cfg, s, ev)) <==> !ReinitializesStable(s, ev)
  {
    hide Compute;
    if !ReinitializesStable(s, ev) {
      HandleKeeps(cfg, s, ev, false);
    } else {
      var log := Handle(cfg, s, ev).plog;
      assert log[|log| - 1] == Reinitialized && Trailing(log, PHASE_STABLE_CRITERION) == 0;
    }
  }

  predicate EarnedThroughout(cfg: Cfg, evs: seq<Event>)
    requires Valid(cfg)
  {
    forall n | 0 <= n <= |evs| :: StableIsEarned(Run(cfg, evs[..n]))
  }

  lemma ThroughoutPrefix(cfg: Cfg, evs: seq<Event>)
    requires Valid(cfg) && evs != []
    ensures EarnedThroughout(cfg, evs) <==>
              EarnedThroughout(cfg, evs[..|evs| - 1]) && StableIsEarned(Run(cfg, evs))
  {
    hide Run, StableIsEarned;
    var before := evs[..|evs| - 1];
    forall n | 0 <= n <= |before| ensures Run(cfg, before[..n]) == Run(cfg, evs[..n]) {
      assert before[..n] == evs[..n];
    }
    assert evs[..|evs|] == evs;
    if EarnedThroughout(cfg, before) && StableIsEarned(Run(cfg, evs)) {
      forall n | 0 <= n <= |evs| ensures StableIsEarned(Run(cfg, evs[..n])) {
        if n < |evs| {
          assert StableIsEarned(Run(cfg, before[..n]));
        }
      }
    }
    if EarnedThroughout(cfg, evs) {
      forall n | 0 <= n <= |before| ensures StableIsEarned(Run(cfg, before[..n])) {
        assert StableIsEarned(Run(cfg, evs[..n]));
      }
      assert StableIsEarned(Run(cfg, evs[..|evs|]));
    }
  }

  /** Over all runs: it holds throughout if and only if that never happens. */
  lemma {:induction false} EarnedThroughoutIff(cfg: Cfg, evs: seq<Event>)
    requires Valid(cfg)
    ensures EarnedThroughout(cfg, evs) <==> Guarded(cfg, evs)
    decreases |evs|
  {
    if evs == [] {
      assert Run(cfg, evs[..0]) == Boot();
    } else {
      var before, last := evs[..|evs| - 1], evs[|evs| - 1];
      assert Run(cfg, evs) == Handle(cfg, Run(cfg, before), last);
      hide Run, StableIsEarned, Guarded, EarnedThroughout, Handle;
      EarnedThroughoutIff(cfg, before);
      GuardedPrefix(cfg, evs);
      ThroughoutPrefix(cfg, evs);
      if Guarded(cfg, before) {
        RunKeeps(cfg, before, false);
        StableIsEarnedIff(cfg, Run(cfg, before), last);
      }
    }
  }

  /** Such an input. With the quick algorithm a stable phase side that goes through INITIALIZING
      is declared stable after three source times, not one of which it has looked at. */
  lemma StableWithoutASample(cfg: Cfg, s: State, gm: int)
    requires Valid(cfg) && cfg.rate.quick && cfg.rate.stablePpb > 0 && cfg.rate.updatePpb >= 0
    requires s.phase.adj == StableAdj
    ensures var ms := MSEC_NS;
            var s0 := Handle(cfg, s, Initialize);
            var s1 := Handle(cfg, s0, SourceTime(50 * ms, 50 * ms, gm, false));
            var s2 := Handle(cfg, s1, SourceTime(100 * ms, 100 * ms, gm, false));
            var s3 := Handle(cfg, s2, SourceTime(150 * ms, 150 * ms, gm, false));
            && s3.acts == s.acts + [DeclareStable(|s3.plog|, |s3.rlog|)]
            && s3.plog == s.plog + [Reinitialized] && !PhaseSettled(s3.plog, false)
  {
    var s0 := Initialized(cfg, s);
    QuickSteadySample(cfg, s0, 50 * MSEC_NS, gm);
    var s1 := Handle(cfg, s0, SourceTime(50 * MSEC_NS, 50 * MSEC_NS, gm, false));
    QuickSteadySample(cfg, s1, 100 * MSEC_NS, gm);
    var s2 := Handle(cfg, s1, SourceTime(100 * MSEC_NS, 100 * MSEC_NS, gm, false));
    QuickSteadySample(cfg, s2, 150 * MSEC_NS, gm);
  }

  /** A source time without any difference, while the rate is not stable yet. */
  lemma QuickSteadySample(cfg: Cfg, s: State, t: nat, gm: int)
    requires Valid(cfg) && cfg.rate.quick && cfg.rate.stablePpb > 0 && cfg.rate.updatePpb >= 0
    requires !s.rate.stable && s.rate.skip == 0 && s.rate.mrate == 1.0
    requires s.lastLts == s.lastMts && t > 0 && t != s.lastLts
    ensures var s' := Handle(cfg, s, SourceTime(t, t, gm, false));
            && s'.phase == s.phase && s'.plog == s.plog && s'.rlog == s.rlog + [Sample(0)]
            && s'.lastLts == s'.lastMts == t && s'.rate.skip == 0 && s'.rate.mrate == 1.0
            && s'.rate.count == s.rate.count + 1 && s'.rate.stable == (s.rate.count + 1 >= STABLE_TRNS)
            && s'.acts == s.acts + if s'.rate.stable && s'.phase.adj == StableAdj
                                   then [DeclareStable(|s'.plog|, |s'.rlog|)] else []
  {
    SteadyPpb(s.rate, t - s.lastLts);
    hide RatePpb;
  }

  /** The phase side on its way to stable, with a stable rate and no difference at all. */
  lemma SteadyPhaseSample(cfg: Cfg, s: State, t: nat, gm: int)
    requires Valid(cfg) && !cfg.phase.hwPhase && !cfg.phase.byFreq
    requires cfg.rate.leapPpb >= 0 && cfg.rate.updatePpb >= 0
    requires s.rate.stable && s.rate.skip == 0 && s.rate.mrate == 1.0
    requires s.phase.offset == 0 && s.lastLts == s.lastMts > 0
    requires t > s.lastLts && t - s.lastLts >= cfg.phase.intervalMsec * MSEC_NS
    requires s.phase.adj == StartAdj || (s.phase.adj == UnstableAdj && 0 <= s.phase.count < STABLE_TRNS)
    ensures var s' := Handle(cfg, s, SourceTime(t, t, gm, false));
            && s'.rate == s.rate && s'.phase.offset == 0 && s'.lastLts == s'.lastMts == t
            && (s.phase.adj == StartAdj ==> s'.phase.adj == UnstableAdj && s'.phase.count == 0)
            && (s.phase.adj == UnstableAdj ==>
                  if s.phase.count + 1 < STABLE_TRNS
                  then s'.phase.adj == UnstableAdj && s'.phase.count == s.phase.count + 1
                  else s'.phase.adj == StableAdj)
  {
    SteadyPpb(s.rate, t - s.lastLts);
    FilterBounds(cfg.phase.alphaStart, 0, 0);
    hide RatePpb, Filter;
  }

  lemma RunOneMore(cfg: Cfg, evs: seq<Event>, ev: Event)
    requires Valid(cfg)
    ensures Run(cfg, evs + [ev]) == Handle(cfg, Run(cfg, evs), ev)
  {
    assert (evs + [ev])[..|evs|] == evs;
  }

  /** n source times, a second apart, that show no difference. */
  function Steady(from: nat, n: nat, gm: int): seq<Event> {
    seq(n, k requires 0 <= k < n => SourceTime((from + k) * SEC_NS, (from + k) * SEC_NS, gm, false))
  }

  lemma SteadyGrows(from: nat, n: nat, gm: int)
    ensures Steady(from, n + 1, gm)
            == Steady(from, n, gm) + [SourceTime((from + n) * SEC_NS, (from + n) * SEC_NS, gm, false)]
  {
  }

  /** INITIALIZING and n of them, from power-up. */
  function SteadyRun(cfg: Cfg, n: nat, gm: int): State
    requires Valid(cfg)
  {
    Run(cfg, [Initialize] + Steady(1, n, gm))
  }

  lemma SteadyRunGrows(cfg: Cfg, n: nat, gm: int)
    requires Valid(cfg)
    ensures var t := (n + 1) * SEC_NS;
            SteadyRun(cfg, n + 1, gm) == Handle(cfg, SteadyRun(cfg, n, gm), SourceTime(t, t, gm, false))
  {
    hide Run, Handle;
    SteadyGrows(1, n, gm);
    var before := [Initialize] + Steady(1, n, gm);
    var ev := SourceTime((1 + n) * SEC_NS, (1 + n) * SEC_NS, gm, false);
    assert [Initialize] + Steady(1, n + 1, gm) == before + [ev];
    RunOneMore(cfg, before, ev);
  }

  lemma SteadyRunStarts(cfg: Cfg, gm: int)
    requires Valid(cfg)
    ensures SteadyRun(cfg, 0, gm) == Initialized(cfg, Boot())
  {
    RunOneMore(cfg, [], Initialize);
    assert [] + [Initialize] == [Initialize] + Steady(1, 0, gm);
    assert Run(cfg, []) == Boot();
  }

  /** From power-up: INITIALIZING and three of them make the rate stable. */
  lemma RateBecomesStable(cfg: Cfg, gm: int, n: nat)
    requires Valid(cfg) && cfg.rate.quick && cfg.rate.stablePpb > 0 && cfg.rate.updatePpb >= 0
    requires n <= STABLE_TRNS
    ensures var s := SteadyRun(cfg, n, gm);
            && s.rate.stable == (n == STABLE_TRNS) && s.rate.count == n && s.rate.skip == 0
            && s.rate.mrate == 1.0 && s.phase == Phase(0, StartAdj, 0, 0)
            && s.lastLts == s.lastMts == n * SEC_NS
  {
    hide SteadyRun, Handle, Inverse;
    if n == 0 {
      SteadyRunStarts(cfg, gm);
    } else {
      RateBecomesStable(cfg, gm, n - 1);
      SteadyRunGrows(cfg, n - 1, gm);
      QuickSteadySample(cfg, SteadyRun(cfg, n - 1, gm), n * SEC_NS, gm);
    }
  }

  /** Four more, and the phase side is stable too. */
  lemma PhaseBecomesStable(cfg: Cfg, gm: int, n: nat)
    requires Valid(cfg) && cfg.rate.quick && cfg.rate.stablePpb > 0 && cfg.rate.updatePpb >= 0
    requires !cfg.phase.hwPhase && !cfg.phase.byFreq && cfg.phase.intervalMsec <= 1000 && cfg.rate.leapPpb >= 0
    requires n <= STABLE_TRNS + 1
    ensures var s := SteadyRun(cfg, STABLE_TRNS + n, gm);
            && s.rate.stable && s.rate.skip == 0 && s.rate.mrate == 1.0 && s.phase.offset == 0
            && s.lastLts == s.lastMts == (STABLE_TRNS + n) * SEC_NS
            && if n == 0 then s.phase.adj == StartAdj
               else if n <= STABLE_TRNS then s.phase.adj == UnstableAdj && s.phase.count == n - 1
               else s.phase.adj == StableAdj
  {
    hide SteadyRun, Handle;
    if n == 0 {
      RateBecomesStable(cfg, gm, STABLE_TRNS);
    } else {
      PhaseBecomesStable(cfg, gm, n - 1);
      var k := STABLE_TRNS + n;
      SteadyRunGrows(cfg, k - 1, gm);
      SteadyPhaseSample(cfg, SteadyRun(cfg, k - 1, gm), k * SEC_NS, gm);
    }
  }

  /** So there is a run from power-up that ends in a declaration that was not earned. */
  lemma UnearnedDeclaration(cfg: Cfg, gm: int)
    requires Valid(cfg) && cfg.rate.quick && cfg.rate.stablePpb > 0 && cfg.rate.updatePpb >= 0
    requires !cfg.phase.hwPhase && !cfg.phase.byFreq && cfg.phase.intervalMsec <= 1000 && cfg.rate.leapPpb >= 0
    ensures var s0 := SteadyRun(cfg, 2 * STABLE_TRNS + 1, gm);
            var ms := MSEC_NS;
            var s1 := Handle(cfg, Handle(cfg, s0, Initialize), SourceTime(50 * ms, 50 * ms, gm, false));
            var s2 := Handle(cfg, s1, SourceTime(100 * ms, 100 * ms, gm, false));
            var s3 := Handle(cfg, s2, SourceTime(150 * ms, 150 * ms, gm, false));
            && DeclareStable(|s3.plog|, |s3.rlog|) in s3.acts && !PhaseSettled(s3.plog, false)
  {
    PhaseBecomesStable(cfg, gm, STABLE_TRNS + 1);
    hide SteadyRun, Handle;
    StableWithoutASample(cfg, SteadyRun(cfg, 2 * STABLE_TRNS + 1, gm), gm);
  }

  lemma SteadyPpb(r: Rate, d: int)
    requires d != 0 && r.mrate == 1.0
    ensures RatePpb(r, d, d) == 0
  {
    assert d as real / d as real == 1.0;
    assert r.alpha * 1.0 + (1.0 - r.alpha) * 1.0 == 1.0;
  }

  // ----- the phase offset stays within what has been measured -----

  predicate OffsetsWithin(s: State, m: nat) {
    && Abs(s.phase.offset) <= m
    && forall act <- s.acts :: act.SetOffset? ==> Abs(act.offset) <= m
  }

  lemma SetPhaseWithin(cfg: Cfg, s: State, dts: int, dlts: int, gm: int, m: nat)
    requires Valid(cfg) && OffsetsWithin(s, m) && Abs(dts) <= m
    ensures OffsetsWithin(SetPhase(cfg, s, dts, dlts, gm).0, m)
  {
    FilterBounds(cfg.phase.alphaStart, dts, s.phase.offset);
    FilterBounds(cfg.phase.alphaStable, dts, s.phase.offset);
    hide Filter;
  }

  lemma HandleWithin(cfg: Cfg, s: State, ev: Event, m: nat)
    requires Valid(cfg) && OffsetsWithin(s, m)
    requires ev.SourceTime? ==> Abs(ev.mts - ev.lts) <= m
    ensures OffsetsWithin(Handle(cfg, s, ev), m)
  {
    hide SetPhase, RatePpb, TrackRate;
    if ev.SourceTime? {
      SetPhaseWithin(cfg, s, ev.mts - ev.lts, ev.lts - s.lastLts, ev.gm, m);
    }
  }

  /** No offset ever kept or given to a clock is larger than the largest time difference seen. */
  lemma {:induction false} OffsetsStayWithinSamples(cfg: Cfg, evs: seq<Event>, m: nat)
    requires Valid(cfg)
    requires forall ev <- evs :: ev.SourceTime? ==> Abs(ev.mts - ev.lts) <= m
    ensures OffsetsWithin(Run(cfg, evs), m)
    decreases |evs|
  {
    if evs != [] {
      OffsetsStayWithinSamples(cfg, evs[..|evs| - 1], m);
      assert evs[|evs| - 1] in evs;
      HandleWithin(cfg, Run(cfg, evs[..|evs| - 1]), evs[|evs| - 1], m);
    }
  }
}
