/** What every run of the peer-delay requester keeps. A run is a chain of link moves: each
    pass of the dispatch loop adds at most one act to the history and changes the link
    record only as that act says. The theorems at the end are read off that chain. */
module PdelayReqProofs {
  import opened Arith
  import opened PdelayReq

  // ----- reading the history -----

  function Since(s0: State, s: State): seq<Act>
    requires |s0.log| <= |s.log|
  {
    s.log[|s0.log|..]
  }

  predicate Extends(s0: State, s: State) { s0.log <= s.log }

  function Resets(acts: seq<Act>): nat {
    if acts == [] then 0
    else Resets(acts[..|acts| - 1]) + if acts[|acts| - 1].ResetEntered? then 1 else 0
  }

  function Completions(acts: seq<Act>): nat {
    if acts == [] then 0
    else Completions(acts[..|acts| - 1]) + if acts[|acts| - 1].Completed? then 1 else 0
  }

  function Samples(acts: seq<Act>): nat {
    if acts == [] then 0
    else
      var act := acts[|acts| - 1];
      Samples(acts[..|acts| - 1]) + if act.Completed? && act.sample.Some? then 1 else 0
  }

  /** No exchange completed, no fresh start and no device-down since then. */
  predicate OnlyLosses(acts: seq<Act>) {
    forall act <- acts :: act.RequestSent? || act.RequestFailed? || act.TimestampLost? || act.ResetEntered?
  }

  /** Every exchange completed, and every one of them was judged faulty. */
  predicate OnlyFaults(acts: seq<Act>) {
    forall act <- acts :: act.RequestSent? || act.RequestFailed? || act.TimestampLost?
                          || (act.Completed? && act.verdict.Faulty?)
  }

  /** The ratio was never set back to 1, and every sample was within `d` of `r`. */
  predicate SamplesNear(acts: seq<Act>, r: real, d: real) {
    forall act <- acts :: !act.InitialSent? && !act.InitialFailed?
                          && (act.ResetEntered? ==> !act.cleared)
                          && (act.Completed? && act.sample.Some? ==> AbsR(act.sample.value - r) <= d)
  }

  predicate Started(acts: seq<Act>) { exists act <- acts :: act.InitialSent? || act.InitialFailed? }

  lemma OneMoreAct(acts: seq<Act>, act: Act)
    ensures Resets(acts + [act]) == Resets(acts) + if act.ResetEntered? then 1 else 0
    ensures Completions(acts + [act]) == Completions(acts) + if act.Completed? then 1 else 0
    ensures Samples(acts + [act]) == Samples(acts) + if act.Completed? && act.sample.Some? then 1 else 0
    ensures OnlyLosses(acts + [act]) ==> OnlyLosses(acts)
    ensures OnlyFaults(acts + [act]) ==> OnlyFaults(acts)
  {
    assert (acts + [act])[..|acts|] == acts;
    assert forall a <- acts :: a in acts + [act];
  }

  // ----- one pass is one link move -----

  predicate Counters(cfg: Config, link: Link) {
    link.lost <= cfg.allowedLost && link.faults <= cfg.allowedFaults + 1
  }

  predicate CapableJustified(cfg: Config, link: Link) {
    link.asCapable ==>
      cfg.minLimit <= link.propDelay <= cfg.thresh && link.measuring && link.ratioValid
  }

  predicate SaneRatio(x: real) { 1.0 / 3.0 < x < 3.0 }

  predicate SaneStamps(s: State) {
    s.ts.t1 < TWO63 && s.ts.t2 < TWO63 && s.ts.prevT1 < TWO63 && s.ts.prevT2 < TWO63 && s.tx.mockTs < TWO63
  }

  /** Timestamps fit 63 bits and the request interval 62, as on every real clock. */
  predicate SaneInput(i: Input) {
    i.env.interval < TWO63 / 2 && i.io.deviceTime < TWO63
    && (i.event.TxTimestamp? ==> i.event.t1 < TWO63)
  }

  predicate Measurable(cfg: Config) { cfg.network && cfg.fixedDelay == 0 }

  /** How a completed exchange may change the link. */
  predicate CompletedMove(cfg: Config, verdict: Verdict, sample: Option<real>, round: Round, l: Link, l': Link) {
    && l'.lost == 0 && l'.multi == 0
    && l'.ratio == (if sample.Some? then (l.ratio + sample.value) / 2.0 else l.ratio)
    && (sample.Some? ==> SaneRatio(sample.value))
    && (l.ratioValid ==> l'.ratioValid)
    && match verdict
       case Good =>
         l'.asCapable && l'.measuring && l'.ratioValid && l'.faults == 0
         && cfg.minLimit <= l'.propDelay <= cfg.thresh
         && l'.propDelay == round.delay && l'.ratio == round.ratio
       case Unrated => !l'.asCapable && !l'.measuring && !l'.ratioValid && l'.faults == 0
       case Faulty =>
         if l.faults <= cfg.allowedFaults then
           l'.asCapable == l.asCapable && l'.measuring && l'.propDelay == l.propDelay
           && l'.faults == Succ16(l.faults)
         else !l'.asCapable && !l'.measuring && l'.faults == 0
       case Skipped => sample.None? && l' == l.(lost := 0, multi := 0)
  }

  predicate LinkMove(cfg: Config, act: Option<Act>, l: Link, l': Link) {
    match act
    case Some(InitialSent(_)) =>
      l' == l.(ratio := 1.0, lost := 0, multi := 0, faults := 0, measuring := false, asCapable := false)
    case Some(InitialFailed) => l' == l.(ratio := 1.0)
    case Some(ResetEntered(cleared)) =>
      l' == ResetLink(cfg, l).(multi := l'.multi) && cleared == (GivesUp(cfg, l) || AvnuCeases(cfg, l))
    case Some(Completed(verdict, sample, round)) => CompletedMove(cfg, verdict, sample, round, l, l')
    case Some(CapableCleared) => l' == l.(asCapable := false)
    case _ => l' == l.(multi := l'.multi)
  }

  function NewAct(s: State, s': State): Option<Act> {
    if |s'.log| <= |s.log| then None else Some(s'.log[|s.log|])
  }

  predicate Moves(cfg: Config, s: State, s': State) {
    && (s'.log == s.log || (|s'.log| == |s.log| + 1 && s'.log == s.log + [s'.log[|s.log|]]))
    && LinkMove(cfg, NewAct(s, s'), s.link, s'.link)
  }

  lemma QuotientBetween(b: real, a: real, lo: real, hi: real)
    requires a > 0.0 && lo * a < b < hi * a
    ensures lo < b / a < hi
  {
    var x := b / a;
    assert x * a == b;
    assert (x - lo) * a > 0.0 && (hi - x) * a > 0.0;
  }

  lemma WindowedRatio(a: int, b: int, half: int, whole: int)
    requires 0 <= half && half < a < whole && half < b < whole && whole <= 3 * half + 1
    ensures SaneRatio(b as real / a as real)
  {
    assert b < 3 * a && a < 3 * b;
    QuotientBetween(b as real, a as real, 1.0 / 3.0, 3.0);
  }

  /** A difference below 2^63 of 63-bit times has not wrapped. */
  lemma NotWrapped(a: int, b: int)
    requires 0 <= a < TWO63 && 0 <= b < TWO63 && Sub64(a, b) < TWO63
    ensures Sub64(a, b) == a - b
  {
  }

  lemma SampleIsSane(env: Env, ts: Stamps)
    requires ts.t1 < TWO63 && ts.t2 < TWO63 && ts.prevT1 < TWO63 && ts.prevT2 < TWO63
    requires env.interval < TWO63 / 2
    ensures SaneRatio(RateSample(env, ts))
  {
    assert SaneRatio(1.0);
    hide SaneRatio, Sub64;
    if SpacingsUsable(env, ts) {
      NotWrapped(ts.t1, ts.prevT1);
      NotWrapped(ts.t2, ts.prevT2);
      WindowedRatio(ts.t1 - ts.prevT1, ts.t2 - ts.prevT2, env.interval / 2, env.interval + env.interval / 2);
    }
  }

  lemma MovedBy(cfg: Config, s: State, s': State, act: Act)
    requires s'.log == s.log + [act] && LinkMove(cfg, Some(act), s.link, s'.link)
    ensures Moves(cfg, s, s')
  {
  }

  lemma VerdictMoves(
      cfg: Config, env: Env, foreign: bool, sample: Option<real>, round: Round, ts: Stamps, l: Link)
    requires sample == if env.computeRatio then Some(RateSample(env, ts)) else None
    requires sample.Some? ==> SaneRatio(sample.value)
    requires var m := Measure(env, ts, l.(lost := 0, multi := 0));
             round.ratio == m.ratio && round.delay == m.propDelay
    ensures var m := Measure(env, ts, l.(lost := 0, multi := 0));
            var verdict := Classify(cfg, foreign, m);
            CompletedMove(cfg, verdict, sample, round, l, Judge(cfg, verdict, l.propDelay, m))
  {
  }

  predicate SaneCall(cfg: Config, env: Env, io: Io, s: State) {
    Measurable(cfg) && SaneStamps(s) && env.interval < TWO63 / 2 && io.deviceTime < TWO63
  }

  lemma CompleteMoves(cfg: Config, env: Env, s: State)
    requires SaneStamps(s) && env.interval < TWO63 / 2
    ensures Moves(cfg, s, Complete(cfg, env, s)) && SaneStamps(Complete(cfg, env, s))
  {
    SampleIsSane(env, s.ts);
    var act := CompletionAct(cfg, env, s);
    if !env.asymmetry {
      VerdictMoves(cfg, env, s.rx.resp.source.clock != cfg.thisClock, act.sample, act.round, s.ts, s.link);
    }
    MovedBy(cfg, s, Complete(cfg, env, s), act);
  }

  lemma SendingPassMoves(cfg: Config, env: Env, io: Io, now: U64, s: State)
    requires SaneCall(cfg, env, io, s) && (s.state.InitialSend? || s.state.Send?)
    ensures Moves(cfg, s, Iterate(cfg, env, io, now, s).s)
    ensures SaneStamps(Iterate(cfg, env, io, now, s).s)
  {
  }

  lemma ResetPassMoves(cfg: Config, env: Env, io: Io, now: U64, s: State)
    requires SaneStamps(s) && s.state.Reset?
    ensures Moves(cfg, s, Iterate(cfg, env, io, now, s).s)
    ensures SaneStamps(Iterate(cfg, env, io, now, s).s)
  {
    if s.last != Reset {
      MovedBy(cfg, s, Iterate(cfg, env, io, now, s).s, ResetEntered(GivesUp(cfg, s.link) || AvnuCeases(cfg, s.link)));
    }
  }

  lemma PassMoves(cfg: Config, env: Env, io: Io, now: U64, s: State)
    requires SaneCall(cfg, env, io, s)
    ensures Moves(cfg, s, Iterate(cfg, env, io, now, s).s)
    ensures SaneStamps(Iterate(cfg, env, io, now, s).s)
  {
    hide Measure, SendProc, InitialSendProc, Complete, ResetProc, ResetCondition;
    if s.state.InitialSend? || s.state.Send? {
      SendingPassMoves(cfg, env, io, now, s);
    } else if s.state.Reset? {
      ResetPassMoves(cfg, env, io, now, s);
    } else if s.state.WaitInterval? {
      CompleteMoves(cfg, env, s.(last := s.state));
    }
  }

  // ----- what a chain of link moves keeps, relative to where it began -----

  /** The first allowedLost entries of RESET in a row are tolerated, the next is not. */
  predicate LossesTolerated(cfg: Config, l0: Link, acts: seq<Act>, l: Link) {
    OnlyLosses(acts) && !cfg.avnu && l0.lost <= cfg.allowedLost ==>
      && l.lost == Min(cfg.allowedLost, l0.lost + Resets(acts))
      && l.asCapable == (l0.asCapable && l0.lost + Resets(acts) <= cfg.allowedLost)
      && l.propDelay == l0.propDelay
      && (l.asCapable ==> l.ratio == l0.ratio && l.ratioValid == l0.ratioValid)
      && (l0.asCapable && !l.asCapable ==> l.ratio == 1.0 && !l.ratioValid && !l.measuring)
  }

  /** The first allowedFaults + 1 faulty exchanges in a row are tolerated, the next is not. */
  predicate FaultsTolerated(cfg: Config, l0: Link, acts: seq<Act>, l: Link) {
    OnlyFaults(acts) && cfg.allowedFaults < TWO16 - 1 && l0.faults <= cfg.allowedFaults + 1 ==>
      if l0.faults + Completions(acts) <= cfg.allowedFaults + 1 then
        l.faults == l0.faults + Completions(acts) && l.asCapable == l0.asCapable
        && l.propDelay == l0.propDelay
      else
        !l.asCapable
  }

  predicate Within(e0: real, e: real, d: real, p: real) { e * p <= e0 + d * (p - 1.0) }

  /** Each sample within `d` of `r` halves the distance of the ratio to `r`, down to `d`. */
  predicate RatioApproaches(l0: Link, acts: seq<Act>, l: Link, r: real, d: real) {
    SamplesNear(acts, r, d) ==>
      Within(AbsR(l0.ratio - r), AbsR(l.ratio - r), d, Pow2(Samples(acts)) as real)
  }

  predicate Anchored(cfg: Config, s0: State, s: State, r: real, d: real) {
    && Extends(s0, s)
    && LossesTolerated(cfg, s0.link, Since(s0, s), s.link)
    && FaultsTolerated(cfg, s0.link, Since(s0, s), s.link)
    && RatioApproaches(s0.link, Since(s0, s), s.link, r, d)
    && (CapableJustified(cfg, s0.link) ==> CapableJustified(cfg, s.link))
    && (Counters(cfg, s0.link) ==> Counters(cfg, s.link))
    && (Started(Since(s0, s)) || SaneRatio(s0.link.ratio) ==> SaneRatio(s.link.ratio))
  }

  lemma MoveKeepsLosses(cfg: Config, l0: Link, acts: seq<Act>, act: Act, l: Link, l': Link)
    requires LossesTolerated(cfg, l0, acts, l) && LinkMove(cfg, Some(act), l, l')
    ensures LossesTolerated(cfg, l0, acts + [act], l')
  {
    OneMoreAct(acts, act);
    assert act in acts + [act];
  }

  lemma MoveKeepsFaults(cfg: Config, l0: Link, acts: seq<Act>, act: Act, l: Link, l': Link)
    requires FaultsTolerated(cfg, l0, acts, l) && LinkMove(cfg, Some(act), l, l')
    ensures FaultsTolerated(cfg, l0, acts + [act], l')
  {
    OneMoreAct(acts, act);
    assert act in acts + [act];
  }

  lemma HalfTheDistance(e0: real, before: real, x: real, r: real, d: real, p: real)
    requires p >= 1.0 && AbsR(x - r) <= d
    requires Within(e0, AbsR(before - r), d, p)
    ensures Within(e0, AbsR((before + x) / 2.0 - r), d, 2.0 * p)
  {
    var e, e' := AbsR(before - r), AbsR((before + x) / 2.0 - r);
    assert 2.0 * e' <= e + d;
    assert (e + d - 2.0 * e') * p >= 0.0;
    assert d * (p - 1.0) + d * p == d * (2.0 * p - 1.0);
  }

  lemma RatioAfterMove(cfg: Config, act: Act, l: Link, l': Link)
    requires LinkMove(cfg, Some(act), l, l')
    requires !act.InitialSent? && !act.InitialFailed? && (act.ResetEntered? ==> !act.cleared)
    ensures l'.ratio == if act.Completed? && act.sample.Some? then (l.ratio + act.sample.value) / 2.0
                        else l.ratio
  {
  }

  lemma NearSplits(acts: seq<Act>, act: Act, r: real, d: real)
    requires SamplesNear(acts + [act], r, d)
    ensures SamplesNear(acts, r, d) && SamplesNear([act], r, d)
  {
    assert forall a <- acts :: a in acts + [act];
    assert act in acts + [act];
  }

  lemma MoveKeepsApproach(cfg: Config, l0: Link, acts: seq<Act>, act: Act, l: Link, l': Link, r: real, d: real)
    requires RatioApproaches(l0, acts, l, r, d) && LinkMove(cfg, Some(act), l, l')
    ensures RatioApproaches(l0, acts + [act], l', r, d)
  {
    if SamplesNear(acts + [act], r, d) {
      NearSplits(acts, act, r, d);
      assert act in [act];
      RatioAfterMove(cfg, act, l, l');
      OneMoreAct(acts, act);
      if act.Completed? && act.sample.Some? {
        HalfTheDistance(AbsR(l0.ratio - r), l.ratio, act.sample.value, r, d, Pow2(Samples(acts)) as real);
        assert Pow2(Samples(acts + [act])) == 2 * Pow2(Samples(acts));
      } else {
        assert Samples(acts + [act]) == Samples(acts);
      }
    }
  }

  lemma MoveKeepsStanding(cfg: Config, act: Option<Act>, l: Link, l': Link)
    requires LinkMove(cfg, act, l, l')
    ensures CapableJustified(cfg, l) ==> CapableJustified(cfg, l')
    ensures Counters(cfg, l) ==> Counters(cfg, l')
    ensures SaneRatio(l.ratio) ==> SaneRatio(l'.ratio)
    ensures act.Some? && (act.value.InitialSent? || act.value.InitialFailed?) ==> SaneRatio(l'.ratio)
  {
  }

  lemma MoveKeepsAnchored(cfg: Config, s0: State, s: State, s': State, r: real, d: real)
    requires Anchored(cfg, s0, s, r, d) && Moves(cfg, s, s')
    ensures Anchored(cfg, s0, s', r, d)
  {
    MoveKeepsStanding(cfg, NewAct(s, s'), s.link, s'.link);
    if s'.log != s.log {
      var acts, act := Since(s0, s), s'.log[|s.log|];
      assert Since(s0, s') == acts + [act];
      MoveKeepsLosses(cfg, s0.link, acts, act, s.link, s'.link);
      MoveKeepsFaults(cfg, s0.link, acts, act, s.link, s'.link);
      MoveKeepsApproach(cfg, s0.link, acts, act, s.link, s'.link, r, d);
    }
  }

  lemma DispatchKeepsAnchored(cfg: Config, env: Env, io: Io, now: U64, s0: State, s: State, r: real, d: real)
    requires SaneCall(cfg, env, io, s) && Anchored(cfg, s0, s, r, d)
    ensures Anchored(cfg, s0, Dispatch(cfg, env, io, now, s).0, r, d)
    ensures SaneStamps(Dispatch(cfg, env, io, now, s).0)
    decreases Rank(s)
  {
    var s' := Iterate(cfg, env, io, now, s).s;
    PassMoves(cfg, env, io, now, s);
    MoveKeepsAnchored(cfg, s0, s, s', r, d);
    PassLowersRank(cfg, env, io, now, s);
    if Iterate(cfg, env, io, now, s).Go? && s'.last != s'.state {
      DispatchKeepsAnchored(cfg, env, io, now, s0, s', r, d);
    }
  }

  lemma HandleKeepsAnchored(cfg: Config, s0: State, s: State, i: Input, r: real, d: real)
    requires Measurable(cfg) && SaneStamps(s) && SaneInput(i) && Anchored(cfg, s0, s, r, d)
    ensures Anchored(cfg, s0, Handle(cfg, s, i).0, r, d) && SaneStamps(Handle(cfg, s, i).0)
  {
    match Accept(s, i.event)
    case Some(s') =>
      DispatchKeepsAnchored(cfg, i.env, i.io, i.now, s0, s'.(state := AllStateCondition(i.env, s')), r, d);
    case None =>
      if i.event.DeviceDown? {
        MoveKeepsAnchored(cfg, s0, s, Handle(cfg, s, i).0, r, d);
      }
  }

  lemma {:induction false} RunKeepsAnchored(
      cfg: Config, s0: State, s: State, inputs: seq<Input>, r: real, d: real)
    requires Measurable(cfg) && SaneStamps(s) && Anchored(cfg, s0, s, r, d)
    requires forall i <- inputs :: SaneInput(i)
    ensures Anchored(cfg, s0, Run(cfg, s, inputs), r, d)
    decreases |inputs|
  {
    if inputs != [] {
      HandleKeepsAnchored(cfg, s0, s, inputs[0], r, d);
      RunKeepsAnchored(cfg, s0, Handle(cfg, s, inputs[0]).0, inputs[1..], r, d);
    }
  }

  // ----- the theorems -----

  predicate SaneRun(cfg: Config, s: State, inputs: seq<Input>) {
    Measurable(cfg) && SaneStamps(s) && forall i <- inputs :: SaneInput(i)
  }

  /** Every reachable state: a capable link is a measured one, with the delay in its limits,
      and neither counter passes its limit. */
  lemma CapabilityIsJustified(cfg: Config, inputs: seq<Input>)
    requires SaneRun(cfg, Boot(), inputs)
    ensures var link := Run(cfg, Boot(), inputs).link;
            CapableJustified(cfg, link) && Counters(cfg, link)
  {
    RunKeepsAnchored(cfg, Boot(), Boot(), inputs, 0.0, 0.0);
  }

  /** From the first initial send on, the ratio stays strictly between 1/3 and 3. */
  lemma RatioStaysSane(cfg: Config, inputs: seq<Input>)
    requires SaneRun(cfg, Boot(), inputs)
    ensures var s := Run(cfg, Boot(), inputs);
            Started(s.log) ==> SaneRatio(s.link.ratio)
  {
    RunKeepsAnchored(cfg, Boot(), Boot(), inputs, 0.0, 0.0);
    var s := Run(cfg, Boot(), inputs);
    assert Since(Boot(), s) == s.log;
  }

  /** As long as no exchange completes, a capable link survives exactly allowedLost entries
      of RESET; the one after that clears it and sets the ratio back to 1. */
  lemma LostResponseTolerance(cfg: Config, s: State, inputs: seq<Input>)
    requires SaneRun(cfg, s, inputs) && !cfg.avnu
    requires s.link.asCapable && s.link.lost == 0
    ensures var s' := Run(cfg, s, inputs);
            && s.log <= s'.log
            && (OnlyLosses(Since(s, s')) ==>
                  var n := Resets(Since(s, s'));
                  && (s'.link.asCapable <==> n <= cfg.allowedLost)
                  && s'.link.lost == Min(n, cfg.allowedLost)
                  && (n <= cfg.allowedLost ==> s'.link.ratio == s.link.ratio)
                  && (n > cfg.allowedLost ==> s'.link.ratio == 1.0 && !s'.link.ratioValid))
  {
    RunKeepsAnchored(cfg, s, s, inputs, 0.0, 0.0);
  }

  /** As long as every exchange completes but is faulty, a capable link survives exactly
      allowedFaults + 1 of them, holding the last good delay; the next one clears it. */
  lemma FaultTolerance(cfg: Config, s: State, inputs: seq<Input>)
    requires SaneRun(cfg, s, inputs) && cfg.allowedFaults < TWO16 - 1
    requires s.link.asCapable && s.link.faults == 0
    ensures var s' := Run(cfg, s, inputs);
            && s.log <= s'.log
            && (OnlyFaults(Since(s, s')) ==>
                  var n := Completions(Since(s, s'));
                  && (s'.link.asCapable <==> n <= cfg.allowedFaults + 1)
                  && (n <= cfg.allowedFaults + 1 ==> s'.link.propDelay == s.link.propDelay))
  {
    RunKeepsAnchored(cfg, s, s, inputs, 0.0, 0.0);
  }

  /** detectedFaults is a uint16_t. With allowedFaults at its maximum the counter wraps before
      it can exceed the limit, so that no fault ever clears the capability ... */
  lemma FaultToleranceNeedsHeadroom(cfg: Config, prev: nat)
    ensures (forall l: Link :: l.asCapable ==> Judge(cfg, Faulty, prev, l).asCapable)
            <==> cfg.allowedFaults == TWO16 - 1
  {
    if cfg.allowedFaults < TWO16 - 1 {
      var l := Link(0, cfg.allowedFaults + 1, 0, true, 1.0, prev, true, true);
      assert !Judge(cfg, Faulty, prev, l).asCapable;
    }
  }

  /** n samples within `d` of the true rate `r` bring the ratio within `d` plus the n-th
      halving of its first distance; with exact samples (d == 0) each one halves it. */
  lemma RatioConverges(cfg: Config, s: State, inputs: seq<Input>, r: real, d: real)
    requires SaneRun(cfg, s, inputs)
    ensures var s' := Run(cfg, s, inputs);
            && s.log <= s'.log
            && (SamplesNear(Since(s, s'), r, d) ==>
                  AbsR(s'.link.ratio - r)
                  <= AbsR(s.link.ratio - r) / Pow2(Samples(Since(s, s'))) as real + AbsR(d))
  {
    RunKeepsAnchored(cfg, s, s, inputs, r, d);
    var s' := Run(cfg, s, inputs);
    if SamplesNear(Since(s, s'), r, d) {
      DivideThrough(AbsR(s'.link.ratio - r), AbsR(s.link.ratio - r), d, Pow2(Samples(Since(s, s'))) as real);
    }
  }

  lemma DivideThrough(e: real, e0: real, d: real, p: real)
    requires p >= 1.0 && e >= 0.0 && e0 >= 0.0 && Within(e0, e, d, p)
    ensures e <= e0 / p + AbsR(d)
  {
    var q := e0 / p;
    assert q * p == e0;
    var m := AbsR(d);
    assert d * (p - 1.0) <= m * (p - 1.0);
    assert (q + m - e) * p >= 0.0;
  }
}
