/** What the requester learns of a neighbour whose clock is linear in the local one: its rate,
    sample after sample, and the delay of the link. */
module PdelayNeighbour {
  import opened Arith
  import opened PdelayMeasure
  import opened PdelayReq
  import opened PdelayReqProofs

  // ----- the neighbour -----

  /** At local time t the neighbour's clock shows rate * t + shift, and its stamps are at most
      `off` from that. A frame takes `delay` of local time in either direction. */
  datatype Neighbour = Neighbour(rate: real, shift: real, delay: real, off: real)

  predicate Shows(n: Neighbour, at: real, stamp: int) {
    AbsR(stamp as real - (n.rate * at + n.shift)) <= n.off
  }

  /** A request that left at t1 was stamped t2 on arrival. */
  predicate RequestSeen(n: Neighbour, t1: int, t2: int) { Shows(n, t1 as real + n.delay, t2) }

  /** A response that arrived at t4 was stamped t3 when it left. */
  predicate ReplySeen(n: Neighbour, t3: int, t4: int) { Shows(n, t4 as real - n.delay, t3) }

  lemma ShowsCounted(n: Neighbour, at: real, stamp: int, at': real, stamp': int)
    requires Shows(n, at, stamp) && Shows(n, at', stamp')
    ensures Counted(n.rate, 2.0 * n.off, at' - at, (stamp' - stamp) as real)
  {
    LinearClockCounts(n.rate, n.shift, n.off, at, at', stamp as real, stamp' as real);
  }

  lemma RequestsCounted(n: Neighbour, t1: int, t2: int, u1: int, u2: int)
    requires RequestSeen(n, t1, t2) && RequestSeen(n, u1, u2)
    ensures Counted(n.rate, 2.0 * n.off, (u1 - t1) as real, (u2 - t2) as real)
  {
    ShowsCounted(n, t1 as real + n.delay, t2, u1 as real + n.delay, u2);
    hide Shows, Counted;
    assert (u1 as real + n.delay) - (t1 as real + n.delay) == (u1 - t1) as real;
  }

  function Stay(n: Neighbour, ts: Stamps): real { (ts.t4 - ts.t1) as real - 2.0 * n.delay }

  lemma ExchangeSeen(n: Neighbour, ts: Stamps)
    requires RequestSeen(n, ts.t1, ts.t2) && ReplySeen(n, ts.t3, ts.t4)
    ensures Exchange(n.rate, 2.0 * n.off, n.delay, Stay(n, ts), ts.t1, ts.t2, ts.t3, ts.t4)
  {
    var left, arrived := ts.t4 as real - n.delay, ts.t1 as real + n.delay;
    ShowsCounted(n, arrived, ts.t2, left, ts.t3);
    hide Shows, Counted;
    assert left - arrived == Stay(n, ts);
  }

  // ----- one completed exchange -----

  predicate TimedTrue(round: Round) {
    round.delay == ComputePropTime(round.ratio, round.ts.t1, round.ts.t2, round.ts.t3, round.ts.t4)
  }

  /** What the record of a completed exchange says about its stamps. */
  predicate RoundTrue(sample: Option<real>, round: Round) {
    var ts := round.ts;
    && (round.usable ==>
          sample.Some? && ts.t1 > ts.prevT1
          && sample.value == (ts.t2 - ts.prevT2) as real / (ts.t1 - ts.prevT1) as real)
    && (round.timed ==> TimedTrue(round))
  }

  lemma CompletionIsTrue(cfg: Config, env: Env, s: State)
    requires SaneStamps(s) && env.interval < TWO63 / 2
    ensures var act := CompletionAct(cfg, env, s);
            && RoundTrue(act.sample, act.round) && act.round.ts == s.ts
            && (act.sample.Some? <==> !env.asymmetry && env.computeRatio)
            && (act.round.usable <==> act.sample.Some? && SpacingsUsable(env, s.ts))
            && (act.round.timed <==> !env.asymmetry && env.computeDelay)
            && act.round.ratio == Complete(cfg, env, s).link.ratio
            && (act.verdict.Good? ==> act.round.delay == Complete(cfg, env, s).link.propDelay)
  {
    hide ComputePropTime;
    if SpacingsUsable(env, s.ts) {
      NotWrapped(s.ts.t1, s.ts.prevT1);
    }
  }

  /** A usable sample of such a neighbour is within `d` of its rate, and exact with ideal stamps. */
  lemma RoundNearRate(n: Neighbour, sample: Option<real>, round: Round, d: real)
    requires RoundTrue(sample, round) && round.usable
    requires RequestSeen(n, round.ts.prevT1, round.ts.prevT2) && RequestSeen(n, round.ts.t1, round.ts.t2)
    requires 2.0 * n.off <= d * (round.ts.t1 - round.ts.prevT1) as real
    ensures AbsR(sample.value - n.rate) <= d
    ensures n.off == 0.0 ==> sample.value == n.rate
  {
    var ts := round.ts;
    RequestsCounted(n, ts.prevT1, ts.prevT2, ts.t1, ts.t2);
    hide RequestSeen, Counted;
    SampleNear(sample.value, n.rate, (ts.t1 - ts.prevT1) as real, (ts.t2 - ts.prevT2) as real, 2.0 * n.off, d);
  }

  lemma SampleNear(x: real, rate: real, ours: real, theirs: real, m: real, d: real)
    requires ours > 0.0 && x == theirs / ours && Counted(rate, m, ours, theirs) && m <= d * ours
    ensures AbsR(x - rate) <= d
    ensures m == 0.0 ==> x == rate
  {
    QuotientError(x, rate, ours, theirs, m);
    AtMostBy(AbsR(x - rate), d, ours);
  }

  lemma AtMostBy(x: real, d: real, spacing: real)
    requires spacing > 0.0 && x * spacing <= d * spacing
    ensures x <= d
  {
    assert x > d ==> (x - d) * spacing > 0.0;
  }

  /** 1 ns, the stamp error, and half the round trip times the error of the ratio. */
  function DelayError(n: Neighbour, round: Round): real {
    1.0 + n.off + RatioError(round.ratio, n.rate, round.ts.t1, round.ts.t4)
  }

  /** The delay and the errors stay below the 10 ms cut-off. */
  predicate DelayInReach(n: Neighbour, round: Round) {
    0.0 <= n.rate * n.delay && n.rate * n.delay + DelayError(n, round) <= NS_10MS as real
  }

  /** The delay that was computed is the neighbour's, as its own clock counts it, to within that
      error. */
  predicate DelayAccurate(n: Neighbour, round: Round) {
    DelayInReach(n, round) ==> AbsR(round.delay as real - n.rate * n.delay) < DelayError(n, round)
  }

  lemma RoundDelayAccurate(n: Neighbour, sample: Option<real>, round: Round)
    requires RoundTrue(sample, round) && round.timed
    requires RequestSeen(n, round.ts.t1, round.ts.t2) && ReplySeen(n, round.ts.t3, round.ts.t4)
    ensures DelayAccurate(n, round)
  {
    hide ComputePropTime, RequestSeen, ReplySeen;
    assert TimedTrue(round);
    hide RoundTrue;
    DelayFollows(n, round);
  }

  lemma DelayFollows(n: Neighbour, round: Round)
    requires RequestSeen(n, round.ts.t1, round.ts.t2) && ReplySeen(n, round.ts.t3, round.ts.t4)
    requires TimedTrue(round)
    ensures DelayAccurate(n, round)
  {
    var ts := round.ts;
    hide Exchange, RatioError, ComputePropTime, Stay, RequestSeen, ReplySeen;
    ExchangeSeen(n, ts);
    if DelayInReach(n, round) {
      PropTimeWithin(round.ratio, n.rate, n.off, n.delay, Stay(n, ts), ts, n.rate * n.delay, DelayError(n, round));
    }
  }

  lemma PropTimeWithin(
      ratio: real, r: real, off: real, d: real, stay: real, ts: Stamps, x: real, error: real)
    requires Exchange(r, 2.0 * off, d, stay, ts.t1, ts.t2, ts.t3, ts.t4)
    requires x == r * d && error == 1.0 + off + RatioError(ratio, r, ts.t1, ts.t4)
    requires 0.0 <= x && x + error <= NS_10MS as real
    ensures AbsR(ComputePropTime(ratio, ts.t1, ts.t2, ts.t3, ts.t4) as real - x) < error
  {
    hide Exchange, RatioError, ComputePropTime;
    PropTimeAccuracy(ratio, r, 2.0 * off, d, stay, ts.t1, ts.t2, ts.t3, ts.t4);
  }

  lemma HalfWay(before: real, sample: real, rate: real)
    ensures sample == rate ==> AbsR((before + sample) / 2.0 - rate) == AbsR(before - rate) / 2.0
  {
  }

  /** One exchange: with a usable spacing and ideal stamps the distance of the ratio to the rate
      is halved, and the delay that is taken over is the neighbour's. */
  lemma CompleteMeasures(cfg: Config, env: Env, s: State, n: Neighbour)
    requires SaneStamps(s) && env.interval < TWO63 / 2 && !env.asymmetry
    requires RequestSeen(n, s.ts.prevT1, s.ts.prevT2) && RequestSeen(n, s.ts.t1, s.ts.t2)
    ensures var s' := Complete(cfg, env, s);
            && (env.computeRatio && SpacingsUsable(env, s.ts) && n.off == 0.0 ==>
                  AbsR(s'.link.ratio - n.rate) == AbsR(s.link.ratio - n.rate) / 2.0)
            && (env.computeDelay && ReplySeen(n, s.ts.t3, s.ts.t4) ==>
                  DelayAccurate(n, CompletionAct(cfg, env, s).round))
            && (CompletionAct(cfg, env, s).verdict.Good? ==>
                  s'.link.propDelay == CompletionAct(cfg, env, s).round.delay)
            && RequestSeen(n, s'.ts.prevT1, s'.ts.prevT2)
  {
    var act := CompletionAct(cfg, env, s);
    CompletionIsTrue(cfg, env, s);
    CompleteMoves(cfg, env, s);
    if env.computeRatio && SpacingsUsable(env, s.ts) && n.off == 0.0 {
      RoundNearRate(n, act.sample, act.round, 0.0);
      HalfWay(s.link.ratio, act.sample.value, n.rate);
    }
    if env.computeDelay && ReplySeen(n, s.ts.t3, s.ts.t4) {
      RoundDelayAccurate(n, act.sample, act.round);
    }
    hide DelayAccurate, Shows, Measured, Judge;
  }

  // ----- all runs -----

  /** The exchanges since then were with this neighbour and usable, and nothing set the ratio back. */
  predicate WithNeighbour(acts: seq<Act>, n: Neighbour, d: real) {
    forall act <- acts ::
      && !act.InitialSent? && !act.InitialFailed? && (act.ResetEntered? ==> !act.cleared)
      && (act.Completed? && act.sample.Some? ==>
            && act.round.usable && RequestSeen(n, act.round.ts.t1, act.round.ts.t2)
            && 2.0 * n.off <= d * (act.round.ts.t1 - act.round.ts.prevT1) as real)
  }

  lemma WithNeighbourSplits(acts: seq<Act>, act: Act, n: Neighbour, d: real)
    requires WithNeighbour(acts + [act], n, d)
    ensures WithNeighbour(acts, n, d) && WithNeighbour([act], n, d)
  {
    assert forall a <- acts :: a in acts + [act];
    assert act in acts + [act];
  }

  /** How one act moves t1 and t2 of the previous exchange. */
  predicate PrevMove(act: Option<Act>, ts: Stamps, ts': Stamps) {
    match act
    case Some(InitialSent(_)) => true
    case Some(InitialFailed) => true
    case Some(Completed(_, sample, round)) =>
      && RoundTrue(sample, round) && round.ts.prevT1 == ts.prevT1 && round.ts.prevT2 == ts.prevT2
      && if sample.Some? then ts'.prevT1 == round.ts.t1 && ts'.prevT2 == round.ts.t2
         else ts'.prevT1 == ts.prevT1 && ts'.prevT2 == ts.prevT2
    case _ => ts'.prevT1 == ts.prevT1 && ts'.prevT2 == ts.prevT2
  }

  lemma CompletePrevMove(cfg: Config, env: Env, s: State)
    requires SaneStamps(s) && env.interval < TWO63 / 2
    ensures PrevMove(NewAct(s, Complete(cfg, env, s)), s.ts, Complete(cfg, env, s).ts)
  {
    CompletionIsTrue(cfg, env, s);
    hide RoundTrue, Measured, Judge;
  }

  lemma PassPrevMove(cfg: Config, env: Env, io: Io, now: U64, s: State)
    requires SaneCall(cfg, env, io, s)
    ensures var s' := Iterate(cfg, env, io, now, s).s;
            PrevMove(NewAct(s, s'), s.ts, s'.ts)
  {
    if s.state.WaitInterval? {
      CompletePrevMove(cfg, env, s.(last := s.state));
      hide Complete, RoundTrue;
    } else {
      hide Complete, RoundTrue, ResetLink;
    }
  }

  /** The latest exchange that was judged good. */
  function LastGood(acts: seq<Act>): Option<Round> {
    if acts == [] then None
    else
      var act := acts[|acts| - 1];
      if act.Completed? && act.verdict.Good? then Some(act.round) else LastGood(acts[..|acts| - 1])
  }

  /** The rate is approached, and exactly so with ideal stamps. */
  predicate Approached(n: Neighbour, d: real, l0: Link, acts: seq<Act>, s: State) {
    && RequestSeen(n, s.ts.prevT1, s.ts.prevT2) && SamplesNear(acts, n.rate, d)
    && (n.off == 0.0 ==> HalvedBy(l0.ratio, s.link.ratio, n.rate, Pow2(Samples(acts))))
  }

  /** The distance to the rate is the p-th part of what it was. */
  predicate HalvedBy(before: real, after: real, rate: real, p: int) {
    AbsR(after - rate) * p as real == AbsR(before - rate)
  }

  /** The delay of a capable link is that of the latest good exchange. */
  predicate DelayHeld(l0: Link, acts: seq<Act>, l: Link) {
    l.asCapable ==>
      match LastGood(acts)
      case Some(round) => l.propDelay == round.delay
      case None => l0.asCapable
  }

  predicate RoundsTrue(acts: seq<Act>) {
    forall act <- acts :: act.Completed? ==> RoundTrue(act.sample, act.round)
  }

  predicate Follows(n: Neighbour, d: real, s0: State, s: State) {
    && Extends(s0, s) && DelayHeld(s0.link, Since(s0, s), s.link) && RoundsTrue(Since(s0, s))
    && (WithNeighbour(Since(s0, s), n, d) ==> Approached(n, d, s0.link, Since(s0, s), s))
  }

  lemma MoveKeepsDelay(cfg: Config, l0: Link, acts: seq<Act>, act: Act, l: Link, l': Link)
    requires DelayHeld(l0, acts, l) && LinkMove(cfg, Some(act), l, l')
    ensures DelayHeld(l0, acts + [act], l')
  {
    assert (acts + [act])[..|acts|] == acts;
  }

  lemma HalvedAgain(first: real, before: real, sample: real, rate: real, p: int)
    requires sample == rate && HalvedBy(first, before, rate, p)
    ensures HalvedBy(first, (before + sample) / 2.0, rate, 2 * p)
  {
    HalfWay(before, sample, rate);
    var e := AbsR(before - rate);
    assert (2 * p) as real == 2.0 * p as real;
    assert (e / 2.0) * (2.0 * p as real) == e * p as real;
  }

  /** The sample of an exchange with this neighbour. */
  lemma SampleNearRate(n: Neighbour, d: real, act: Act, s: State, s': State)
    requires WithNeighbour([act], n, d) && act.Completed? && act.sample.Some?
    requires RequestSeen(n, s.ts.prevT1, s.ts.prevT2) && PrevMove(Some(act), s.ts, s'.ts)
    ensures AbsR(act.sample.value - n.rate) <= d
    ensures n.off == 0.0 ==> act.sample.value == n.rate
    ensures RequestSeen(n, s'.ts.prevT1, s'.ts.prevT2)
  {
    assert act in [act];
    hide RequestSeen, RoundTrue;
    RoundNearRate(n, act.sample, act.round, d);
  }

  lemma NearJoins(acts: seq<Act>, act: Act, r: real, d: real)
    requires SamplesNear(acts, r, d) && SamplesNear([act], r, d)
    ensures SamplesNear(acts + [act], r, d)
  {
    assert act in [act];
  }

  lemma MoveKeepsApproached(
      cfg: Config, n: Neighbour, d: real, l0: Link, acts: seq<Act>, act: Act, s: State, s': State)
    requires WithNeighbour(acts + [act], n, d) && Approached(n, d, l0, acts, s)
    requires LinkMove(cfg, Some(act), s.link, s'.link) && PrevMove(Some(act), s.ts, s'.ts)
    ensures Approached(n, d, l0, acts + [act], s')
  {
    WithNeighbourSplits(acts, act, n, d);
    assert act in [act];
    OneMoreAct(acts, act);
    RatioAfterMove(cfg, act, s.link, s'.link);
    hide RequestSeen, RoundTrue, LinkMove, Samples, HalvedBy, AbsR;
    if act.Completed? && act.sample.Some? {
      SampleNearRate(n, d, act, s, s');
      if n.off == 0.0 {
        HalvedAgain(l0.ratio, s.link.ratio, act.sample.value, n.rate, Pow2(Samples(acts)));
      }
    }
    NearJoins(acts, act, n.rate, d);
  }

  lemma MoveKeepsFollows(cfg: Config, n: Neighbour, d: real, s0: State, s: State, s': State)
    requires Follows(n, d, s0, s) && Moves(cfg, s, s') && PrevMove(NewAct(s, s'), s.ts, s'.ts)
    ensures Follows(n, d, s0, s')
  {
    hide RoundTrue, RequestSeen;
    if s'.log == s.log {
      assert NewAct(s, s') == None;
      assert Since(s0, s') == Since(s0, s);
    } else {
      var acts, act := Since(s0, s), s'.log[|s.log|];
      assert Since(s0, s') == acts + [act];
      MoveKeepsDelay(cfg, s0.link, acts, act, s.link, s'.link);
      if WithNeighbour(acts + [act], n, d) {
        WithNeighbourSplits(acts, act, n, d);
        MoveKeepsApproached(cfg, n, d, s0.link, acts, act, s, s');
      }
      hide DelayHeld, Approached, WithNeighbour, LinkMove;
    }
  }

  lemma DispatchKeepsFollows(
      cfg: Config, env: Env, io: Io, now: U64, n: Neighbour, d: real, s0: State, s: State)
    requires SaneCall(cfg, env, io, s) && Follows(n, d, s0, s)
    ensures Follows(n, d, s0, Dispatch(cfg, env, io, now, s).0)
    ensures SaneStamps(Dispatch(cfg, env, io, now, s).0)
    decreases Rank(s)
  {
    var s' := Iterate(cfg, env, io, now, s).s;
    PassMoves(cfg, env, io, now, s);
    PassPrevMove(cfg, env, io, now, s);
    MoveKeepsFollows(cfg, n, d, s0, s, s');
    PassLowersRank(cfg, env, io, now, s);
    hide Follows, PrevMove, Moves;
    if Iterate(cfg, env, io, now, s).Go? && s'.last != s'.state {
      DispatchKeepsFollows(cfg, env, io, now, n, d, s0, s');
    }
  }

  lemma HandleKeepsFollows(cfg: Config, n: Neighbour, d: real, s0: State, s: State, i: Input)
    requires Measurable(cfg) && SaneStamps(s) && SaneInput(i) && Follows(n, d, s0, s)
    ensures Follows(n, d, s0, Handle(cfg, s, i).0) && SaneStamps(Handle(cfg, s, i).0)
  {
    match Accept(s, i.event)
    case Some(s1) =>
      AcceptKeepsFollows(n, d, s0, s, i.event);
      DispatchKeepsFollows(cfg, i.env, i.io, i.now, n, d, s0, s1.(state := AllStateCondition(i.env, s1)));
    case None =>
      if i.event.DeviceDown? {
        MoveKeepsFollows(cfg, n, d, s0, s, Handle(cfg, s, i).0);
      }
  }

  /** Storing a message or a timestamp is no completed exchange. */
  lemma AcceptKeepsFollows(n: Neighbour, d: real, s0: State, s: State, event: Event)
    requires Follows(n, d, s0, s) && Accept(s, event).Some?
    ensures forall phase :: Follows(n, d, s0, Accept(s, event).value.(state := phase))
  {
    hide RoundTrue, RequestSeen, DelayHeld;
    var s1 := Accept(s, event).value;
    assert Since(s0, s1) == Since(s0, s) && s1.link == s.link;
  }

  lemma {:induction false} RunKeepsFollows(
      cfg: Config, n: Neighbour, d: real, s0: State, s: State, inputs: seq<Input>)
    requires Measurable(cfg) && SaneStamps(s) && Follows(n, d, s0, s)
    requires forall i <- inputs :: SaneInput(i)
    ensures Follows(n, d, s0, Run(cfg, s, inputs))
    decreases |inputs|
  {
    hide Follows, Handle;
    if inputs != [] {
      HandleKeepsFollows(cfg, n, d, s0, s, inputs[0]);
      RunKeepsFollows(cfg, n, d, s0, Handle(cfg, s, inputs[0]).0, inputs[1..]);
    }
  }

  lemma FollowsItself(n: Neighbour, d: real, s: State)
    requires RequestSeen(n, s.ts.prevT1, s.ts.prevT2)
    ensures Follows(n, d, s, s)
  {
    assert Since(s, s) == [];
    assert Samples([]) == 0 && Pow2(0) == 1;
    assert AbsR(s.link.ratio - n.rate) * 1.0 == AbsR(s.link.ratio - n.rate);
  }

  /** Over all runs in which the completed exchanges are with one linear neighbour, have usable
      spacings and nothing sets the ratio back: from any ratio, k exchanges bring it to the
      neighbour's rate within the k-th halving of its first distance and the stamp error over a
      spacing; with ideal stamps its distance is exactly the k-th halving of the first. */
  lemma NeighbourRateIsLearned(cfg: Config, s: State, inputs: seq<Input>, n: Neighbour, d: real)
    requires SaneRun(cfg, s, inputs) && RequestSeen(n, s.ts.prevT1, s.ts.prevT2)
    ensures var s' := Run(cfg, s, inputs);
            && s.log <= s'.log
            && (WithNeighbour(Since(s, s'), n, d) ==>
                  && AbsR(s'.link.ratio - n.rate)
                     <= AbsR(s.link.ratio - n.rate) / Pow2(Samples(Since(s, s'))) as real + AbsR(d)
                  && (n.off == 0.0 ==>
                        HalvedBy(s.link.ratio, s'.link.ratio, n.rate, Pow2(Samples(Since(s, s'))))))
  {
    FollowsItself(n, d, s);
    hide RequestSeen, WithNeighbour, HalvedBy, Run, AbsR, Samples, RoundsTrue, DelayHeld;
    hide SamplesNear, SaneStamps, SaneInput, Measurable;
    RunKeepsFollows(cfg, n, d, s, s, inputs);
    RatioConverges(cfg, s, inputs, n.rate, d);
  }

  /** In every state reached from power-up, the delay of a capable link is the one computed in the
      latest exchange judged good; if that exchange was with a linear neighbour, it is the
      neighbour's delay to within the error of the stamps and of the ratio. */
  lemma NeighbourDelayIsLearned(cfg: Config, inputs: seq<Input>, n: Neighbour)
    requires SaneRun(cfg, Boot(), inputs)
    ensures var s := Run(cfg, Boot(), inputs);
            s.link.asCapable ==>
              && LastGood(s.log).Some?
              && var round := LastGood(s.log).value;
                 && s.link.propDelay == round.delay
                 && (round.timed && RequestSeen(n, round.ts.t1, round.ts.t2) && ReplySeen(n, round.ts.t3, round.ts.t4)
                     ==> DelayAccurate(n, round))
  {
    // any neighbour will do for the history itself
    var zero := Neighbour(0.0, 0.0, 0.0, 0.0);
    FollowsItself(zero, 0.0, Boot());
    RunKeepsFollows(cfg, zero, 0.0, Boot(), Boot(), inputs);
    var s := Run(cfg, Boot(), inputs);
    assert Since(Boot(), s) == s.log;
    hide Run, DelayAccurate, RequestSeen, ReplySeen;
    if s.link.asCapable {
      var round := LastGood(s.log).value;
      LastGoodIsTrue(s.log);
      if round.timed && RequestSeen(n, round.ts.t1, round.ts.t2) && ReplySeen(n, round.ts.t3, round.ts.t4) {
        DelayFollows(n, round);
      }
    }
  }

  lemma {:induction false} LastGoodIsTrue(acts: seq<Act>)
    requires RoundsTrue(acts)
    ensures LastGood(acts).Some? && LastGood(acts).value.timed ==> TimedTrue(LastGood(acts).value)
  {
    hide TimedTrue;
    if acts != [] {
      assert acts[|acts| - 1] in acts;
      assert forall a <- acts[..|acts| - 1] :: a in acts;
      LastGoodIsTrue(acts[..|acts| - 1]);
    }
  }

  // ----- the capability -----

  predicate Foreign(cfg: Config, s: State) { s.rx.resp.source.clock != cfg.thisClock }

  /** The ratio is known: from before, from this exchange, or because none is computed. */
  predicate Rated(env: Env, s: State) {
    s.link.ratioValid || !env.computeRatio || SpacingsUsable(env, s.ts)
  }

  /** After an exchange the link is capable if and only if its delay is inside both limits, with
      another clock and a known ratio; or it was capable, faults are still allowed and the exchange
      was not merely unrated. The first clears the faults and takes the new delay over, the other
      counts one more and keeps the old delay. */
  lemma CapableAfterIff(cfg: Config, env: Env, s: State)
    requires !env.asymmetry
    ensures var link, delay := Complete(cfg, env, s).link, CompletionAct(cfg, env, s).round.delay;
            var good := Foreign(cfg, s) && Rated(env, s) && cfg.minLimit <= delay <= cfg.thresh;
            var tolerated := !good && s.link.faults <= cfg.allowedFaults && (Rated(env, s) || !Foreign(cfg, s));
            && (link.asCapable <==> good || (s.link.asCapable && tolerated))
            && (good ==> link.faults == 0 && link.propDelay == delay)
            && (tolerated ==> link.faults == (s.link.faults + 1) % 65536 && link.propDelay == s.link.propDelay)
            && (!good && !tolerated ==> link.faults == 0 && !link.measuring)
  {
    hide ComputePropTime, RateSample, SpacingsUsable;
  }

  /** With a fixed delay configured, the first call already puts it in force, up or down. */
  lemma FixedDelayIsInForce(cfg: Config, i: Input)
    requires cfg.network && cfg.fixedDelay != 0 && !i.env.suspended
    ensures var link := Handle(cfg, Boot(), i).0.link;
            i.event.DeviceDown? || i.event.TxTimestamp?
            || (link.propDelay == cfg.fixedDelay && link.asCapable && link.ratio == 1.0)
  {
    if Accept(Boot(), i.event).Some? {
      var s0 := Accept(Boot(), i.event).value;
      var s1 := s0.(state := AllStateCondition(i.env, s0));
      var s2 := Iterate(cfg, i.env, i.io, i.now, s1).s;
      if s1.state == Init {
        var s3 := Iterate(cfg, i.env, i.io, i.now, s2).s;
        assert Dispatch(cfg, i.env, i.io, i.now, s2).0 == s3;
      }
    }
  }
}
