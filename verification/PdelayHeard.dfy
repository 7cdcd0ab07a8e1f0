/** Where the requester's numbers come from. A listener beside the machine keeps what the events
    themselves said; every completed exchange is judged on exactly that, and so what is learned
    of a neighbour is learned from the messages. */
module PdelayHeard {
  import opened Arith
  import opened PdelayMeasure
  import opened PdelayNeighbour
  import opened PdelayReq
  import opened PdelayReqProofs
  import opened PdelaySequence

  // ----- the listener -----

  /** The latest transmit timestamp of the request that waits for one, the latest Pdelay_Resp with
      the time it gave and the time it arrived, the latest Follow_Up with the time it gave, the
      device time taken with the latest send that no timestamp was announced for (0: none yet), and
      the Pdelay_Resp that was in hand when waiting for a Follow_Up began. */
  datatype Heard = Heard(
    t1: nat, t2: nat, t3: nat, t4: nat, mock: nat, resp: Resp, followUp: FollowUp, taken: Resp)

  /** A timestamp counts if the port is sending and it is for the id just sent. */
  predicate ForThisRequest(s: State, id: U16) {
    (s.state == Send || s.state == InitialSend) && id == s.tx.seqId
  }

  function HearEvent(s: State, h: Heard, event: Event): Heard {
    match event
    case TxTimestamp(id, t1) => if ForThisRequest(s, id) then h.(t1 := t1) else h
    case RecvResp(resp, t4) =>
      h.(t2 := resp.receiptSec * 1_000_000_000 + resp.receiptNs, t4 := t4, resp := resp)
    case RecvFollowUp(fup) =>
      h.(t3 := fup.originSec * 1_000_000_000 + fup.originNs, followUp := fup)
    case _ => h
  }

  function Hear(s: State, h: Heard, event: Event): Heard {
    var h := HearEvent(s, h, event);
    if s.state.WaitFollowUp? then h else h.(taken := h.resp)
  }

  /** A call that returns 1 attempted a send. */
  function AfterSend(h: Heard, io: Io, result: int): Heard {
    if result == 1 && io.sendResult < -1 then h.(mock := io.deviceTime) else h
  }

  function AfterCall(cfg: Config, s: State, h: Heard, i: Input): Heard
    requires cfg.network
  {
    AfterSend(Hear(s, h, i.event), i.io, Handle(cfg, s, i).1)
  }

  function Listen(cfg: Config, s: State, h: Heard, inputs: seq<Input>): Heard
    requires cfg.network
    decreases |inputs|
  {
    if inputs == [] then h
    else Listen(cfg, Handle(cfg, s, inputs[0]).0, AfterCall(cfg, s, h, inputs[0]), inputs[1..])
  }

  function Silence(): Heard { Heard(0, 0, 0, 0, 0, Boot().rx.resp, Boot().rx.followUp, Boot().rx.resp) }

  // ----- what a completed exchange was judged on -----

  /** Its stamps and messages are the ones heard; t1 may be a mock timestamp instead. */
  predicate FromHeard(h: Heard, round: Round) {
    && round.ts.t2 == h.t2 && round.ts.t3 == h.t3 && round.ts.t4 == h.t4
    && round.mail.resp == h.resp && round.mail.followUp == h.followUp
    && (round.ts.t1 == h.t1 || (h.mock != 0 && round.ts.t1 == h.mock))
  }

  /** The Follow_Up answers the request in flight, in a known domain, and is not this clock's own. */
  predicate AnswersRequest(cfg: Config, txSeq: U16, fup: FollowUp) {
    fup.id == txSeq && (fup.majorSdo == 1 || fup.majorSdo == 2) && fup.source.clock != cfg.thisClock
  }

  /** The Resp named this port, in a known domain, is not this clock's own and not ahead of the request. */
  predicate NamesThisPort(cfg: Config, txSeq: U16, resp: Resp) {
    && resp.requesting.clock == cfg.thisClock && resp.requesting.port == cfg.thisPort
    && (resp.majorSdo == 1 || resp.majorSdo == 2) && resp.source.clock != cfg.thisClock && resp.id <= txSeq
  }

  predicate ActHeard(cfg: Config, h: Heard, act: Act) {
    act.Completed? ==>
      && FromHeard(h, act.round) && AnswersRequest(cfg, act.round.txSeq, h.followUp)
      && NamesThisPort(cfg, act.round.txSeq, h.taken)
  }

  /** Between two calls. */
  predicate Stored(h: Heard, s: State) {
    && s.ts.t2 == h.t2 && s.ts.t3 == h.t3 && s.ts.t4 == h.t4
    && s.rx.resp == h.resp && s.rx.followUp == h.followUp
    && (s.tx.rcvdTimestamp ==> s.ts.t1 == h.t1)
    && (s.tx.mockTs == 0 || s.tx.mockTs == h.mock)
    && (s.state == WaitResp || s.state == WaitFollowUp || s.state == WaitInterval ==>
          s.ts.t1 == h.t1 || (h.mock != 0 && s.ts.t1 == h.mock))
  }

  predicate Taken(cfg: Config, h: Heard, s: State) {
    s.state == WaitFollowUp ==> NamesThisPort(cfg, s.tx.txSeq, h.taken)
  }

  predicate AtTheEnd(s: State) { s.state == WaitInterval && s.last != WaitInterval }

  /** Still waiting for the timestamp of a request or for its Resp. */
  predicate Early(s: State) {
    s.state == WaitResp || (s.last == s.state && (s.state == Send || s.state == InitialSend))
  }

  /** Within a call. */
  predicate UnderWay(cfg: Config, h: Heard, s: State) {
    && (Early(s) ==> h.taken == h.resp) && Taken(cfg, h, s)
    && (AtTheEnd(s) ==> AnswersRequest(cfg, s.tx.txSeq, h.followUp) && NamesThisPort(cfg, s.tx.txSeq, h.taken))
  }

  /** One pass keeps what is stored, and the exchange it may complete is judged on it. */
  predicate PassKeeps(cfg: Config, io: Io, h: Heard, s: State, step: Step) {
    && Stored(if step.Done? then AfterSend(h, io, 1) else h, step.s) && Taken(cfg, h, step.s)
    && (step.Go? ==> UnderWay(cfg, h, step.s))
    && (step.Done? ==> step.result == 1)
    && (step.s.log == s.log
        || (|step.s.log| == |s.log| + 1 && s.log <= step.s.log && ActHeard(cfg, h, step.s.log[|s.log|])))
  }

  lemma SendingPassHeard(cfg: Config, env: Env, io: Io, now: U64, h: Heard, s: State)
    requires cfg.network && Stored(h, s) && UnderWay(cfg, h, s) && (s.state == Send || s.state == InitialSend)
    ensures PassKeeps(cfg, io, h, s, Iterate(cfg, env, io, now, s))
  {
  }

  lemma CompletePassHeard(cfg: Config, env: Env, io: Io, now: U64, h: Heard, s: State)
    requires Stored(h, s) && UnderWay(cfg, h, s) && s.state == WaitInterval
    ensures PassKeeps(cfg, io, h, s, Iterate(cfg, env, io, now, s))
  {
    hide Judge, Measured, Classify, RateSample, SpacingsUsable;
  }

  lemma WaitingPassHeard(cfg: Config, env: Env, io: Io, now: U64, h: Heard, s: State)
    requires Stored(h, s) && UnderWay(cfg, h, s)
    requires s.state != Send && s.state != InitialSend && s.state != WaitInterval
    ensures PassKeeps(cfg, io, h, s, Iterate(cfg, env, io, now, s))
  {
    hide ResetLink, CountMulti;
  }

  lemma PassHeard(cfg: Config, env: Env, io: Io, now: U64, h: Heard, s: State)
    requires cfg.network && Stored(h, s) && UnderWay(cfg, h, s)
    ensures PassKeeps(cfg, io, h, s, Iterate(cfg, env, io, now, s))
  {
    hide Stored, UnderWay, PassKeeps, Iterate;
    if s.state == Send || s.state == InitialSend {
      SendingPassHeard(cfg, env, io, now, h, s);
    } else if s.state == WaitInterval {
      CompletePassHeard(cfg, env, io, now, h, s);
    } else {
      WaitingPassHeard(cfg, env, io, now, h, s);
    }
  }

  predicate AllHeard(cfg: Config, h: Heard, acts: seq<Act>) { forall act <- acts :: ActHeard(cfg, h, act) }

  /** What the passes of one call have added to the log. */
  predicate HeardSince(cfg: Config, h: Heard, s0: State, s: State) {
    s0.log <= s.log && AllHeard(cfg, h, Since(s0, s))
  }

  lemma PassAddsHeard(cfg: Config, io: Io, h: Heard, s0: State, s: State, step: Step)
    requires HeardSince(cfg, h, s0, s) && PassKeeps(cfg, io, h, s, step)
    ensures HeardSince(cfg, h, s0, step.s)
  {
    hide Stored, UnderWay, Taken, ActHeard;
    if step.s.log != s.log {
      assert Since(s0, step.s) == Since(s0, s) + [step.s.log[|s.log|]];
    }
  }

  lemma DispatchHeard(cfg: Config, env: Env, io: Io, now: U64, h: Heard, s0: State, s: State)
    requires cfg.network && Stored(h, s) && UnderWay(cfg, h, s) && HeardSince(cfg, h, s0, s)
    ensures var (s', result) := Dispatch(cfg, env, io, now, s);
            Stored(AfterSend(h, io, result), s') && Taken(cfg, h, s') && Settled(s') && HeardSince(cfg, h, s0, s')
    decreases Rank(s)
  {
    var step := Iterate(cfg, env, io, now, s);
    PassHeard(cfg, env, io, now, h, s);
    PassLowersRank(cfg, env, io, now, s);
    PassSettles(cfg, env, io, now, s);
    PassAddsHeard(cfg, io, h, s0, s, step);
    hide Iterate, Stored, UnderWay, Taken, HeardSince, Settled;
    if step.Go? && step.s.last != step.s.state {
      DispatchHeard(cfg, env, io, now, h, s0, step.s);
    }
  }

  lemma AcceptHeard(cfg: Config, env: Env, h: Heard, s: State, event: Event)
    requires Stored(h, s) && Taken(cfg, h, s) && Settled(s) && Accept(s, event).Some?
    ensures var h', s' := Hear(s, h, event), Accept(s, event).value;
            var s'' := s'.(state := AllStateCondition(env, s'));
            Stored(h', s'') && UnderWay(cfg, h', s'') && HeardSince(cfg, h', s, s'')
  {
    assert Accept(s, event).value.log[|s.log|..] == [];
  }

  /** One call: what it stores is what was heard, and it completes an exchange on nothing else. */
  lemma HandleHeard(cfg: Config, h: Heard, s: State, i: Input)
    requires cfg.network && Stored(h, s) && Taken(cfg, h, s) && Settled(s)
    ensures var s' := Handle(cfg, s, i).0;
            && Stored(AfterCall(cfg, s, h, i), s') && Taken(cfg, AfterCall(cfg, s, h, i), s') && Settled(s')
            && HeardSince(cfg, Hear(s, h, i.event), s, s')
  {
    var h' := Hear(s, h, i.event);
    match Accept(s, i.event)
    case Some(s') =>
      AcceptHeard(cfg, i.env, h, s, i.event);
      hide Stored, UnderWay, HeardSince, Settled, Accept, Hear, Dispatch, AllStateCondition;
      DispatchHeard(cfg, i.env, i.io, i.now, h', s, s'.(state := AllStateCondition(i.env, s')));
    case None =>
      assert Handle(cfg, s, i).0.log[|s.log|..] == if i.event.DeviceDown? then [CapableCleared] else [];
  }

  lemma {:induction false} RunHeard(cfg: Config, h: Heard, s: State, inputs: seq<Input>)
    requires cfg.network && Stored(h, s) && Taken(cfg, h, s) && Settled(s)
    ensures var h', s' := Listen(cfg, s, h, inputs), Run(cfg, s, inputs);
            Stored(h', s') && Taken(cfg, h', s') && Settled(s')
    decreases |inputs|
  {
    hide Stored, Taken, Settled, Handle, AfterCall, Hear;
    if inputs != [] {
      HandleHeard(cfg, h, s, inputs[0]);
      RunHeard(cfg, AfterCall(cfg, s, h, inputs[0]), Handle(cfg, s, inputs[0]).0, inputs[1..]);
    }
  }

  /** In every run from power-up, an exchange that a call completes is judged on the messages and
      stamps heard up to that call: t2 and t4 from the latest Pdelay_Resp, t3 from the latest
      Follow_Up, t1 from the latest transmit timestamp taken, or the device time that stood in for
      one. The Follow_Up answered the request in flight, and the Resp that the port had begun to
      wait for it with named this port. */
  lemma StampsAreHeard(cfg: Config, inputs: seq<Input>, i: Input)
    requires cfg.network
    ensures var s := Run(cfg, Boot(), inputs);
            var h := Hear(s, Listen(cfg, Boot(), Silence(), inputs), i.event);
            s.log <= Handle(cfg, s, i).0.log
            && forall act <- Since(s, Handle(cfg, s, i).0) ::
                 act.Completed? ==>
                   && act.round.ts.t2 == h.t2 && act.round.ts.t3 == h.t3 && act.round.ts.t4 == h.t4
                   && (act.round.ts.t1 == h.t1 || (h.mock != 0 && act.round.ts.t1 == h.mock))
                   && AnswersRequest(cfg, act.round.txSeq, h.followUp) && NamesThisPort(cfg, act.round.txSeq, h.taken)
  {
    RunHeard(cfg, Silence(), Boot(), inputs);
    var h, s := Listen(cfg, Boot(), Silence(), inputs), Run(cfg, Boot(), inputs);
    hide Stored, Taken, Settled, Handle, AfterCall, Hear, Run, Listen;
    HandleHeard(cfg, h, s, i);
  }

  // ----- what is learned from the messages -----

  lemma CallHeard(cfg: Config, h: Heard, s: State, i: Input)
    requires cfg.network && Stored(h, s) && Taken(cfg, h, s) && Settled(s)
    ensures var s' := Handle(cfg, s, i).0;
            s.log <= s'.log && forall act <- Since(s, s') :: act.Completed? ==> FromHeard(Hear(s, h, i.event), act.round)
  {
    hide Stored, Taken, Settled, Handle, AfterCall, Hear;
    HandleHeard(cfg, h, s, i);
  }

  /** The request as heard was stamped by this neighbour, with either time taken as its departure. */
  predicate RequestHeard(n: Neighbour, h: Heard) {
    RequestSeen(n, h.t1, h.t2) && (h.mock != 0 ==> RequestSeen(n, h.mock, h.t2))
  }

  predicate ReplyHeard(n: Neighbour, h: Heard) { ReplySeen(n, h.t3, h.t4) }

  predicate GoodIn(acts: seq<Act>) { exists act <- acts :: act.Completed? && act.verdict.Good? }

  /** What had been heard in the latest call that completed a good exchange. */
  function HeardAtGood(cfg: Config, s: State, h: Heard, good: Option<Heard>, inputs: seq<Input>): Option<Heard>
    requires cfg.network
    decreases |inputs|
  {
    if inputs == [] then good
    else
      var s' := Handle(cfg, s, inputs[0]).0;
      var good' := if |s.log| <= |s'.log| && GoodIn(Since(s, s')) then Some(Hear(s, h, inputs[0].event)) else good;
      HeardAtGood(cfg, s', AfterCall(cfg, s, h, inputs[0]), good', inputs[1..])
  }

  /** The latest good exchange of the log is the one that was heard. */
  predicate GoodHeard(good: Option<Heard>, acts: seq<Act>) {
    match LastGood(acts)
    case None => good == None
    case Some(round) => good.Some? && FromHeard(good.value, round)
  }

  lemma {:induction false} GoodActsHeard(h: Heard, good: Option<Heard>, acts: seq<Act>, more: seq<Act>)
    requires GoodHeard(good, acts) && forall act <- more :: act.Completed? ==> FromHeard(h, act.round)
    ensures GoodHeard(if GoodIn(more) then Some(h) else good, acts + more)
  {
    hide FromHeard;
    if more == [] {
      assert acts + more == acts;
    } else {
      var last := |more| - 1;
      GoodActsHeard(h, good, acts, more[..last]);
      assert (acts + more)[..|acts + more| - 1] == acts + more[..last];
      assert more == more[..last] + [more[last]];
      assert GoodIn(more) <==> GoodIn(more[..last]) || (more[last].Completed? && more[last].verdict.Good?);
    }
  }

  lemma {:induction false} RunGoodHeard(cfg: Config, s: State, h: Heard, good: Option<Heard>, inputs: seq<Input>)
    requires cfg.network && Stored(h, s) && Taken(cfg, h, s) && Settled(s) && GoodHeard(good, s.log)
    ensures GoodHeard(HeardAtGood(cfg, s, h, good, inputs), Run(cfg, s, inputs).log)
    decreases |inputs|
  {
    hide Stored, Taken, Settled, Handle, AfterCall, Hear, GoodHeard, GoodIn, FromHeard;
    if inputs != [] {
      var i := inputs[0];
      var s' := Handle(cfg, s, i).0;
      HandleHeard(cfg, h, s, i);
      CallHeard(cfg, h, s, i);
      GoodActsHeard(Hear(s, h, i.event), good, s.log, Since(s, s'));
      assert s'.log == s.log + Since(s, s');
      var good' := if GoodIn(Since(s, s')) then Some(Hear(s, h, i.event)) else good;
      RunGoodHeard(cfg, s', AfterCall(cfg, s, h, i), good', inputs[1..]);
    }
  }

  /** In every state reached from power-up, the delay of a capable link was computed from what had
      been heard in the latest call that completed a good exchange; if those messages came from a
      linear neighbour, it is the neighbour's delay, to within 1 ns, the stamp error and half the
      round trip times the error of the ratio. */
  lemma DelayLearnedFromMessages(cfg: Config, inputs: seq<Input>, n: Neighbour)
    requires SaneRun(cfg, Boot(), inputs)
    ensures var s := Run(cfg, Boot(), inputs);
            s.link.asCapable ==>
              && LastGood(s.log).Some?
              && var round, heard := LastGood(s.log).value, HeardAtGood(cfg, Boot(), Silence(), None, inputs);
                 && heard.Some? && FromHeard(heard.value, round) && s.link.propDelay == round.delay
                 && (round.timed && RequestHeard(n, heard.value) && ReplyHeard(n, heard.value)
                     ==> DelayAccurate(n, round))
  {
    NeighbourDelayIsLearned(cfg, inputs, n);
    RunGoodHeard(cfg, Boot(), Silence(), None, inputs);
    hide Run, HeardAtGood, DelayAccurate, RequestSeen, ReplySeen;
  }

  /** What was heard in every call that completed an exchange came from this neighbour; the spacings
      were usable, and nothing set the ratio back. */
  predicate HeardFrom(n: Neighbour, d: real, h: Heard, acts: seq<Act>) {
    forall act <- acts ::
      && !act.InitialSent? && !act.InitialFailed? && (act.ResetEntered? ==> !act.cleared)
      && (act.Completed? && act.sample.Some? ==>
            act.round.usable && RequestHeard(n, h) && 2.0 * n.off <= d * (act.round.ts.t1 - act.round.ts.prevT1) as real)
  }

  predicate RunHeardFrom(cfg: Config, n: Neighbour, d: real, s: State, h: Heard, inputs: seq<Input>)
    requires cfg.network
    decreases |inputs|
  {
    inputs != [] ==>
      var s' := Handle(cfg, s, inputs[0]).0;
      && (|s.log| <= |s'.log| ==> HeardFrom(n, d, Hear(s, h, inputs[0].event), Since(s, s')))
      && RunHeardFrom(cfg, n, d, s', AfterCall(cfg, s, h, inputs[0]), inputs[1..])
  }

  lemma CallWithNeighbour(n: Neighbour, d: real, h: Heard, acts: seq<Act>)
    requires HeardFrom(n, d, h, acts) && forall act <- acts :: act.Completed? ==> FromHeard(h, act.round)
    ensures WithNeighbour(acts, n, d)
  {
    hide RequestSeen;
  }

  lemma {:induction false} RunWithNeighbour(cfg: Config, n: Neighbour, d: real, s: State, h: Heard, inputs: seq<Input>)
    requires cfg.network && Stored(h, s) && Taken(cfg, h, s) && Settled(s)
    requires RunHeardFrom(cfg, n, d, s, h, inputs)
    ensures s.log <= Run(cfg, s, inputs).log && WithNeighbour(Since(s, Run(cfg, s, inputs)), n, d)
    decreases |inputs|
  {
    hide Stored, Taken, Settled, Handle, AfterCall, Hear, HeardFrom, FromHeard, RequestSeen;
    if inputs != [] {
      var i := inputs[0];
      var s' := Handle(cfg, s, i).0;
      HandleHeard(cfg, h, s, i);
      CallHeard(cfg, h, s, i);
      CallWithNeighbour(n, d, Hear(s, h, i.event), Since(s, s'));
      RunWithNeighbour(cfg, n, d, s', AfterCall(cfg, s, h, i), inputs[1..]);
      var end := Run(cfg, s, inputs);
      assert Since(s, end) == Since(s, s') + Since(s', end);
    }
  }

  /** The ratio after a run in which it learned of this neighbour. */
  predicate Learned(n: Neighbour, d: real, s: State, s': State) {
    && s.log <= s'.log
    && AbsR(s'.link.ratio - n.rate)
       <= AbsR(s.link.ratio - n.rate) / Pow2(Samples(Since(s, s'))) as real + AbsR(d)
    && (n.off == 0.0 ==> HalvedBy(s.link.ratio, s'.link.ratio, n.rate, Pow2(Samples(Since(s, s')))))
  }

  lemma RateLearnedFrom(cfg: Config, s: State, h: Heard, inputs: seq<Input>, n: Neighbour, d: real)
    requires SaneRun(cfg, s, inputs) && RequestSeen(n, s.ts.prevT1, s.ts.prevT2)
    requires cfg.network && Stored(h, s) && Taken(cfg, h, s) && Settled(s)
    ensures RunHeardFrom(cfg, n, d, s, h, inputs) ==> Learned(n, d, s, Run(cfg, s, inputs))
  {
    hide SaneRun, RequestSeen, RunHeardFrom, WithNeighbour, HalvedBy, Samples, AbsR, Pow2, Run, Stored, Taken, Settled;
    NeighbourRateIsLearned(cfg, s, inputs, n, d);
    if RunHeardFrom(cfg, n, d, s, h, inputs) {
      RunWithNeighbour(cfg, n, d, s, h, inputs);
    }
  }

  /** Over all runs in which the messages that completed exchanges were those of one linear
      neighbour: k of them bring the ratio from anywhere to the neighbour's rate, within the k-th
      halving of its first distance and the stamp error over a spacing. */
  lemma RateLearnedFromMessages(cfg: Config, before: seq<Input>, inputs: seq<Input>, n: Neighbour, d: real)
    requires cfg.network && SaneRun(cfg, Run(cfg, Boot(), before), inputs)
    requires var s := Run(cfg, Boot(), before); RequestSeen(n, s.ts.prevT1, s.ts.prevT2)
    ensures var s, h := Run(cfg, Boot(), before), Listen(cfg, Boot(), Silence(), before);
            RunHeardFrom(cfg, n, d, s, h, inputs) ==> Learned(n, d, s, Run(cfg, s, inputs))
  {
    hide SaneRun, RequestSeen, RunHeardFrom, Learned;
    RunHeard(cfg, Silence(), Boot(), before);
    var s, h := Run(cfg, Boot(), before), Listen(cfg, Boot(), Silence(), before);
    hide Run, Listen, Stored, Taken, Settled, Boot, Silence;
    RateLearnedFrom(cfg, s, h, inputs, n, d);
  }
}
