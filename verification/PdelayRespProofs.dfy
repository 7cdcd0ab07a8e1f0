/** Which request a Pdelay_Resp_Follow_Up answers. The responder composes it from the request
    buffer, and that buffer is overwritten by every request that arrives, even a refused one. */
module PdelayRespProofs {
  import opened Arith
  import opened PdelayResp

  function LatestResp(log: seq<Act>): Option<Request> {
    if log == [] then None
    else if log[|log| - 1].RespSent? then Some(log[|log| - 1].req)
    else LatestResp(log[..|log| - 1])
  }

  /** Every Follow_Up is composed from the request that the latest Pdelay_Resp before it answered:
      the same sequence id, the same requesting port. */
  predicate FollowUpsMatch(log: seq<Act>) {
    forall i | 0 <= i < |log| && log[i].FollowUpSent? :: LatestResp(log[..i]) == Some(log[i].req)
  }

  lemma LogGrows(log: seq<Act>, act: Act)
    ensures LatestResp(log + [act]) == if act.RespSent? then Some(act.req) else LatestResp(log)
    ensures FollowUpsMatch(log + [act])
            <==> FollowUpsMatch(log) && (act.FollowUpSent? ==> LatestResp(log) == Some(act.req))
  {
    var log' := log + [act];
    assert log'[..|log|] == log && log'[|log|] == act;
    assert forall i | 0 <= i < |log| :: log'[..i] == log[..i] && log'[i] == log[i];
  }

  // ----- exactly when a call keeps the match -----

  /** The machine, entered in this state, sends a Follow_Up: the timestamp of the Pdelay_Resp is
      there, or an earlier send of the Follow_Up failed, and now the send goes through. */
  predicate FollowsUp(txtsLost: nat, io: Io, now: U64, s: State) {
    && io.sendResult != -1
    && match s.state
       case WaitReq => s.last != WaitReq
       case SentResp =>
         s.last == SentResp
         && (s.tx.rcvdTimestamp || (Sub64(now, s.tx.sentAt) >= txtsLost && s.tx.mockTs != 0))
       case _ => false
  }

  /** The buffer still holds the request that was answered last. */
  predicate BufferMatches(s: State) { LatestResp(s.log) == Some(s.rx.req) }

  predicate StaysMatched(txtsLost: nat, io: Io, now: U64, s: State) {
    FollowUpsMatch(s.log) && (FollowsUp(txtsLost, io, now, s) ==> BufferMatches(s))
  }

  /** A pass that ends the loop, or one that goes on: either way the outcome is decided already. */
  lemma PassMatchIff(txtsLost: nat, env: Env, io: Io, now: U64, s: State)
    ensures var step := Iterate(txtsLost, env, io, now, s);
            StaysMatched(txtsLost, io, now, s)
            <==> if step.Done? || step.s.last == step.s.state then FollowUpsMatch(step.s.log)
                 else StaysMatched(txtsLost, io, now, step.s)
  {
    LogGrows(s.log, RespSent(s.rx.req, s.rx.ts2));
    LogGrows(s.log, FollowUpSent(s.rx.req, s.tx.ts3));
    hide FollowUpsMatch, LatestResp;
  }

  lemma {:induction false} DispatchMatchIff(txtsLost: nat, env: Env, io: Io, now: U64, s: State)
    ensures FollowUpsMatch(Dispatch(txtsLost, env, io, now, s).0.log) <==> StaysMatched(txtsLost, io, now, s)
    decreases Rank(s)
  {
    var step := Iterate(txtsLost, env, io, now, s);
    PassMatchIff(txtsLost, env, io, now, s);
    PassLowersRank(txtsLost, env, io, now, s);
    if step.Go? && step.s.last != step.s.state {
      DispatchMatchIff(txtsLost, env, io, now, step.s);
    }
  }

  /** The call sends a Follow_Up, and its buffer is then not the request answered last. */
  predicate Mismatches(txtsLost: nat, s: State, i: Input) {
    var (s1, run) := Accept(s, i.event);
    run && FollowsUp(txtsLost, i.io, i.now, AllState(i.env, s1)) && LatestResp(s.log) != Some(s1.rx.req)
  }

  lemma AcceptKeepsHistory(s: State, event: Event)
    ensures var s1 := Accept(s, event).0;
            LatestResp(s1.log) == LatestResp(s.log) && (FollowUpsMatch(s1.log) <==> FollowUpsMatch(s.log))
  {
    if event.RecvReq? {
      LogGrows(s.log, Refused(event.req.id));
      LogGrows(s.log, Accepted(event.req.id));
    }
  }

  /** One call keeps the match if and only if it sends no Follow_Up, or sends it while the buffer
      holds the request answered last. */
  lemma HandleMatchIff(txtsLost: nat, s: State, i: Input)
    ensures FollowUpsMatch(Handle(txtsLost, s, i).0.log)
            <==> FollowUpsMatch(s.log) && !Mismatches(txtsLost, s, i)
  {
    hide Dispatch, LatestResp, FollowUpsMatch;
    AcceptKeepsHistory(s, i.event);
    var (s1, run) := Accept(s, i.event);
    if run {
      DispatchMatchIff(txtsLost, i.env, i.io, i.now, AllState(i.env, s1));
    }
  }

  function Run(txtsLost: nat, s: State, inputs: seq<Input>): State
    decreases |inputs|
  {
    if inputs == [] then s else Run(txtsLost, Handle(txtsLost, s, inputs[0]).0, inputs[1..])
  }

  predicate NeverMismatches(txtsLost: nat, s: State, inputs: seq<Input>)
    decreases |inputs|
  {
    inputs != [] ==>
      && !Mismatches(txtsLost, s, inputs[0])
      && NeverMismatches(txtsLost, Handle(txtsLost, s, inputs[0]).0, inputs[1..])
  }

  /** Over all runs, from any state: every Follow_Up answers the request its Pdelay_Resp answered
      if and only if no call met that condition. */
  lemma {:induction false} RunMatchesIff(txtsLost: nat, s: State, inputs: seq<Input>)
    ensures FollowUpsMatch(Run(txtsLost, s, inputs).log)
            <==> FollowUpsMatch(s.log) && NeverMismatches(txtsLost, s, inputs)
    decreases |inputs|
  {
    hide Handle, FollowUpsMatch, Mismatches;
    if inputs != [] {
      HandleMatchIff(txtsLost, s, inputs[0]);
      RunMatchesIff(txtsLost, Handle(txtsLost, s, inputs[0]).0, inputs[1..]);
    }
  }

  // ----- what the link has to do for that -----

  /** A Pdelay_Resp went out and its Follow_Up is still to come. */
  predicate Owing(s: State) {
    (s.state.SentResp? && s.last == SentResp) || (s.state.WaitReq? && s.last != WaitReq)
  }

  predicate Inv(s: State) {
    FollowUpsMatch(s.log) && (Owing(s) ==> BufferMatches(s))
  }

  lemma PassKeepsInv(txtsLost: nat, env: Env, io: Io, now: U64, s: State)
    requires Inv(s)
    ensures Inv(Iterate(txtsLost, env, io, now, s).s)
  {
    LogGrows(s.log, RespSent(s.rx.req, s.rx.ts2));
    LogGrows(s.log, FollowUpSent(s.rx.req, s.tx.ts3));
    hide FollowUpsMatch, LatestResp;
  }

  lemma DispatchKeepsInv(txtsLost: nat, env: Env, io: Io, now: U64, s: State)
    requires Inv(s)
    ensures Inv(Dispatch(txtsLost, env, io, now, s).0)
    decreases Rank(s)
  {
    var step := Iterate(txtsLost, env, io, now, s);
    PassKeepsInv(txtsLost, env, io, now, s);
    PassLowersRank(txtsLost, env, io, now, s);
    if step.Go? && step.s.last != step.s.state {
      DispatchKeepsInv(txtsLost, env, io, now, step.s);
    }
  }

  /** A different request does not arrive while a Follow_Up is owed. */
  predicate Polite(s: State, event: Event) {
    event.RecvReq? && Owing(s) ==> event.req == s.rx.req
  }

  lemma AcceptKeepsInv(s: State, event: Event)
    requires Inv(s)
    ensures Polite(s, event) ==> Inv(Accept(s, event).0)
    ensures !Polite(s, event) ==> !Inv(Accept(s, event).0)
  {
    AcceptKeepsHistory(s, event);
  }

  lemma HandleKeepsInv(txtsLost: nat, s: State, i: Input)
    requires Inv(s) && Polite(s, i.event)
    ensures Inv(Handle(txtsLost, s, i).0)
  {
    AcceptKeepsInv(s, i.event);
    var (s', run) := Accept(s, i.event);
    if run {
      DispatchKeepsInv(txtsLost, i.env, i.io, i.now, AllState(i.env, s'));
    }
  }

  predicate PoliteRun(txtsLost: nat, s: State, inputs: seq<Input>)
    decreases |inputs|
  {
    inputs != [] ==>
      Polite(s, inputs[0].event) && PoliteRun(txtsLost, Handle(txtsLost, s, inputs[0]).0, inputs[1..])
  }

  lemma {:induction false} RunKeepsInv(txtsLost: nat, s: State, inputs: seq<Input>)
    requires Inv(s) && PoliteRun(txtsLost, s, inputs)
    ensures Inv(Run(txtsLost, s, inputs))
    decreases |inputs|
  {
    if inputs != [] {
      HandleKeepsInv(txtsLost, s, inputs[0]);
      RunKeepsInv(txtsLost, Handle(txtsLost, s, inputs[0]).0, inputs[1..]);
    }
  }

  /** In every run in which no different request arrives while a Follow_Up is owed, each
      Follow_Up answers the request that its Pdelay_Resp answered. */
  lemma FollowUpAnswersItsResponse(txtsLost: nat, inputs: seq<Input>)
    requires PoliteRun(txtsLost, Boot(), inputs)
    ensures FollowUpsMatch(Run(txtsLost, Boot(), inputs).log)
  {
    RunKeepsInv(txtsLost, Boot(), inputs);
  }

  /** An input of the failing kind: from any state that owes a Follow_Up whose send has failed
      once, a request out of sequence, although refused, is what the repeated Follow_Up answers. */
  lemma RefusedRequestIsFollowedUp(txtsLost: nat, s: State, req: Request, env: Env, io: Io, now: U64)
    requires Inv(s) && s.state == WaitReq && s.last == Reaction
    requires req.majorSdo == 1 && req.id != s.rx.req.id && !InSequence(s.rx.lastId, req.id)
    requires env == Env(false, true, true) && io.sendResult != -1 && !s.rx.rcvdReq
    ensures var s1 := Handle(txtsLost, s, Input(RecvReq(req, 0), env, io, now)).0;
            var s2 := Handle(txtsLost, s1, Input(Tick, env, io, now)).0;
            s2.log == s.log + [Refused(req.id), FollowUpSent(req, s.tx.ts3)] && !FollowUpsMatch(s2.log)
  {
    var s1 := Handle(txtsLost, s, Input(RecvReq(req, 0), env, io, now)).0;
    assert s1.log == s.log + [Refused(req.id)] && s1.rx.req == req;
    LogGrows(s.log, Refused(req.id));
    LogGrows(s1.log, FollowUpSent(req, s.tx.ts3));
    var s2 := Handle(txtsLost, s1, Input(Tick, env, io, now)).0;
    assert s2.log == s1.log + [FollowUpSent(req, s.tx.ts3)];
    assert s2.log == s.log + [Refused(req.id), FollowUpSent(req, s.tx.ts3)];
  }

  // ----- the times the messages bear -----

  /** A listener beside the machine: when the latest accepted request arrived, the latest timestamp
      of the response that waits for one, and the device time taken with the latest send that no
      timestamp was announced for (0: none yet). */
  datatype Heard = Heard(ts2: nat, ts3: nat, mock: nat)

  function Hear(s: State, h: Heard, event: Event): Heard {
    match event
    case RecvReq(req, rxTime) =>
      if (req.majorSdo == 1 || req.majorSdo == 2) && InSequence(s.rx.lastId, req.id) then h.(ts2 := rxTime) else h
    case TxTimestamp(id, t) => if s.state == SentResp && id == s.rx.req.id then h.(ts3 := t) else h
    case Tick => h
  }

  /** A call that returns 1 sent a Pdelay_Resp. */
  function AfterSend(h: Heard, io: Io, result: int): Heard {
    if result == 1 && io.sendResult < 0 then h.(mock := io.deviceTime) else h
  }

  function AfterCall(txtsLost: nat, s: State, h: Heard, i: Input): Heard {
    AfterSend(Hear(s, h, i.event), i.io, Handle(txtsLost, s, i).1)
  }

  function Listen(txtsLost: nat, s: State, h: Heard, inputs: seq<Input>): Heard
    decreases |inputs|
  {
    if inputs == [] then h
    else Listen(txtsLost, Handle(txtsLost, s, inputs[0]).0, AfterCall(txtsLost, s, h, inputs[0]), inputs[1..])
  }

  predicate BearsHeard(h: Heard, act: Act) {
    && (act.RespSent? ==> act.ts2 == h.ts2)
    && (act.FollowUpSent? ==> act.ts3 == h.ts3 || (h.mock != 0 && act.ts3 == h.mock))
  }

  predicate AllBear(h: Heard, acts: seq<Act>) { forall act <- acts :: BearsHeard(h, act) }

  predicate Stored(h: Heard, s: State) {
    && s.rx.ts2 == h.ts2 && (s.tx.mockTs == 0 || s.tx.mockTs == h.mock)
    && (s.tx.rcvdTimestamp ==> s.tx.ts3 == h.ts3)
    && (s.state.WaitReq? ==> s.tx.ts3 == h.ts3 || (h.mock != 0 && s.tx.ts3 == h.mock))
  }

  predicate PassBears(io: Io, h: Heard, s: State, step: Step) {
    && Stored(if step.Done? then AfterSend(h, io, step.result) else h, step.s)
    && (step.s.log == s.log
        || (|step.s.log| == |s.log| + 1 && s.log <= step.s.log && BearsHeard(h, step.s.log[|s.log|])))
  }

  lemma PassBearsHeard(txtsLost: nat, env: Env, io: Io, now: U64, h: Heard, s: State)
    requires Stored(h, s)
    ensures PassBears(io, h, s, Iterate(txtsLost, env, io, now, s))
  {
  }

  predicate BearingSince(h: Heard, s0: State, s: State) {
    s0.log <= s.log && AllBear(h, s.log[|s0.log|..])
  }

  lemma PassAddsBearing(io: Io, h: Heard, s0: State, s: State, step: Step)
    requires BearingSince(h, s0, s) && PassBears(io, h, s, step)
    ensures BearingSince(h, s0, step.s)
  {
    hide Stored, BearsHeard;
    if step.s.log != s.log {
      assert step.s.log[|s0.log|..] == s.log[|s0.log|..] + [step.s.log[|s.log|]];
    }
  }

  lemma DispatchBearsHeard(txtsLost: nat, env: Env, io: Io, now: U64, h: Heard, s0: State, s: State)
    requires Stored(h, s) && BearingSince(h, s0, s)
    ensures var (s', result) := Dispatch(txtsLost, env, io, now, s);
            Stored(AfterSend(h, io, result), s') && BearingSince(h, s0, s')
    decreases Rank(s)
  {
    var step := Iterate(txtsLost, env, io, now, s);
    PassBearsHeard(txtsLost, env, io, now, h, s);
    PassAddsBearing(io, h, s0, s, step);
    PassLowersRank(txtsLost, env, io, now, s);
    hide Iterate, Stored, BearingSince;
    if step.Go? && step.s.last != step.s.state {
      DispatchBearsHeard(txtsLost, env, io, now, h, s0, step.s);
    }
  }

  lemma AcceptBearsHeard(h: Heard, s: State, event: Event)
    requires Stored(h, s)
    ensures var h', s' := Hear(s, h, event), Accept(s, event).0;
            && Stored(h', s') && BearingSince(h', s, s')
            && (!Accept(s, event).1 ==> h' == h)
  {
    var s' := Accept(s, event).0;
    assert s'.log[|s.log|..] == [] || |s'.log| == |s.log| + 1;
  }

  lemma HandleBearsHeard(txtsLost: nat, h: Heard, s: State, i: Input)
    requires Stored(h, s)
    ensures var s' := Handle(txtsLost, s, i).0;
            Stored(AfterCall(txtsLost, s, h, i), s') && BearingSince(Hear(s, h, i.event), s, s')
  {
    AcceptBearsHeard(h, s, i.event);
    var (s1, run) := Accept(s, i.event);
    var h' := Hear(s, h, i.event);
    if run {
      assert Stored(h', AllState(i.env, s1)) && BearingSince(h', s, AllState(i.env, s1));
      hide Dispatch, Stored, BearingSince, Hear, Accept, AllState;
      DispatchBearsHeard(txtsLost, i.env, i.io, i.now, h', s, AllState(i.env, s1));
    }
  }

  lemma {:induction false} RunBearsHeard(txtsLost: nat, h: Heard, s: State, inputs: seq<Input>)
    requires Stored(h, s)
    ensures Stored(Listen(txtsLost, s, h, inputs), Run(txtsLost, s, inputs))
    decreases |inputs|
  {
    hide Stored, Handle, AfterCall, Hear;
    if inputs != [] {
      HandleBearsHeard(txtsLost, h, s, inputs[0]);
      RunBearsHeard(txtsLost, AfterCall(txtsLost, s, h, inputs[0]), Handle(txtsLost, s, inputs[0]).0, inputs[1..]);
    }
  }

  /** In every run from power-up, each Pdelay_Resp bears the time at which the latest accepted
      request arrived, and each Follow_Up the latest timestamp taken of a Pdelay_Resp, or the device
      time that stood in for one. */
  lemma MessagesBearTheirTimes(txtsLost: nat, inputs: seq<Input>, i: Input)
    ensures var s := Run(txtsLost, Boot(), inputs);
            var h := Hear(s, Listen(txtsLost, Boot(), Heard(0, 0, 0), inputs), i.event);
            var s' := Handle(txtsLost, s, i).0;
            && s.log <= s'.log
            && forall act <- s'.log[|s.log|..] ::
                 && (act.RespSent? ==> act.ts2 == h.ts2)
                 && (act.FollowUpSent? ==> act.ts3 == h.ts3 || (h.mock != 0 && act.ts3 == h.mock))
  {
    RunBearsHeard(txtsLost, Heard(0, 0, 0), Boot(), inputs);
    var h, s := Listen(txtsLost, Boot(), Heard(0, 0, 0), inputs), Run(txtsLost, Boot(), inputs);
    hide Stored, Handle, Hear, Run, Listen;
    HandleBearsHeard(txtsLost, h, s, i);
  }

  // ----- a lost timestamp -----

  /** A Pdelay_Resp is out, the time for its timestamp is over, and no device time stands in. */
  predicate TimestampLost(txtsLost: nat, now: U64, s: State) {
    && s.state == SentResp && s.last == SentResp && !s.tx.rcvdTimestamp && s.tx.mockTs == 0
    && Sub64(now, s.tx.sentAt) >= txtsLost
  }

  /** The next call of an enabled responder then answers the request in the buffer once more. */
  lemma LostTimestampRepeatsResponse(txtsLost: nat, s: State, env: Env, io: Io, now: U64)
    requires TimestampLost(txtsLost, now, s) && !env.begin && env.portOper && env.portEnabled
    ensures var (s', result) := Handle(txtsLost, s, Input(Tick, env, io, now));
            if io.sendResult == -1 then result == 0 && s'.log == s.log
            else result == 1 && s'.log == s.log + [RespSent(s.rx.req, s.rx.ts2)]
                 && s'.state == SentResp && s'.last == SentResp && s'.tx.sentAt == now
  {
    var s1 := Iterate(txtsLost, env, io, now, s).s;
    assert s1 == s.(last := Reaction);
    assert Dispatch(txtsLost, env, io, now, s) == Dispatch(txtsLost, env, io, now, s1);
  }

  /** If a device time stands in, it is followed up once instead. */
  lemma DeviceTimeStandsIn(txtsLost: nat, s: State, env: Env, io: Io, now: U64)
    requires s.state == SentResp && s.last == SentResp && !s.tx.rcvdTimestamp && s.tx.mockTs != 0
    requires !s.rx.rcvdReq && !env.begin && env.portOper && env.portEnabled && io.sendResult != -1
    ensures var s' := Handle(txtsLost, s, Input(Tick, env, io, now)).0;
            if Sub64(now, s.tx.sentAt) < txtsLost then s' == s
            else s'.log == s.log + [FollowUpSent(s.rx.req, s.tx.mockTs)] && s'.tx.mockTs == 0
                 && s'.state == WaitReq && s'.last == WaitReq
  {
    var s1 := Iterate(txtsLost, env, io, now, s).s;
    if Sub64(now, s.tx.sentAt) >= txtsLost {
      assert Dispatch(txtsLost, env, io, now, s) == Dispatch(txtsLost, env, io, now, s1);
      assert Iterate(txtsLost, env, io, now, s1).s.last == WaitReq;
    }
  }
}
