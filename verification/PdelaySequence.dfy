/** Sequence ids of transmitted Pdelay_Req messages, how many one call transmits, and the
    termination of the requester's dispatch loop. */
module PdelaySequence {
  import opened Arith
  import opened PdelayReq

  datatype Sent = Sent(id: U16, initial: bool)

  function SentBy(act: Act): seq<Sent> {
    match act
    case InitialSent(id) => [Sent(id, true)]
    case RequestSent(id) => [Sent(id, false)]
    case _ => []
  }

  /** The requests that went out, oldest first. */
  function SentList(log: seq<Act>): seq<Sent> {
    if log == [] then [] else SentList(log[..|log| - 1]) + SentBy(log[|log| - 1])
  }

  /** The id of the latest request that went out. */
  function Latest(log: seq<Act>): Option<U16> {
    if log == [] then None
    else
      match log[|log| - 1]
      case InitialSent(id) => Some(id)
      case RequestSent(id) => Some(id)
      case _ => Latest(log[..|log| - 1])
  }

  /** The timestamp of the latest request was given up as lost. */
  predicate LostSince(log: seq<Act>) {
    if log == [] then false
    else
      match log[|log| - 1]
      case TimestampLost => true
      case InitialSent(_) => false
      case RequestSent(_) => false
      case _ => LostSince(log[..|log| - 1])
  }

  /** `id` may go out next: the successor of the latest id, or that id again after its
      timestamp was lost. Nothing may go out before the first initial send. */
  predicate MayFollow(log: seq<Act>, id: U16) {
    match Latest(log)
    case None => false
    case Some(latest) => id == Succ16(latest) || (id == latest && LostSince(log))
  }

  /** Every request that is not an initial send carries an id that may follow. */
  predicate IdsFollow(log: seq<Act>) {
    forall i | 0 <= i < |log| && log[i].RequestSent? :: MayFollow(log[..i], log[i].id)
  }

  lemma LogGrows(log: seq<Act>, act: Act)
    ensures SentList(log + [act]) == SentList(log) + SentBy(act)
    ensures Latest(log + [act]) == if SentBy(act) == [] then Latest(log) else Some(SentBy(act)[0].id)
    ensures LostSince(log + [act]) == (act.TimestampLost? || (SentBy(act) == [] && LostSince(log)))
    ensures IdsFollow(log + [act]) <== IdsFollow(log) && (act.RequestSent? ==> MayFollow(log, act.id))
  {
    var log' := log + [act];
    assert log'[..|log|] == log;
    if IdsFollow(log) && (act.RequestSent? ==> MayFollow(log, act.id)) {
      forall i | 0 <= i < |log'| && log'[i].RequestSent? ensures MayFollow(log'[..i], log'[i].id) {
        if i < |log| {
          assert log'[..i] == log[..i];
        }
      }
    }
  }

  predicate LatestIs(log: seq<Act>, id: U16) { Latest(log) == Some(id) }

  /** How the id counter relates to the latest transmitted id in each state. */
  predicate Tracked(s: State) {
    && IdsFollow(s.log)
    && (s.state.Reset? || s.state.WaitResp? || s.state.WaitFollowUp? || s.state.WaitInterval? ==>
          LatestIs(s.log, s.tx.seqId))
    && ((s.state.InitialSend? || s.state.Send?) && s.last == s.state ==> LatestIs(s.log, s.tx.seqId))
    && (s.state.Send? && s.last != Send ==>
          LatestIs(s.log, s.tx.seqId) || (LatestIs(s.log, Succ16(s.tx.seqId)) && LostSince(s.log)))
  }

  /** Between two calls the machine has settled, or waits to repeat a send that failed. */
  predicate Settled(s: State) {
    s.last == s.state || (s.last == Reaction && (s.state.Send? || s.state.InitialSend?))
  }

  /** An act that transmits nothing leaves the ids as they were. */
  lemma SilentAct(log: seq<Act>, act: Act)
    requires SentBy(act) == []
    ensures Latest(log + [act]) == Latest(log)
    ensures IdsFollow(log) ==> IdsFollow(log + [act])
    ensures LostSince(log + [act]) == (act.TimestampLost? || LostSince(log))
  {
    LogGrows(log, act);
  }

  lemma StepAndBack(x: U16)
    ensures Succ16(Pred16(x)) == x && Pred16(Succ16(x)) == x
  {
  }

  lemma SendProcTracked(cfg: Config, io: Io, now: U64, s: State)
    requires cfg.network && IdsFollow(s.log) && s.state.Send? && s.last == Send
    requires LatestIs(s.log, s.tx.seqId) || (LatestIs(s.log, Succ16(s.tx.seqId)) && LostSince(s.log))
    ensures Tracked(SendProc(cfg, io, now, s).s)
  {
    var id := Succ16(s.tx.seqId);
    assert MayFollow(s.log, id);
    if io.sendResult == -1 {
      SilentAct(s.log, RequestFailed);
      StepAndBack(s.tx.seqId);
    } else {
      LogGrows(s.log, RequestSent(id));
    }
  }

  lemma SendConditionTracked(cfg: Config, now: U64, s: State)
    requires Tracked(s) && s.state.Send? && s.last == Send
    ensures Tracked(SendCondition(cfg, now, s))
  {
    SilentAct(s.log, TimestampLost);
    StepAndBack(s.tx.seqId);
  }

  lemma SendPassTracked(cfg: Config, env: Env, io: Io, now: U64, s: State)
    requires cfg.network && Tracked(s) && s.state.Send?
    ensures Tracked(Iterate(cfg, env, io, now, s).s)
  {
    if s.last == Send {
      SendConditionTracked(cfg, now, s);
    } else {
      SendProcTracked(cfg, io, now, s.(last := Send));
    }
  }

  lemma InitialPassTracked(cfg: Config, env: Env, io: Io, now: U64, s: State)
    requires cfg.network && Tracked(s) && s.state.InitialSend?
    ensures Tracked(Iterate(cfg, env, io, now, s).s)
  {
    if s.last == InitialSend {
      SilentAct(s.log, TimestampLost);
    } else if io.sendResult == -1 {
      SilentAct(s.log, InitialFailed);
    } else {
      LogGrows(s.log, InitialSent(io.rand));
    }
  }

  lemma ResetPassTracked(cfg: Config, env: Env, io: Io, now: U64, s: State)
    requires cfg.network && Tracked(s) && s.state.Reset?
    ensures Tracked(Iterate(cfg, env, io, now, s).s)
  {
    SilentAct(s.log, ResetEntered(GivesUp(cfg, s.link) || AvnuCeases(cfg, s.link)));
  }

  lemma CompletePassTracked(cfg: Config, env: Env, io: Io, now: U64, s: State)
    requires cfg.network && Tracked(s) && s.state.WaitInterval?
    ensures Tracked(Iterate(cfg, env, io, now, s).s)
  {
    SilentAct(s.log, CompletionAct(cfg, env, s.(last := s.state)));
  }

  lemma PassTracked(cfg: Config, env: Env, io: Io, now: U64, s: State)
    requires cfg.network && Tracked(s)
    ensures Tracked(Iterate(cfg, env, io, now, s).s)
  {
    match s.state
    case Send => SendPassTracked(cfg, env, io, now, s);
    case InitialSend => InitialPassTracked(cfg, env, io, now, s);
    case Reset => ResetPassTracked(cfg, env, io, now, s);
    case WaitInterval => CompletePassTracked(cfg, env, io, now, s);
    case _ =>
  }

  lemma PassSettles(cfg: Config, env: Env, io: Io, now: U64, s: State)
    requires cfg.network
    ensures var step := Iterate(cfg, env, io, now, s);
            (step.Done? || step.s.last == step.s.state ==> Settled(step.s))
  {
  }

  lemma PassGrows(cfg: Config, env: Env, io: Io, now: U64, s: State)
    ensures s.log <= Iterate(cfg, env, io, now, s).s.log
  {
  }

  lemma DispatchTracked(cfg: Config, env: Env, io: Io, now: U64, s: State)
    requires cfg.network && Tracked(s)
    ensures var s' := Dispatch(cfg, env, io, now, s).0;
            Tracked(s') && Settled(s') && s.log <= s'.log
    decreases Rank(s)
  {
    var step := Iterate(cfg, env, io, now, s);
    PassTracked(cfg, env, io, now, s);
    PassSettles(cfg, env, io, now, s);
    PassGrows(cfg, env, io, now, s);
    PassLowersRank(cfg, env, io, now, s);
    if step.Go? && step.s.last != step.s.state {
      DispatchTracked(cfg, env, io, now, step.s);
    }
  }

  lemma AcceptTracked(env: Env, s: State, event: Event)
    requires Tracked(s) && Settled(s) && Accept(s, event).Some?
    ensures var s' := Accept(s, event).value;
            s'.log == s.log && Tracked(s'.(state := AllStateCondition(env, s')))
  {
    var s' := Accept(s, event).value;
    assert s'.state == s.state && s'.last == s.last && s'.log == s.log && s'.tx.seqId == s.tx.seqId;
  }

  lemma HandleTracked(cfg: Config, s: State, i: Input)
    requires cfg.network && Tracked(s) && Settled(s)
    ensures var s' := Handle(cfg, s, i).0;
            Tracked(s') && Settled(s') && s.log <= s'.log
  {
    match Accept(s, i.event)
    case Some(s') =>
      AcceptTracked(i.env, s, i.event);
      DispatchTracked(cfg, i.env, i.io, i.now, s'.(state := AllStateCondition(i.env, s')));
    case None =>
      SilentAct(s.log, CapableCleared);
  }

  lemma {:induction false} RunTracked(cfg: Config, s: State, inputs: seq<Input>)
    requires cfg.network && Tracked(s) && Settled(s)
    ensures Tracked(Run(cfg, s, inputs)) && Settled(Run(cfg, s, inputs))
    decreases |inputs|
  {
    if inputs != [] {
      HandleTracked(cfg, s, inputs[0]);
      RunTracked(cfg, Handle(cfg, s, inputs[0]).0, inputs[1..]);
    }
  }

  /** In every run the transmitted ids follow one another, whatever is lost or fails. */
  lemma TransmittedIdsFollow(cfg: Config, inputs: seq<Input>)
    requires cfg.network
    ensures IdsFollow(Run(cfg, Boot(), inputs).log)
  {
    RunTracked(cfg, Boot(), inputs);
  }

  /** `b` may directly come after `a` on the wire. */
  predicate Linked(a: Sent, b: Sent) { b.initial || b.id == a.id || b.id == Succ16(a.id) }

  predicate Chained(sent: seq<Sent>) {
    forall i | 0 < i < |sent| :: Linked(sent[i - 1], sent[i])
  }

  lemma {:induction false} LatestIsLast(log: seq<Act>)
    ensures Latest(log).None? <==> SentList(log) == []
    ensures Latest(log).Some? ==> SentList(log)[|SentList(log)| - 1].id == Latest(log).value
  {
    if log != [] {
      LatestIsLast(log[..|log| - 1]);
    }
  }

  lemma {:induction false} FollowingIdsChain(log: seq<Act>)
    requires IdsFollow(log)
    ensures Chained(SentList(log))
  {
    if log != [] {
      var before, act := log[..|log| - 1], log[|log| - 1];
      assert forall i | 0 <= i < |before| :: before[..i] == log[..i];
      FollowingIdsChain(before);
      LatestIsLast(before);
    }
  }

  lemma {:induction false} SentListGrows(log: seq<Act>, log': seq<Act>)
    requires log <= log'
    ensures SentList(log) <= SentList(log')
  {
    if log != log' {
      assert log <= log'[..|log'| - 1];
      SentListGrows(log, log'[..|log'| - 1]);
    }
  }

  // ----- one request per call -----

  predicate IsAttempt(act: Act) {
    act.InitialSent? || act.InitialFailed? || act.RequestSent? || act.RequestFailed?
  }

  function Attempts(log: seq<Act>): nat {
    if log == [] then 0
    else Attempts(log[..|log| - 1]) + if IsAttempt(log[|log| - 1]) then 1 else 0
  }

  lemma AttemptsGrow(log: seq<Act>, act: Act)
    ensures Attempts(log + [act]) == Attempts(log) + if IsAttempt(act) then 1 else 0
  {
    assert (log + [act])[..|log|] == log;
  }

  predicate AttemptCounted(s: State, step: Step) {
    if step.Done? then step.result == 1 && Attempts(step.s.log) == Attempts(s.log) + 1
    else Attempts(step.s.log) == Attempts(s.log)
  }

  lemma InitialPassAttempts(cfg: Config, env: Env, io: Io, now: U64, s: State)
    requires cfg.network && s.state.InitialSend?
    ensures AttemptCounted(s, Iterate(cfg, env, io, now, s))
  {
    if s.last == InitialSend {
      AttemptsGrow(s.log, TimestampLost);
    } else {
      AttemptsGrow(s.log, if io.sendResult == -1 then InitialFailed else InitialSent(io.rand));
    }
  }

  lemma SendPassAttempts(cfg: Config, env: Env, io: Io, now: U64, s: State)
    requires cfg.network && s.state.Send?
    ensures AttemptCounted(s, Iterate(cfg, env, io, now, s))
  {
    if s.last == Send {
      AttemptsGrow(s.log, TimestampLost);
    } else {
      AttemptsGrow(s.log, if io.sendResult == -1 then RequestFailed else RequestSent(Succ16(s.tx.seqId)));
    }
  }

  lemma ResetPassAttempts(cfg: Config, env: Env, io: Io, now: U64, s: State)
    requires s.state.Reset?
    ensures AttemptCounted(s, Iterate(cfg, env, io, now, s))
  {
    AttemptsGrow(s.log, ResetEntered(GivesUp(cfg, s.link) || AvnuCeases(cfg, s.link)));
  }

  lemma CompletePassAttempts(cfg: Config, env: Env, io: Io, now: U64, s: State)
    requires s.state.WaitInterval?
    ensures AttemptCounted(s, Iterate(cfg, env, io, now, s))
  {
    AttemptsGrow(s.log, CompletionAct(cfg, env, s.(last := s.state)));
  }

  lemma QuietPassAttempts(cfg: Config, env: Env, io: Io, now: U64, s: State)
    requires !s.state.InitialSend? && !s.state.Send? && !s.state.Reset? && !s.state.WaitInterval?
    ensures Iterate(cfg, env, io, now, s).Go? && Iterate(cfg, env, io, now, s).s.log == s.log
  {
  }

  lemma PassAttempts(cfg: Config, env: Env, io: Io, now: U64, s: State)
    requires cfg.network
    ensures AttemptCounted(s, Iterate(cfg, env, io, now, s))
  {
    match s.state
    case InitialSend => InitialPassAttempts(cfg, env, io, now, s);
    case Send => SendPassAttempts(cfg, env, io, now, s);
    case Reset => ResetPassAttempts(cfg, env, io, now, s);
    case WaitInterval => CompletePassAttempts(cfg, env, io, now, s);
    case _ => QuietPassAttempts(cfg, env, io, now, s);
  }

  /** One call attempts at most one transmission, and returns 1 exactly when it attempted one:
      a send that failed is reported the same way as one that went out. */
  lemma {:induction false} OneRequestPerCall(cfg: Config, env: Env, io: Io, now: U64, s: State)
    requires cfg.network
    ensures var (s', result) := Dispatch(cfg, env, io, now, s);
            && (result == 0 || result == 1)
            && Attempts(s'.log) == Attempts(s.log) + result
    decreases Rank(s)
  {
    var step := Iterate(cfg, env, io, now, s);
    PassAttempts(cfg, env, io, now, s);
    PassLowersRank(cfg, env, io, now, s);
    if step.Go? && step.s.last != step.s.state {
      OneRequestPerCall(cfg, env, io, now, step.s);
    }
  }

  /** What one pass puts on the wire: nothing unless it ends the call, and then nothing exactly
      if the send failed. */
  predicate SendCounted(io: Io, s: State, step: Step) {
    if step.Done? then step.result == 1 && (SentList(step.s.log) == SentList(s.log) <==> io.sendResult == -1)
    else SentList(step.s.log) == SentList(s.log)
  }

  lemma InitialPassSends(cfg: Config, env: Env, io: Io, now: U64, s: State)
    requires cfg.network && s.state.InitialSend?
    ensures SendCounted(io, s, Iterate(cfg, env, io, now, s))
  {
    LogGrows(s.log, TimestampLost);
    LogGrows(s.log, InitialFailed);
    LogGrows(s.log, InitialSent(io.rand));
    hide SentList;
  }

  lemma SendPassSends(cfg: Config, env: Env, io: Io, now: U64, s: State)
    requires cfg.network && s.state.Send?
    ensures SendCounted(io, s, Iterate(cfg, env, io, now, s))
  {
    LogGrows(s.log, TimestampLost);
    LogGrows(s.log, RequestFailed);
    LogGrows(s.log, RequestSent(Succ16(s.tx.seqId)));
    hide SentList;
  }

  lemma ResetPassSends(cfg: Config, env: Env, io: Io, now: U64, s: State)
    requires s.state.Reset?
    ensures SendCounted(io, s, Iterate(cfg, env, io, now, s))
  {
    LogGrows(s.log, ResetEntered(GivesUp(cfg, s.link) || AvnuCeases(cfg, s.link)));
    hide SentList;
  }

  lemma CompletePassSends(cfg: Config, env: Env, io: Io, now: U64, s: State)
    requires s.state.WaitInterval?
    ensures SendCounted(io, s, Iterate(cfg, env, io, now, s))
  {
    LogGrows(s.log, CompletionAct(cfg, env, s.(last := s.state)));
    hide SentList;
  }

  lemma PassSends(cfg: Config, env: Env, io: Io, now: U64, s: State)
    requires cfg.network
    ensures SendCounted(io, s, Iterate(cfg, env, io, now, s))
  {
    match s.state
    case InitialSend => InitialPassSends(cfg, env, io, now, s);
    case Send => SendPassSends(cfg, env, io, now, s);
    case Reset => ResetPassSends(cfg, env, io, now, s);
    case WaitInterval => CompletePassSends(cfg, env, io, now, s);
    case _ => QuietPassAttempts(cfg, env, io, now, s);
  }

  /** A call that returns 1 has put nothing on the wire if and only if its send failed. */
  lemma {:induction false} FailedSendReturnsOne(cfg: Config, env: Env, io: Io, now: U64, s: State)
    requires cfg.network
    ensures var (s', result) := Dispatch(cfg, env, io, now, s);
            && (result == 0 ==> SentList(s'.log) == SentList(s.log))
            && (result == 1 ==> (SentList(s'.log) == SentList(s.log) <==> io.sendResult == -1))
    decreases Rank(s)
  {
    var step := Iterate(cfg, env, io, now, s);
    PassSends(cfg, env, io, now, s);
    PassLowersRank(cfg, env, io, now, s);
    if step.Go? && step.s.last != step.s.state {
      FailedSendReturnsOne(cfg, env, io, now, step.s);
    }
  }

  // ----- without a network handle -----

  /** n passes of the loop, or None once it has ended. */
  function Passes(cfg: Config, env: Env, io: Io, now: U64, s: State, n: nat): Option<State> {
    if n == 0 then Some(s)
    else
      match Passes(cfg, env, io, now, s, n - 1)
      case None => None
      case Some(s1) =>
        match Iterate(cfg, env, io, now, s1)
        case Done(_, _) => None
        case Go(s2) => if s2.last == s2.state then None else Some(s2)
  }

  /** With a null gpnetd an enabled requester never leaves its loop: no message can be
      composed, so NOT_ENABLED and INITIAL_SEND_PDELAY_REQ alternate for ever. */
  lemma {:induction false} NullNetworkSpins(cfg: Config, env: Env, io: Io, now: U64, s: State, n: nat)
    requires !cfg.network && cfg.fixedDelay == 0 && env.portOper && env.portEnabled
    requires s.state == NotEnabled
    ensures var end := Passes(cfg, env, io, now, s, n);
            end.Some?
            && (end.value.state == NotEnabled || (end.value.state == InitialSend && end.value.last == NotEnabled))
  {
    if n > 0 {
      NullNetworkSpins(cfg, env, io, now, s, n - 1);
    }
  }

  /** Whether the loop ever ends. */
  ghost predicate Ends(cfg: Config, env: Env, io: Io, now: U64, s: State) {
    exists n: nat :: Passes(cfg, env, io, now, s, n).None?
  }

  /** Passes counted from the second one. */
  lemma {:induction false} PassesAfterFirst(cfg: Config, env: Env, io: Io, now: U64, s: State, n: nat)
    requires Passes(cfg, env, io, now, s, 1).Some?
    ensures Passes(cfg, env, io, now, s, n + 1)
            == Passes(cfg, env, io, now, Passes(cfg, env, io, now, s, 1).value, n)
  {
    if n > 0 {
      PassesAfterFirst(cfg, env, io, now, s, n - 1);
    }
  }

  lemma EndsAfterFirst(cfg: Config, env: Env, io: Io, now: U64, s: State)
    requires Passes(cfg, env, io, now, s, 1).Some?
    ensures Ends(cfg, env, io, now, s) <==> Ends(cfg, env, io, now, Passes(cfg, env, io, now, s, 1).value)
  {
    var s1 := Passes(cfg, env, io, now, s, 1).value;
    if n: nat :| Passes(cfg, env, io, now, s, n).None? {
      assert n > 0;
      PassesAfterFirst(cfg, env, io, now, s, n - 1);
    }
    if n: nat :| Passes(cfg, env, io, now, s1, n).None? {
      PassesAfterFirst(cfg, env, io, now, s, n);
    }
  }

  lemma NotEnabledEndsIff(cfg: Config, env: Env, io: Io, now: U64, s: State)
    requires !cfg.network && s.state == NotEnabled
    ensures Ends(cfg, env, io, now, s) <==> cfg.fixedDelay != 0 || !env.portOper || !env.portEnabled
  {
    if cfg.fixedDelay == 0 && env.portOper && env.portEnabled {
      forall n: nat ensures Passes(cfg, env, io, now, s, n).Some? {
        NullNetworkSpins(cfg, env, io, now, s, n);
      }
    } else {
      assert Passes(cfg, env, io, now, s, 1).None? || Passes(cfg, env, io, now, s, 2).None?;
    }
  }

  /** Without a network handle the loop ends, from power-up and from every state that such a
      requester can be in, if and only if a fixed delay is configured or the port is down. */
  lemma NullNetworkEndsIff(cfg: Config, env: Env, io: Io, now: U64, s: State)
    requires !cfg.network
    requires || s.state == NotEnabled || s.state == Init || (s.state == InitialSend && s.last != InitialSend)
             || (s.state == Reaction && cfg.fixedDelay != 0)
    ensures Ends(cfg, env, io, now, s) <==> cfg.fixedDelay != 0 || !env.portOper || !env.portEnabled
  {
    if s.state == Reaction {
      assert Passes(cfg, env, io, now, s, 1).None?;
    } else if s.state == NotEnabled {
      NotEnabledEndsIff(cfg, env, io, now, s);
    } else {
      var s1 := Iterate(cfg, env, io, now, s).s;
      assert s1.state == NotEnabled;
      if s1.last != s1.state {
        assert Passes(cfg, env, io, now, s, 0) == Some(s);
        assert Passes(cfg, env, io, now, s, 1) == Some(s1);
        EndsAfterFirst(cfg, env, io, now, s);
        NotEnabledEndsIff(cfg, env, io, now, s1);
      }
    }
  }
}
