/** What the passing of time and the state of the port lead to, one call of the requester at a time. */
module PdelayTiming {
  import opened Arith
  import opened PdelayReq

  predicate MeasuringPort(cfg: Config, env: Env) {
    cfg.network && !env.begin && env.portOper && env.portEnabled && !env.suspended
  }

  /** A request is out, the time for its timestamp is over, and no device time stands in. */
  predicate GaveUpTimestamp(cfg: Config, now: U64, s: State) {
    && (s.state == Send || s.state == InitialSend) && s.last == s.state
    && !s.tx.rcvdTimestamp && s.tx.mockTs == 0 && Sub64(now, s.tx.timer) >= cfg.txtsLost
  }

  /** The next call then sends it again: with the same id, or for an initial request a new one. */
  lemma LostTimestampRepeatsRequest(cfg: Config, s: State, env: Env, io: Io, now: U64)
    requires MeasuringPort(cfg, env) && GaveUpTimestamp(cfg, now, s) && io.sendResult != -1
    ensures var (s', result) := Handle(cfg, s, Input(Tick, env, io, now));
            && result == 1 && s'.tx.timer == now
            && s'.log == s.log + [TimestampLost,
                                  if s.state == Send then RequestSent(s.tx.seqId) else InitialSent(io.rand)]
  {
    var s1 := Iterate(cfg, env, io, now, s).s;
    assert Dispatch(cfg, env, io, now, s) == Dispatch(cfg, env, io, now, s1);
    assert s1.log == s.log + [TimestampLost];
    assert Iterate(cfg, env, io, now, s1).Done?;
  }

  /** After a completed exchange a call waits until the interval is over and then sends the next
      request. */
  lemma IntervalSendsNextRequest(cfg: Config, s: State, env: Env, io: Io, now: U64)
    requires MeasuringPort(cfg, env) && s.state == WaitInterval && s.last == WaitInterval && io.sendResult != -1
    ensures var (s', result) := Handle(cfg, s, Input(Tick, env, io, now));
            if Sub64(now, s.tx.timer) < env.interval then s' == s && result == 0
            else result == 1 && s'.log == s.log + [RequestSent(Succ16(s.tx.seqId))] && s'.state == Send
  {
    var s1 := Iterate(cfg, env, io, now, s).s;
    if Sub64(now, s.tx.timer) >= env.interval {
      assert s1 == s.(state := Send);
      assert Dispatch(cfg, env, io, now, s) == Dispatch(cfg, env, io, now, s1);
      assert Iterate(cfg, env, io, now, s1).Done?;
    }
  }

  /** An answer or a Follow_Up that does not come within the interval counts as a lost response, and
      the next request goes out, unless too many answers came twice. Once all allowed losses are used
      up the link is not measured any more, and is given up if it was capable. */
  lemma MissingResponseSendsNextRequest(cfg: Config, s: State, env: Env, io: Io, now: U64)
    requires MeasuringPort(cfg, env) && (s.state == WaitResp || s.state == WaitFollowUp) && s.last == s.state
    requires io.sendResult != -1
    requires Sub64(now, s.tx.timer) >= env.interval && (cfg.avnu ==> s.link.multi < cfg.allowedLost)
    ensures var (s', result) := Handle(cfg, s, Input(Tick, env, io, now));
            && result == 1 && s'.state == Send && |s'.log| == |s.log| + 2 && s.log <= s'.log
            && s'.log[|s.log|].ResetEntered? && s'.log[|s.log| + 1] == RequestSent(Succ16(s.tx.seqId))
            && (s.link.lost < cfg.allowedLost ==>
                  s'.link == s.link.(lost := s.link.lost + 1) && !s'.log[|s.log|].cleared)
            && (s.link.lost >= cfg.allowedLost ==>
                  !s'.link.measuring && !s'.link.asCapable && (s'.log[|s.log|].cleared <==> s.link.asCapable))
  {
    var s1 := Iterate(cfg, env, io, now, s).s;
    assert s1 == s.(state := Reset);
    var s2 := Iterate(cfg, env, io, now, s1).s;
    assert s2.state == Send && s2.log == s.log + [s2.log[|s.log|]];
    assert Dispatch(cfg, env, io, now, s) == Dispatch(cfg, env, io, now, s1) == Dispatch(cfg, env, io, now, s2);
    assert Iterate(cfg, env, io, now, s2).Done?;
  }

  /** The AVnu rule: after too many exchanges that were answered twice, no request goes out for five
      minutes; then the count starts over. */
  lemma AvnuCeasesForFiveMinutes(cfg: Config, s: State, env: Env, io: Io, now: U64)
    requires MeasuringPort(cfg, env) && s.state == Reset && s.last == Reset && io.sendResult != -1
    requires cfg.avnu && s.link.multi >= cfg.allowedLost
    ensures var (s', result) := Handle(cfg, s, Input(Tick, env, io, now));
            if Sub64(now, s.tx.timer) < 300_000_000_000 then s' == s && result == 0
            else s'.link.multi == 0
                 && (Sub64(now, s.tx.timer) >= env.interval ==>
                       result == 1 && s'.log == s.log + [RequestSent(Succ16(s.tx.seqId))])
  {
    var s1 := Iterate(cfg, env, io, now, s).s;
    if Sub64(now, s.tx.timer) >= 300_000_000_000 && s1.state == Send {
      assert Dispatch(cfg, env, io, now, s) == Dispatch(cfg, env, io, now, s1);
      assert Iterate(cfg, env, io, now, s1).Done?;
    }
  }

  /** A second answer to the request in flight breaks the exchange off and is counted; with the AVnu
      rule the link is given up once there have been as many as are allowed to be lost. */
  lemma SecondAnswerBreaksOff(cfg: Config, s: State, env: Env, io: Io, now: U64, resp: Resp, t4: nat)
    requires MeasuringPort(cfg, env) && s.state == WaitFollowUp && s.last == WaitFollowUp
    requires resp.id == s.tx.txSeq && Sub64(now, s.tx.timer) < env.interval && s.link.multi < 65535
    ensures var s' := Handle(cfg, s, Input(RecvResp(resp, t4), env, io, now)).0;
            && s'.state == Reset && s'.last == Reset
            && (Sub64(now, s.tx.timer) < 300_000_000_000 ==> s'.link.multi == s.link.multi + 1)
            && |s'.log| == |s.log| + 1 && s.log <= s'.log && s'.log[|s.log|].ResetEntered?
            && (s.link.lost < cfg.allowedLost ==>
                  && s'.link.lost == s.link.lost + 1
                  && (s'.link.asCapable <==>
                        s.link.asCapable && !(cfg.avnu && s.link.multi + 1 >= cfg.allowedLost)))
  {
    var s0 := Accept(s, RecvResp(resp, t4)).value;
    var s1 := Iterate(cfg, env, io, now, s0).s;
    assert s1 == s0.(state := Reset, link := s0.link.(multi := s.link.multi + 1));
    assert Dispatch(cfg, env, io, now, s0) == Dispatch(cfg, env, io, now, s1);
    var s2 := Iterate(cfg, env, io, now, s1).s;
    assert s2.state == Reset;
  }

  /** Without a timestamp the device time of the send stands in for it, once, as soon as the time for
      a timestamp is over, and not before. */
  lemma DeviceTimeStandsIn(cfg: Config, s: State, env: Env, io: Io, now: U64)
    requires MeasuringPort(cfg, env) && s.state == Send && s.last == Send && s.tx.mockTs != 0
    requires !s.tx.rcvdTimestamp && !s.rx.rcvdResp && !s.rx.rcvdFollowUp && Sub64(now, s.tx.timer) < env.interval
    ensures var s' := Handle(cfg, s, Input(Tick, env, io, now)).0;
            if Sub64(now, s.tx.timer) < cfg.txtsLost then s' == s
            else s'.state == WaitResp && s'.last == WaitResp && s'.log == s.log
                 && s'.ts == s.ts.(t1 := s.tx.mockTs) && s'.tx == s.tx.(mockTs := 0)
  {
    var s1 := Iterate(cfg, env, io, now, s).s;
    if Sub64(now, s.tx.timer) >= cfg.txtsLost {
      assert Dispatch(cfg, env, io, now, s) == Dispatch(cfg, env, io, now, s1);
      assert Iterate(cfg, env, io, now, s1).s.last == WaitResp;
    }
  }

  // ----- starting and stopping -----

  predicate StartedAfresh(s: State) {
    && s.ts.prevT1 == 0 && s.ts.prevT2 == 0 && s.link.ratio == 1.0
    && s.link.lost == 0 && s.link.faults == 0 && s.link.multi == 0
    && !s.link.measuring && !s.link.asCapable && !s.rx.rcvdResp && !s.rx.rcvdFollowUp && !s.tx.rcvdTimestamp
  }

  /** A port that comes up sends an initial request in the call that finds it up, with a random id,
      and forgets all it knew. So does, in every call, one that is up while BEGIN is set. */
  lemma PortComesUp(cfg: Config, s: State, env: Env, io: Io, now: U64)
    requires cfg.network && cfg.fixedDelay == 0 && env.portOper && env.portEnabled && io.sendResult != -1
    requires env.begin || (!env.suspended && s.state == NotEnabled)
    ensures var (s', result) := Handle(cfg, s, Input(Tick, env, io, now));
            result == 1 && s'.log == s.log + [InitialSent(io.rand)] && s'.state == InitialSend && StartedAfresh(s')
  {
    var s0 := s.(state := NotEnabled);
    var s1 := Iterate(cfg, env, io, now, s0).s;
    assert Dispatch(cfg, env, io, now, s0) == Dispatch(cfg, env, io, now, s1);
    assert Iterate(cfg, env, io, now, s1).Done?;
  }

  /** A port that is down sends nothing, and what is known of the link is kept. */
  lemma PortIsDown(cfg: Config, s: State, env: Env, io: Io, now: U64)
    requires cfg.network && cfg.fixedDelay == 0 && (!env.portOper || !env.portEnabled)
    ensures var (s', result) := Handle(cfg, s, Input(Tick, env, io, now));
            result == 0 && s' == s.(state := NotEnabled, last := NotEnabled)
  {
    var s0 := s.(state := NotEnabled);
    assert Iterate(cfg, env, io, now, s0).s.last == NotEnabled;
  }

  /** The interval value 127 is to stop the requests: the port sends one more initial request, and
      then nothing while the value lasts, whatever the clock says. */
  lemma SuspendedSendsOneMore(cfg: Config, s: State, env: Env, io: Io, now: U64)
    requires cfg.network && env.suspended && !env.begin && env.portOper && env.portEnabled && io.sendResult != -1
    ensures var (s', result) := Handle(cfg, s, Input(Tick, env, io, now));
            if s.last == InitialSend then s' == s.(state := InitialSend) && result == 0
            else result == 1 && s'.log == s.log + [InitialSent(io.rand)]
                 && s'.state == InitialSend && s'.last == InitialSend
  {
  }
}
