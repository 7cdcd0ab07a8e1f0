/** One exchange from end to end: a requester that has sent its Pdelay_Req, a responder that takes it,
    and what each makes of the other's messages. */
module PdelayExchange {
  import opened Arith
  import Req = PdelayReq
  import Resp = PdelayResp
  import opened PdelayTiming

  // ----- the messages -----

  /** A responder: its identity, and whether it is in CMLDS mode and so answers with the majorSdoId
      of the request. */
  datatype Peer = Peer(me: Req.PortIdentity, cmlds: bool)

  function SdoOf(peer: Peer, req: Resp.Request): nat { if peer.cmlds then req.majorSdo else 1 }

  /** The Pdelay_Resp and the Follow_Up that a responder sends for a request: its own identity, the
      requester's, and ts2 or ts3 in seconds and nanoseconds. */
  function ResponseTo(peer: Peer, req: Resp.Request, ts2: nat): Req.Resp {
    Req.Resp(req.id, peer.me, Req.PortIdentity(req.clock, req.port), SdoOf(peer, req),
             ts2 / SEC_NS % TWO32, ts2 % SEC_NS)
  }

  function FollowUpTo(peer: Peer, req: Resp.Request, ts3: nat): Req.FollowUp {
    Req.FollowUp(req.id, peer.me, SdoOf(peer, req), ts3 / SEC_NS % TWO32, ts3 % SEC_NS)
  }

  /** The request of this port with this id. */
  predicate RequestOf(cfg: Req.Config, id: U16, req: Resp.Request) {
    req.id == id && req.clock == cfg.thisClock && req.port == cfg.thisPort && (req.majorSdo == 1 || req.majorSdo == 2)
  }

  // ----- the responder -----

  predicate Listening(env: Resp.Env) { !env.begin && env.portOper && env.portEnabled }

  /** Waiting for a request, with none in hand. */
  predicate Idle(s: Resp.State) {
    (s.state == Resp.InitialWait || s.state == Resp.WaitReq) && s.last == s.state && !s.rx.rcvdReq
  }

  /** A request in sequence is answered in the same call, with the time it arrived. */
  lemma RequestIsAnswered(txtsLost: nat, s: Resp.State, i: Resp.Input)
    requires Idle(s) && Listening(i.env) && i.event.RecvReq? && i.io.sendResult >= 0
    requires (i.event.req.majorSdo == 1 || i.event.req.majorSdo == 2) && Resp.InSequence(s.rx.lastId, i.event.req.id)
    ensures var (s', result) := Resp.Handle(txtsLost, s, i);
            var req := i.event.req;
            && result == 1 && s'.log == s.log + [Resp.Accepted(req.id), Resp.RespSent(req, i.event.rxTime)]
            && s'.state == Resp.SentResp && s'.last == Resp.SentResp && !s'.tx.rcvdTimestamp
            && s'.rx.req == req && !s'.rx.rcvdReq && s'.rx.lastId == req.id
  {
    var s0 := Resp.Accept(s, i.event).0;
    var s1 := Resp.Iterate(txtsLost, i.env, i.io, i.now, s0).s;
    assert s1 == s0.(state := Resp.SentResp);
    assert Resp.Dispatch(txtsLost, i.env, i.io, i.now, s0) == Resp.Dispatch(txtsLost, i.env, i.io, i.now, s1);
    assert Resp.Iterate(txtsLost, i.env, i.io, i.now, s1).Done?;
  }

  /** And the timestamp of that answer is followed up in the same call. */
  lemma TimestampIsFollowedUp(txtsLost: nat, s: Resp.State, i: Resp.Input)
    requires s.state == Resp.SentResp && s.last == Resp.SentResp && !s.rx.rcvdReq
    requires Listening(i.env) && i.event.TxTimestamp? && i.event.id == s.rx.req.id && i.io.sendResult >= 0
    ensures var s' := Resp.Handle(txtsLost, s, i).0;
            s'.log == s.log + [Resp.FollowUpSent(s.rx.req, i.event.t)] && Idle(s')
  {
    var s0 := Resp.Accept(s, i.event).0;
    var s1 := Resp.Iterate(txtsLost, i.env, i.io, i.now, s0).s;
    assert s1 == s0.(state := Resp.WaitReq);
    assert Resp.Dispatch(txtsLost, i.env, i.io, i.now, s0) == Resp.Dispatch(txtsLost, i.env, i.io, i.now, s1);
    assert Resp.Iterate(txtsLost, i.env, i.io, i.now, s1).s.last == Resp.WaitReq;
  }

  // ----- the requester -----

  /** The request with this id is out, and nothing has come in for it. */
  predicate Waiting(s: Req.State, phase: Req.Phase) {
    && s.state == phase && s.last == phase && s.tx.txSeq == s.tx.seqId
    && !s.rx.rcvdResp && !s.rx.rcvdFollowUp
  }

  predicate OnTime(cfg: Req.Config, s: Req.State, i: Req.Input) {
    MeasuringPort(cfg, i.env) && Sub64(i.now, s.tx.timer) < i.env.interval
  }

  lemma TimestampOpensWait(cfg: Req.Config, s: Req.State, i: Req.Input)
    requires Waiting(s, Req.Send) && OnTime(cfg, s, i)
    requires i.event.TxTimestamp? && i.event.id == s.tx.seqId
    ensures var s' := Req.Handle(cfg, s, i).0;
            && Waiting(s', Req.WaitResp) && s'.log == s.log && s'.tx == s.tx.(rcvdTimestamp := false)
            && s'.ts == s.ts.(t1 := i.event.t1)
  {
    var s0 := Req.Accept(s, i.event).value;
    var s1 := Req.Iterate(cfg, i.env, i.io, i.now, s0).s;
    assert s1 == s0.(state := Req.WaitResp);
    assert Req.Dispatch(cfg, i.env, i.io, i.now, s0) == Req.Dispatch(cfg, i.env, i.io, i.now, s1);
    assert Req.Iterate(cfg, i.env, i.io, i.now, s1).s.last == Req.WaitResp;
  }

  lemma ResponseIsTaken(cfg: Req.Config, s: Req.State, i: Req.Input, peer: Peer, req: Resp.Request, ts2: nat)
    requires Waiting(s, Req.WaitResp) && OnTime(cfg, s, i) && RequestOf(cfg, s.tx.seqId, req)
    requires i.event.RecvResp? && i.event.resp == ResponseTo(peer, req, ts2)
    requires peer.me.clock != cfg.thisClock && ts2 < TWO32 * SEC_NS
    ensures var s' := Req.Handle(cfg, s, i).0;
            && Waiting(s', Req.WaitFollowUp) && s'.log == s.log && s'.tx == s.tx
            && s'.ts == s.ts.(t2 := ts2, t4 := i.event.t4) && s'.rx.resp == i.event.resp
  {
    var s0 := Req.Accept(s, i.event).value;
    assert s0.ts.t2 == ts2;
    var s1 := Req.Iterate(cfg, i.env, i.io, i.now, s0).s;
    assert s1 == s0.(state := Req.WaitFollowUp);
    assert Req.Dispatch(cfg, i.env, i.io, i.now, s0) == Req.Dispatch(cfg, i.env, i.io, i.now, s1);
    assert Req.Iterate(cfg, i.env, i.io, i.now, s1).s.last == Req.WaitFollowUp;
  }

  lemma FollowUpCompletes(cfg: Req.Config, s: Req.State, i: Req.Input, peer: Peer, req: Resp.Request, ts3: nat)
    requires Waiting(s, Req.WaitFollowUp) && OnTime(cfg, s, i) && RequestOf(cfg, s.tx.seqId, req)
    requires i.event.RecvFollowUp? && i.event.followUp == FollowUpTo(peer, req, ts3)
    requires peer.me.clock != cfg.thisClock && s.rx.resp.source == peer.me && ts3 < TWO32 * SEC_NS
    ensures var s' := Req.Handle(cfg, s, i).0;
            && |s'.log| == |s.log| + 1 && s.log <= s'.log && s'.log[|s.log|].Completed?
            && s'.log[|s.log|].round.ts == s.ts.(t3 := ts3)
            && s'.state == Req.WaitInterval && s'.last == Req.WaitInterval && !s'.rx.rcvdFollowUp
  {
    hide Req.Measured, Req.Judge, Req.Classify;
    var s0 := Req.Accept(s, i.event).value;
    assert s0.ts.t3 == ts3;
    var s1 := Req.Iterate(cfg, i.env, i.io, i.now, s0).s;
    assert s1 == s0.(state := Req.WaitInterval);
    assert Req.Dispatch(cfg, i.env, i.io, i.now, s0) == Req.Dispatch(cfg, i.env, i.io, i.now, s1);
    assert Req.Iterate(cfg, i.env, i.io, i.now, s1).s.last == Req.WaitInterval;
  }

  // ----- both ends -----

  /** The four events at the two ends that make up an exchange: the request arrives, its answer has
      left, and at the requester the timestamp, the answer and its Follow_Up come in. */
  datatype Exchange = Exchange(
    arrives: Resp.Input, left: Resp.Input, stamped: Req.Input, answered: Req.Input, followed: Req.Input)

  /** The link is sound: the messages that come in at the requester are those that the responder
      sent, and everything is in time. */
  predicate Sound(cfg: Req.Config, peer: Peer, s: Req.State, x: Exchange) {
    && OnTime(cfg, s, x.stamped) && OnTime(cfg, s, x.answered) && OnTime(cfg, s, x.followed)
    && Listening(x.arrives.env) && Listening(x.left.env) && x.arrives.io.sendResult >= 0 && x.left.io.sendResult >= 0
    && x.arrives.event.RecvReq? && RequestOf(cfg, s.tx.seqId, x.arrives.event.req)
    && x.left.event.TxTimestamp? && x.left.event.id == s.tx.seqId
    && x.stamped.event.TxTimestamp? && x.stamped.event.id == s.tx.seqId
    && x.answered.event.RecvResp?
    && x.answered.event.resp == ResponseTo(peer, x.arrives.event.req, x.arrives.event.rxTime)
    && x.followed.event.RecvFollowUp?
    && x.followed.event.followUp == FollowUpTo(peer, x.arrives.event.req, x.left.event.t)
    && x.arrives.event.rxTime < TWO32 * SEC_NS && x.left.event.t < TWO32 * SEC_NS
  }

  /** An exchange over a sound link completes: the responder answers and follows up, and the requester
      judges it on the time its request left, the times at which the responder took it and answered
      it, and the time at which the answer came back. */
  lemma ExchangeCompletes(cfg: Req.Config, peer: Peer, txtsLost: nat, s: Req.State, r: Resp.State, x: Exchange)
    requires Waiting(s, Req.Send) && Idle(r) && Sound(cfg, peer, s, x) && peer.me.clock != cfg.thisClock
    requires Resp.InSequence(r.rx.lastId, s.tx.seqId)
    ensures var r1 := Resp.Handle(txtsLost, r, x.arrives).0;
            var r2 := Resp.Handle(txtsLost, r1, x.left).0;
            var req := x.arrives.event.req;
            && r2.log == r.log + [Resp.Accepted(req.id), Resp.RespSent(req, x.arrives.event.rxTime),
                                  Resp.FollowUpSent(req, x.left.event.t)]
            && Idle(r2)
    ensures var s1 := Req.Handle(cfg, s, x.stamped).0;
            var s2 := Req.Handle(cfg, s1, x.answered).0;
            var s3 := Req.Handle(cfg, s2, x.followed).0;
            && |s3.log| == |s.log| + 1 && s.log <= s3.log && s3.log[|s.log|].Completed?
            && var ts := s3.log[|s.log|].round.ts;
               && ts.t1 == x.stamped.event.t1 && ts.t2 == x.arrives.event.rxTime
               && ts.t3 == x.left.event.t && ts.t4 == x.answered.event.t4
  {
    hide Req.Handle, Resp.Handle;
    RequestIsAnswered(txtsLost, r, x.arrives);
    TimestampIsFollowedUp(txtsLost, Resp.Handle(txtsLost, r, x.arrives).0, x.left);
    TimestampOpensWait(cfg, s, x.stamped);
    var s1 := Req.Handle(cfg, s, x.stamped).0;
    ResponseIsTaken(cfg, s1, x.answered, peer, x.arrives.event.req, x.arrives.event.rxTime);
    var s2 := Req.Handle(cfg, s1, x.answered).0;
    assert s2.rx.resp.source == peer.me;
    FollowUpCompletes(cfg, s2, x.followed, peer, x.arrives.event.req, x.left.event.t);
  }

  // ----- a Follow_Up that comes first -----

  /** While the requester waits for a response it keeps a Follow_Up that answers its request and drops
      any other. */
  lemma EarlyFollowUpIsKept(cfg: Req.Config, s: Req.State, i: Req.Input)
    requires Waiting(s, Req.WaitResp) && OnTime(cfg, s, i) && i.event.RecvFollowUp?
    ensures var s', fup := Req.Handle(cfg, s, i).0, i.event.followUp;
            s' == s.(rx := s.rx.(rcvdFollowUp := fup.id == s.tx.txSeq, followUp := fup),
                     ts := s.ts.(t3 := fup.originSec * SEC_NS + fup.originNs))
  {
    var s0 := Req.Accept(s, i.event).value;
    assert Req.Iterate(cfg, i.env, i.io, i.now, s0).s.last == Req.WaitResp;
  }

  /** Then the response completes the exchange by itself, on the same four times. */
  lemma ResponseCompletes(cfg: Req.Config, s: Req.State, i: Req.Input, peer: Peer, req: Resp.Request, ts2: nat, ts3: nat)
    requires Waiting(s.(rx := s.rx.(rcvdFollowUp := false)), Req.WaitResp) && OnTime(cfg, s, i)
    requires RequestOf(cfg, s.tx.seqId, req) && peer.me.clock != cfg.thisClock
    requires s.rx.rcvdFollowUp && s.rx.followUp == FollowUpTo(peer, req, ts3)
    requires i.event.RecvResp? && i.event.resp == ResponseTo(peer, req, ts2) && ts2 < TWO32 * SEC_NS
    ensures var s' := Req.Handle(cfg, s, i).0;
            && |s'.log| == |s.log| + 1 && s.log <= s'.log && s'.log[|s.log|].Completed?
            && s'.log[|s.log|].round.ts == s.ts.(t2 := ts2, t4 := i.event.t4)
  {
    hide Req.Measured, Req.Judge, Req.Classify;
    var s0 := Req.Accept(s, i.event).value;
    assert s0.ts.t2 == ts2;
    var s1 := Req.Iterate(cfg, i.env, i.io, i.now, s0).s;
    assert s1 == s0.(state := Req.WaitFollowUp);
    var s2 := Req.Iterate(cfg, i.env, i.io, i.now, s1).s;
    assert s2.state == Req.WaitInterval && s2.last == Req.WaitFollowUp;
    var s3 := Req.Iterate(cfg, i.env, i.io, i.now, s2).s;
    assert s3.last == s3.state;
    assert Req.Dispatch(cfg, i.env, i.io, i.now, s0) == Req.Dispatch(cfg, i.env, i.io, i.now, s1);
    assert Req.Dispatch(cfg, i.env, i.io, i.now, s1) == Req.Dispatch(cfg, i.env, i.io, i.now, s2);
  }
}
