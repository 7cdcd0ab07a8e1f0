/** Requester and responder on the two ends of a link that loses and reorders nothing. */
module PdelayLink {
  import opened Arith
  import Req = PdelayReq
  import Resp = PdelayResp
  import opened PdelaySequence

  /** `accepted[k]` is what the responder did with the k-th transmitted request; the requests
      after those are still on the wire. */
  datatype Joint = Joint(req: Req.State, resp: Resp.State, accepted: seq<bool>)

  datatype Move =
    | RequesterCall(input: Req.Input)
    | ResponderTick(env: Resp.Env, io: Resp.Io, now: U64)
    | ResponderTimestamp(id: U16, t: nat, env: Resp.Env, io: Resp.Io, now: U64)
    | Deliver(rxTime: nat, env: Resp.Env, io: Resp.Io, now: U64)

  /** The constants of both ends; `sdo` is the majorSdoId the requester puts in its header. */
  datatype Setup = Setup(cfg: Req.Config, txtsLost: nat, sdo: nat, clock: U64, port: U16)

  predicate ValidSetup(setup: Setup) {
    setup.cfg.network && (setup.sdo == 1 || setup.sdo == 2)
  }

  predicate SetupWorks(setup: Setup, j: Joint) {
    ValidSetup(setup) && |j.accepted| <= |SentList(j.req.log)|
  }

  function ResponderEvent(setup: Setup, j: Joint, event: Resp.Event, env: Resp.Env, io: Resp.Io, now: U64): Joint {
    j.(resp := Resp.Handle(setup.txtsLost, j.resp, Resp.Input(event, env, io, now)).0)
  }

  function Step(setup: Setup, j: Joint, m: Move): Joint
    requires SetupWorks(setup, j)
  {
    match m
    case RequesterCall(input) => j.(req := Req.Handle(setup.cfg, j.req, input).0)
    case ResponderTick(env, io, now) => ResponderEvent(setup, j, Resp.Tick, env, io, now)
    case ResponderTimestamp(id, t, env, io, now) =>
      ResponderEvent(setup, j, Resp.TxTimestamp(id, t), env, io, now)
    case Deliver(rxTime, env, io, now) =>
      var sent := SentList(j.req.log);
      if |sent| == |j.accepted| then j
      else
        var id := sent[|j.accepted|].id;
        var req := Resp.Request(id, setup.sdo, 0, setup.clock, setup.port);
        ResponderEvent(setup, j, Resp.RecvReq(req, rxTime), env, io, now).(
          accepted := j.accepted + [Resp.InSequence(j.resp.rx.lastId, id)])
  }

  /** The responder refuses a request only if it repeats the id of the request just before it
      (or starts afresh with an initial send), and never refuses two in a row. */
  predicate RefusesOnlyRepeats(sent: seq<Sent>, accepted: seq<bool>)
    requires |accepted| <= |sent|
  {
    forall k | 0 <= k < |accepted| && !accepted[k] ::
      k > 0 && accepted[k - 1] && (sent[k].initial || sent[k].id == sent[k - 1].id)
  }

  /** The responder expects the successor of the last request it accepted, or anything. */
  predicate ExpectsNext(sent: seq<Sent>, accepted: seq<bool>, lastId: int)
    requires |accepted| <= |sent|
  {
    lastId == -1
    || (accepted != [] && accepted[|accepted| - 1] && lastId == sent[|accepted| - 1].id)
  }

  predicate Inv(setup: Setup, j: Joint) {
    && SetupWorks(setup, j)
    && Tracked(j.req) && Settled(j.req)
    && ExpectsNext(SentList(j.req.log), j.accepted, j.resp.rx.lastId)
    && RefusesOnlyRepeats(SentList(j.req.log), j.accepted)
  }

  lemma OneMoreVerdict(sent: seq<Sent>, accepted: seq<bool>, lastId: int)
    requires |accepted| < |sent| && Chained(sent)
    requires ExpectsNext(sent, accepted, lastId) && RefusesOnlyRepeats(sent, accepted)
    ensures var ok := Resp.InSequence(lastId, sent[|accepted|].id);
            && RefusesOnlyRepeats(sent, accepted + [ok])
            && (ok ==> ExpectsNext(sent, accepted + [ok], sent[|accepted|].id))
  {
    var k := |accepted|;
    if !Resp.InSequence(lastId, sent[k].id) {
      assert Linked(sent[k - 1], sent[k]);
    }
  }

  lemma ResponderKeepsLastId(setup: Setup, s: Resp.State, i: Resp.Input)
    ensures var s' := Resp.Handle(setup.txtsLost, s, i).0;
            s'.rx.lastId == -1 || s'.rx.lastId == Resp.Accept(s, i.event).0.rx.lastId
  {
    var (s1, run) := Resp.Accept(s, i.event);
    if run {
      Resp.OneResponsePerCall(setup.txtsLost, i.env, i.io, i.now, Resp.AllState(i.env, s1));
    }
  }

  lemma DeliverKeepsInv(setup: Setup, j: Joint, m: Move)
    requires Inv(setup, j) && m.Deliver? && |j.accepted| < |SentList(j.req.log)|
    ensures Inv(setup, Step(setup, j, m))
  {
    var sent := SentList(j.req.log);
    var req := Resp.Request(sent[|j.accepted|].id, setup.sdo, 0, setup.clock, setup.port);
    ResponderKeepsLastId(setup, j.resp, Resp.Input(Resp.RecvReq(req, m.rxTime), m.env, m.io, m.now));
    FollowingIdsChain(j.req.log);
    OneMoreVerdict(sent, j.accepted, j.resp.rx.lastId);
  }

  lemma StepKeepsInv(setup: Setup, j: Joint, m: Move)
    requires Inv(setup, j)
    ensures Inv(setup, Step(setup, j, m))
  {
    match m
    case RequesterCall(input) =>
      HandleTracked(setup.cfg, j.req, input);
      SentListGrows(j.req.log, Req.Handle(setup.cfg, j.req, input).0.log);
    case ResponderTick(env, io, now) =>
      ResponderKeepsLastId(setup, j.resp, Resp.Input(Resp.Tick, env, io, now));
    case ResponderTimestamp(id, t, env, io, now) =>
      ResponderKeepsLastId(setup, j.resp, Resp.Input(Resp.TxTimestamp(id, t), env, io, now));
    case Deliver(_, _, _, _) =>
      if |j.accepted| < |SentList(j.req.log)| {
        DeliverKeepsInv(setup, j, m);
      }
  }

  function Run(setup: Setup, j: Joint, moves: seq<Move>): Joint
    requires Inv(setup, j)
    decreases |moves|
  {
    if moves == [] then j
    else
      StepKeepsInv(setup, j, moves[0]);
      Run(setup, Step(setup, j, moves[0]), moves[1..])
  }

  /** A responder that has been enabled and called once waits for any sequence id. */
  function Start(resp: Resp.State): Joint { Joint(Req.Boot(), resp, []) }

  lemma {:induction false} RunKeepsInv(setup: Setup, j: Joint, moves: seq<Move>)
    requires Inv(setup, j)
    ensures Inv(setup, Run(setup, j, moves))
    decreases |moves|
  {
    if moves != [] {
      StepKeepsInv(setup, j, moves[0]);
      RunKeepsInv(setup, Step(setup, j, moves[0]), moves[1..]);
    }
  }

  /** In every run of the two ends together, whatever sends fail, timestamps get lost, ports go
      down and up: refusals only answer immediate repeats, and never come twice in a row. */
  lemma ResponderRefusesOnlyRepeats(setup: Setup, resp: Resp.State, moves: seq<Move>)
    requires ValidSetup(setup) && resp.rx.lastId == -1
    ensures Inv(setup, Start(resp))
    ensures var j := Run(setup, Start(resp), moves);
            && |j.accepted| <= |SentList(j.req.log)|
            && RefusesOnlyRepeats(SentList(j.req.log), j.accepted)
            && IdsFollow(j.req.log)
  {
    RunKeepsInv(setup, Start(resp), moves);
  }

  // ----- the verdicts are the responder's own -----

  /** What the responder recorded about the requests it received, oldest first. */
  function Verdicts(log: seq<Resp.Act>): seq<bool> {
    if log == [] then []
    else Verdicts(log[..|log| - 1]) + VerdictOf(log[|log| - 1])
  }

  function VerdictOf(act: Resp.Act): seq<bool> {
    match act
    case Accepted(_) => [true]
    case Refused(_) => [false]
    case _ => []
  }

  lemma OneMoreResponderAct(log: seq<Resp.Act>, act: Resp.Act)
    ensures Verdicts(log + [act]) == Verdicts(log) + VerdictOf(act)
  {
    assert (log + [act])[..|log|] == log;
  }

  lemma PassGivesNoVerdict(txtsLost: nat, env: Resp.Env, io: Resp.Io, now: U64, s: Resp.State)
    ensures Verdicts(Resp.Iterate(txtsLost, env, io, now, s).s.log) == Verdicts(s.log)
  {
    OneMoreResponderAct(s.log, Resp.RespSent(s.rx.req, s.rx.ts2));
    OneMoreResponderAct(s.log, Resp.FollowUpSent(s.rx.req, s.tx.ts3));
    hide Verdicts;
  }

  lemma {:induction false} LoopGivesNoVerdict(txtsLost: nat, env: Resp.Env, io: Resp.Io, now: U64, s: Resp.State)
    ensures Verdicts(Resp.Dispatch(txtsLost, env, io, now, s).0.log) == Verdicts(s.log)
    decreases Resp.Rank(s)
  {
    var step := Resp.Iterate(txtsLost, env, io, now, s);
    PassGivesNoVerdict(txtsLost, env, io, now, s);
    Resp.PassLowersRank(txtsLost, env, io, now, s);
    if step.Go? && step.s.last != step.s.state {
      LoopGivesNoVerdict(txtsLost, env, io, now, step.s);
    }
  }

  lemma CallVerdict(txtsLost: nat, s: Resp.State, i: Resp.Input)
    ensures var log := Resp.Handle(txtsLost, s, i).0.log;
            Verdicts(log) == Verdicts(s.log)
                             + if i.event.RecvReq? && (i.event.req.majorSdo == 1 || i.event.req.majorSdo == 2)
                               then [Resp.InSequence(s.rx.lastId, i.event.req.id)] else []
  {
    var (s1, run) := Resp.Accept(s, i.event);
    if i.event.RecvReq? {
      OneMoreResponderAct(s.log, Resp.Refused(i.event.req.id));
      OneMoreResponderAct(s.log, Resp.Accepted(i.event.req.id));
    }
    if run {
      LoopGivesNoVerdict(txtsLost, i.env, i.io, i.now, Resp.AllState(i.env, s1));
    }
  }

  /** `accepted` is exactly what the responder itself recorded. */
  lemma {:induction false} AcceptedIsRecorded(setup: Setup, j: Joint, moves: seq<Move>)
    requires Inv(setup, j) && j.accepted == Verdicts(j.resp.log)
    ensures Run(setup, j, moves).accepted == Verdicts(Run(setup, j, moves).resp.log)
    decreases |moves|
  {
    if moves != [] {
      StepKeepsInv(setup, j, moves[0]);
      StepRecords(setup, j, moves[0]);
      AcceptedIsRecorded(setup, Step(setup, j, moves[0]), moves[1..]);
    }
  }

  lemma StepRecords(setup: Setup, j: Joint, m: Move)
    requires Inv(setup, j) && j.accepted == Verdicts(j.resp.log)
    ensures Step(setup, j, m).accepted == Verdicts(Step(setup, j, m).resp.log)
  {
    hide Resp.Handle, Req.Handle, Verdicts;
    match m
    case RequesterCall(_) =>
    case ResponderTick(env, io, now) =>
      CallVerdict(setup.txtsLost, j.resp, Resp.Input(Resp.Tick, env, io, now));
    case ResponderTimestamp(id, t, env, io, now) =>
      CallVerdict(setup.txtsLost, j.resp, Resp.Input(Resp.TxTimestamp(id, t), env, io, now));
    case Deliver(rxTime, env, io, now) =>
      var sent := SentList(j.req.log);
      if |j.accepted| < |sent| {
        var req := Resp.Request(sent[|j.accepted|].id, setup.sdo, 0, setup.clock, setup.port);
        CallVerdict(setup.txtsLost, j.resp, Resp.Input(Resp.RecvReq(req, rxTime), env, io, now));
      }
  }

  /** Where `Start` comes from: one call of an enabled responder. */
  lemma EnabledResponderWaitsForAnyId(txtsLost: nat, env: Resp.Env, io: Resp.Io, now: U64)
    requires !env.begin && env.portOper && env.portEnabled
    ensures Resp.Handle(txtsLost, Resp.Boot(), Resp.Input(Resp.Tick, env, io, now)).0.rx.lastId == -1
  {
    var s0 := Resp.Boot();
    var s1 := Resp.Iterate(txtsLost, env, io, now, s0).s;
    var s2 := Resp.Iterate(txtsLost, env, io, now, s1).s;
    var s3 := Resp.Iterate(txtsLost, env, io, now, s2).s;
    assert s1.state == Resp.NotEnabled && s2.state == Resp.InitialWait && s3.rx.lastId == -1;
    assert Resp.Dispatch(txtsLost, env, io, now, s2) == (s3, 0);
    assert Resp.Dispatch(txtsLost, env, io, now, s1) == Resp.Dispatch(txtsLost, env, io, now, s2);
  }
}
