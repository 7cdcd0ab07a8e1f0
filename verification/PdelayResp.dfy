/** The MDPdelayResp state machine (tsn_gptp/md_pdelay_resp_sm.c): as functions, what every
    run of them keeps, and the record that is updated in place. */
module PdelayResp {
  import opened Arith

  datatype Phase = Init | NotEnabled | InitialWait | WaitReq | SentResp | Reaction

  datatype Request = Request(id: U16, majorSdo: nat, domain: nat, clock: U64, port: U16)

  datatype Env = Env(begin: bool, portOper: bool, portEnabled: bool)

  datatype Io = Io(sendResult: int, deviceTime: nat)

  /** History. Both messages sent are composed from the request in the buffer and bear ts2 or ts3,
      which is what the act records. */
  datatype Act =
    | Accepted(id: U16)
    | Refused(id: U16)
    | RespSent(req: Request, ts2: nat)
    | FollowUpSent(req: Request, ts3: nat)

  /** `lastId` is -1 when any sequence id is acceptable. */
  datatype Inbox = Inbox(rcvdReq: bool, req: Request, lastId: int, ts2: nat)

  datatype Outbox = Outbox(rcvdTimestamp: bool, sentAt: nat, mockTs: nat, ts3: nat)

  datatype State = State(state: Phase, last: Phase, rx: Inbox, tx: Outbox, log: seq<Act>)

  datatype Event = Tick | RecvReq(req: Request, rxTime: nat) | TxTimestamp(id: U16, t: nat)

  datatype Input = Input(event: Event, env: Env, io: Io, now: U64)

  datatype Step = Go(s: State) | Done(s: State, result: int)

  function Record(s: State, act: Act): State { s.(log := s.log + [act]) }

  function SentRespProc(io: Io, now: U64, s: State): Step {
    var s1 := s.(rx := s.rx.(rcvdReq := false), tx := s.tx.(rcvdTimestamp := false));
    if io.sendResult == -1 then Done(s1.(last := Reaction), 0)
    else
      Done(Record(s1, RespSent(s.rx.req, s.rx.ts2)).(
             tx := s1.tx.(sentAt := now,
                          mockTs := if io.sendResult < 0 then io.deviceTime else s1.tx.mockTs)), 1)
  }

  function SentRespCondition(txtsLost: nat, now: U64, s: State): State {
    if s.tx.rcvdTimestamp then s.(state := WaitReq)
    else if Sub64(now, s.tx.sentAt) < txtsLost then s
    else if s.tx.mockTs != 0 then s.(tx := s.tx.(ts3 := s.tx.mockTs, mockTs := 0), state := WaitReq)
    else s.(last := Reaction)
  }

  function NextOnRequest(s: State): State { if s.rx.rcvdReq then s.(state := SentResp) else s }

  function Iterate(txtsLost: nat, env: Env, io: Io, now: U64, s: State): Step {
    var changed := s.last != s.state;
    var s := s.(last := s.state);
    match s.state
    case Init => Go(s.(state := NotEnabled))
    case NotEnabled => Go(if env.portEnabled then s.(state := InitialWait) else s)
    case InitialWait =>
      Go(NextOnRequest(if changed then s.(rx := s.rx.(rcvdReq := false, lastId := -1)) else s))
    case WaitReq =>
      if !changed then Go(NextOnRequest(s))
      else if io.sendResult == -1 then Done(s.(last := Reaction), 0)
      else Go(NextOnRequest(Record(s, FollowUpSent(s.rx.req, s.tx.ts3))))
    case SentResp =>
      if changed then SentRespProc(io, now, s) else Go(SentRespCondition(txtsLost, now, s))
    case Reaction => Go(s)
  }

  function Rank(s: State): nat {
    match s.state
    case Init => 6
    case NotEnabled => 5
    case InitialWait => 4
    case SentResp => if s.last == SentResp then 3 else 1
    case WaitReq => 2
    case Reaction => 0
  }

  lemma PassLowersRank(txtsLost: nat, env: Env, io: Io, now: U64, s: State)
    ensures var step := Iterate(txtsLost, env, io, now, s);
            step.Go? && step.s.last != step.s.state ==> Rank(step.s) < Rank(s)
  {
  }

  function Dispatch(txtsLost: nat, env: Env, io: Io, now: U64, s: State): (State, int)
    decreases Rank(s)
  {
    PassLowersRank(txtsLost, env, io, now, s);
    match Iterate(txtsLost, env, io, now, s)
    case Done(s', result) => (s', result)
    case Go(s') => if s'.last == s'.state then (s', 0) else Dispatch(txtsLost, env, io, now, s')
  }

  /** allstate_condition */
  function AllState(env: Env, s: State): State {
    if env.begin || !env.portOper || !env.portEnabled then s.(state := NotEnabled) else s
  }

  function RunLoop(txtsLost: nat, env: Env, io: Io, now: U64, s: State): (State, int) {
    Dispatch(txtsLost, env, io, now, AllState(env, s))
  }

  predicate InSequence(lastId: int, id: U16) { lastId < 0 || id == (lastId + 1) % TWO16 }

  /** What an entry point stores; `run` says whether the machine runs afterwards. The request
      buffer is overwritten even when the request is then refused. */
  function Accept(s: State, event: Event): (State, bool) {
    match event
    case Tick => (s, true)
    case RecvReq(req, rxTime) =>
      var rx := s.rx.(req := req);
      if req.majorSdo != 1 && req.majorSdo != 2 then (s.(rx := rx), false)
      else if !InSequence(rx.lastId, req.id) then
        (Record(s, Refused(req.id)).(rx := rx.(lastId := -1)), false)
      else
        (Record(s, Accepted(req.id)).(rx := rx.(lastId := req.id, rcvdReq := true, ts2 := rxTime)), true)
    case TxTimestamp(id, t) =>
      if s.state != SentResp || id != s.rx.req.id then (s, false)
      else (s.(tx := s.tx.(ts3 := t, rcvdTimestamp := true)), true)
  }

  function Handle(txtsLost: nat, s: State, i: Input): (State, int) {
    var (s', run) := Accept(s, i.event);
    if run then RunLoop(txtsLost, i.env, i.io, i.now, s') else (s', 0)
  }

  function Boot(): State {
    State(Init, Init, Inbox(false, Request(0, 0, 0, 0, 0), 0, 0), Outbox(false, 0, 0, 0), [])
  }

  // ----- what a call does -----

  function Answers(log: seq<Act>): nat {
    if log == [] then 0 else Answers(log[..|log| - 1]) + if log[|log| - 1].RespSent? then 1 else 0
  }

  lemma AnswersGrow(log: seq<Act>, act: Act)
    ensures Answers(log + [act]) == Answers(log) + if act.RespSent? then 1 else 0
  {
    assert (log + [act])[..|log|] == log;
  }

  lemma PassAnswers(txtsLost: nat, env: Env, io: Io, now: U64, s: State)
    ensures var step := Iterate(txtsLost, env, io, now, s);
            && Answers(step.s.log) == Answers(s.log) + (if step.Done? then step.result else 0)
            && (step.Done? ==> step.result == 0 || step.result == 1)
            && (step.s.rx.lastId == s.rx.lastId || step.s.rx.lastId == -1)
  {
    AnswersGrow(s.log, RespSent(s.rx.req, s.rx.ts2));
    AnswersGrow(s.log, FollowUpSent(s.rx.req, s.tx.ts3));
  }

  /** One call sends at most one Pdelay_Resp and returns 1 exactly when it sent one. Running
      the machine never changes which id is expected next, except to accept any id. */
  lemma {:induction false} OneResponsePerCall(txtsLost: nat, env: Env, io: Io, now: U64, s: State)
    ensures var (s', result) := Dispatch(txtsLost, env, io, now, s);
            && (result == 0 || result == 1)
            && Answers(s'.log) == Answers(s.log) + result
            && (s'.rx.lastId == s.rx.lastId || s'.rx.lastId == -1)
    decreases Rank(s)
  {
    var step := Iterate(txtsLost, env, io, now, s);
    PassLowersRank(txtsLost, env, io, now, s);
    PassAnswers(txtsLost, env, io, now, s);
    if step.Go? && step.s.last != step.s.state {
      OneResponsePerCall(txtsLost, env, io, now, step.s);
    }
  }

  // ----- the record in the daemon -----

  class PdelayRespSm {
    const txtsLost: nat

    var state: Phase
    var last: Phase
    var rx: Inbox
    var tx: Outbox
    ghost var log: seq<Act>

    ghost function Abs(): State
      reads this
    {
      State(state, last, rx, tx, log)
    }

    constructor (txtsLost: nat)
      ensures this.txtsLost == txtsLost && Abs() == Boot()
    {
      this.txtsLost := txtsLost;
      state, last := Init, Init;
      rx := Inbox(false, Request(0, 0, 0, 0, 0), 0, 0);
      tx := Outbox(false, 0, 0, 0);
      log := [];
    }

    ghost method Note(act: Act)
      modifies this`log
      ensures log == old(log) + [act]
    {
      log := log + [act];
    }

    /** waiting_for_pdelay_req_proc: 0 when the Follow_Up went out. */
    method SendFollowUp(io: Io) returns (res: int)
      modifies this
      ensures res == if io.sendResult == -1 then -1 else 0
      ensures Abs() == if res == 0 then Record(old(Abs()), FollowUpSent(rx.req, tx.ts3)) else old(Abs())
    {
      if io.sendResult == -1 {
        return -1;
      }
      Note(FollowUpSent(rx.req, tx.ts3));
      return 0;
    }

    method SendResp(io: Io, now: U64) returns (res: int)
      requires state == SentResp && last == SentResp
      modifies this
      ensures res < 0 <==> io.sendResult == -1
      ensures SentRespProc(io, now, old(Abs()))
              == if res < 0 then Done(Abs().(last := Reaction), 0) else Done(Abs(), 1)
    {
      rx := rx.(rcvdReq := false);
      tx := tx.(rcvdTimestamp := false);
      res := io.sendResult;
      if res == -1 {
        return -1;
      }
      tx := tx.(sentAt := now);
      Note(RespSent(rx.req, rx.ts2));
      if res < 0 {
        tx := tx.(mockTs := io.deviceTime);
        res := -res;
      }
    }

    method SentRespNext(now: U64)
      modifies this
      ensures Abs() == SentRespCondition(txtsLost, now, old(Abs()))
    {
      if tx.rcvdTimestamp {
        state := WaitReq;
      } else if Sub64(now, tx.sentAt) >= txtsLost {
        if tx.mockTs != 0 {
          tx := tx.(ts3 := tx.mockTs, mockTs := 0);
          state := WaitReq;
        } else {
          last := Reaction;
        }
      }
    }

    method Sm(env: Env, io: Io, now: U64) returns (result: int)
      modifies this
      ensures (Abs(), result) == RunLoop(txtsLost, env, io, now, old(Abs()))
    {
      if env.begin || !env.portOper || !env.portEnabled {
        state := NotEnabled;
      }
      while true
        invariant Dispatch(txtsLost, env, io, now, Abs()) == RunLoop(txtsLost, env, io, now, old(Abs()))
        decreases Rank(Abs())
      {
        ghost var before := Abs();
        PassLowersRank(txtsLost, env, io, now, before);
        var changed := last != state;
        last := state;
        match state {
          case Init => state := NotEnabled;
          case NotEnabled =>
            if env.portEnabled {
              state := InitialWait;
            }
          case InitialWait =>
            if changed {
              rx := rx.(rcvdReq := false, lastId := -1);
            }
            if rx.rcvdReq {
              state := SentResp;
            }
          case WaitReq =>
            if changed {
              var res := SendFollowUp(io);
              if res != 0 {
                last := Reaction;
                return 0;
              }
            }
            if rx.rcvdReq {
              state := SentResp;
            }
          case SentResp =>
            if changed {
              var res := SendResp(io, now);
              if res < 0 {
                last := Reaction;
                return 0;
              }
              return 1;
            }
            SentRespNext(now);
          case Reaction =>
        }
        assert Iterate(txtsLost, env, io, now, before) == Go(Abs());
        if last == state {
          return 0;
        }
      }
    }

    method RecvReq(req: Request, rxTime: nat, env: Env, io: Io, now: U64) returns (result: int)
      modifies this
      ensures (Abs(), result)
              == Handle(txtsLost, old(Abs()), Input(Event.RecvReq(req, rxTime), env, io, now))
    {
      rx := rx.(req := req);
      if req.majorSdo != 1 && req.majorSdo != 2 {
        return 0;
      }
      if rx.lastId >= 0 {
        var expected := (rx.lastId + 1) % TWO16;
        if expected != req.id {
          Note(Refused(req.id));
          rx := rx.(lastId := -1);
          return 0;
        }
      }
      Note(Accepted(req.id));
      rx := rx.(lastId := req.id, rcvdReq := true, ts2 := rxTime);
      result := Sm(env, io, now);
    }

    method TxTimestamp(id: U16, t: nat, env: Env, io: Io, now: U64)
      modifies this
      ensures Abs() == Handle(txtsLost, old(Abs()), Input(Event.TxTimestamp(id, t), env, io, now)).0
    {
      if state != SentResp || id != rx.req.id {
        return;
      }
      tx := tx.(ts3 := t, rcvdTimestamp := true);
      var _ := Sm(env, io, now);
    }
  }
}
