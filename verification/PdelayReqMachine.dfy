/** The peer-delay requester as the daemon runs it: one record per port whose fields every
    call updates in place. Each method is proved to take the abstract state exactly where the
    functions of `PdelayReq` take it. */
module PdelayReqMachine {
  import opened Arith
  import opened PdelayReq

  class PdelayReqSm {
    const cfg: Config

    var state: Phase
    var last: Phase
    var rx: Mailbox
    var tx: Sender
    var ts: Stamps
    var link: Link
    ghost var log: seq<Act>

    /** The record as one value. */
    ghost function Abs(): State
      reads this
    {
      State(state, last, rx, tx, ts, link, log)
    }

    constructor (cfg: Config)
      ensures this.cfg == cfg && Abs() == Boot()
    {
      this.cfg := cfg;
      state, last := Init, Init;
      rx := Mailbox(false, Resp(0, ZERO_PORT, ZERO_PORT, 0, 0, 0), false, FollowUp(0, ZERO_PORT, 0, 0, 0));
      tx := Sender(false, 0, 0, 0, 0);
      ts := Stamps(0, 0, 0, 0, 0, 0);
      link := Link(0, 0, 0, false, 0.0, 0, false, false);
      log := [];
    }

    ghost method Note(act: Act)
      modifies this`log
      ensures log == old(log) + [act]
    {
      log := log + [act];
    }

    method NotEnabledAction()
      modifies this
      ensures Abs() == NotEnabledProc(cfg, old(Abs()))
    {
      if cfg.fixedDelay != 0 {
        link := link.(ratio := 1.0, asCapable := true, propDelay := cfg.fixedDelay);
      }
    }

    method NotEnabledNext(env: Env)
      requires state == NotEnabled
      modifies this
      ensures Abs() == old(Abs()).(state := NotEnabledCondition(cfg, env, old(Abs())))
    {
      if cfg.fixedDelay != 0 {
        if !link.asCapable {
          state := Reaction;
        }
      } else if env.portOper && env.portEnabled {
        state := InitialSend;
      }
    }

    /** Returns -1 without a network handle, -2 when the send failed, 0 when it went out. */
    method InitialSendAction(io: Io, now: U64) returns (res: int)
      requires state == InitialSend && last == InitialSend
      modifies this
      ensures res == (if !cfg.network then -1 else if io.sendResult == -1 then -2 else 0)
      ensures var step := InitialSendProc(cfg, io, now, old(Abs()));
              && step.s.log == log
              && step == if res == -1 then Go(Abs().(state := NotEnabled))
                         else Done(Abs().(last := if res == -2 then Reaction else last), 1)
    {
      rx := rx.(rcvdResp := false, rcvdFollowUp := false);
      link := link.(ratio := 1.0);
      ts := ts.(prevT1 := 0, prevT2 := 0);
      tx := tx.(rcvdTimestamp := false, seqId := io.rand);
      if !cfg.network {
        Note(InitialFailed);
        return -1;
      }
      tx := tx.(txSeq := tx.seqId);
      if io.sendResult == -1 {
        Note(InitialFailed);
        return -2;
      }
      if io.sendResult < 0 {
        tx := tx.(mockTs := io.deviceTime);
      }
      Note(InitialSent(tx.seqId));
      tx := tx.(timer := now);
      link := link.(lost := 0, multi := 0, faults := 0, measuring := false, asCapable := false);
      return 0;
    }

    method InitialSendNext(env: Env, now: U64)
      modifies this
      ensures Abs() == InitialSendCondition(cfg, env, now, old(Abs()))
    {
      if env.suspended {
        return;
      }
      if tx.rcvdTimestamp {
        state := WaitResp;
        return;
      }
      if Sub64(now, tx.timer) >= cfg.txtsLost {
        if tx.mockTs != 0 {
          ts := ts.(t1 := tx.mockTs);
          tx := tx.(mockTs := 0);
          state := WaitResp;
        } else {
          Note(TimestampLost);
          last := Reaction;
        }
      }
    }

    method ClearLinkFields()
      modifies this
      ensures Abs() == old(Abs()).(link := ClearLink(old(link)))
    {
      link := link.(measuring := false, asCapable := false, ratioValid := false, ratio := 1.0);
    }

    method ResetAction()
      modifies this
      ensures Abs() == ResetProc(cfg, old(Abs()))
    {
      ghost var cleared := GivesUp(cfg, link) || AvnuCeases(cfg, link);
      rx := rx.(rcvdResp := false);
      if link.lost < cfg.allowedLost {
        link := link.(lost := link.lost + 1);
      } else {
        link := link.(measuring := false);
        if !link.asCapable {
          Note(ResetEntered(cleared));
          return;
        }
        link := link.(asCapable := false, ratioValid := false, ratio := 1.0);
      }
      if cfg.avnu && link.multi != 0 {
        if link.multi >= cfg.allowedLost {
          ClearLinkFields();
        }
      }
      Note(ResetEntered(cleared));
    }

    method ResetNext(env: Env, now: U64)
      modifies this
      ensures Abs() == ResetCondition(cfg, env, now, old(Abs()))
    {
      if cfg.avnu {
        if link.multi >= cfg.allowedLost {
          if Sub64(now, tx.timer) < CEASE_TIME {
            return;
          }
          link := link.(multi := 0);
        }
      }
      if Sub64(now, tx.timer) >= env.interval {
        state := Send;
      }
    }

    /** Returns -1 without a network handle, -2 when the send failed, 0 when it went out. The
        caller steps the id back after a failure. */
    method SendAction(io: Io, now: U64) returns (res: int)
      requires state == Send && last == Send
      modifies this
      ensures res == (if !cfg.network then -1 else if io.sendResult == -1 then -2 else 0)
      ensures var step := SendProc(cfg, io, now, old(Abs()));
              step == if res == -1 then Go(Abs().(state := Reset))
                      else if res == -2 then
                        Done(Abs().(tx := Abs().tx.(seqId := Pred16(tx.seqId)), last := Reaction), 1)
                      else Done(Abs(), 1)
    {
      rx := rx.(rcvdResp := false, rcvdFollowUp := false);
      tx := tx.(seqId := Succ16(tx.seqId));
      if !cfg.network {
        return -1;
      }
      tx := tx.(txSeq := tx.seqId);
      if io.sendResult == -1 {
        Note(RequestFailed);
        return -2;
      }
      if io.sendResult < 0 {
        tx := tx.(mockTs := io.deviceTime);
      }
      Note(RequestSent(tx.seqId));
      tx := tx.(timer := now);
      return 0;
    }

    method SendNext(now: U64)
      modifies this
      ensures Abs() == SendCondition(cfg, now, old(Abs()))
    {
      if tx.rcvdTimestamp {
        state := WaitResp;
        return;
      }
      if Sub64(now, tx.timer) >= cfg.txtsLost {
        if tx.mockTs != 0 {
          ts := ts.(t1 := tx.mockTs);
          tx := tx.(mockTs := 0);
          state := WaitResp;
        } else {
          Note(TimestampLost);
          tx := tx.(seqId := Pred16(tx.seqId));
          last := Reaction;
        }
      }
    }

    method WaitRespNext(env: Env, now: U64)
      requires state == WaitResp
      modifies this
      ensures var s := old(Abs());
              Abs() == s.(state := WaitRespCondition(cfg, env, now, s.tx.timer, s.tx.txSeq, s.rx),
                          rx := DropEarlyFollowUp(env, now, s))
    {
      if Sub64(now, tx.timer) >= env.interval {
        state := Reset;
      } else if !rx.rcvdResp {
        if rx.rcvdFollowUp {
          if tx.txSeq != rx.followUp.id {
            rx := rx.(rcvdFollowUp := false);
          }
        }
      } else if rx.resp.source.clock == cfg.thisClock {
        state := Reset;
      } else if rx.resp.requesting.clock != cfg.thisClock {
        state := Reset;
      } else if rx.resp.requesting.port != cfg.thisPort {
        state := Reset;
      } else if rx.resp.majorSdo == 1 || rx.resp.majorSdo == 2 {
        // a lower id than expected is let through
        state := if rx.resp.id != tx.txSeq && !(tx.txSeq > rx.resp.id) then Reset else WaitFollowUp;
      }
    }

    method WaitFollowUpNext(env: Env, now: U64)
      requires state == WaitFollowUp
      modifies this
      ensures var s := old(Abs());
              Abs() == s.(state := WaitFollowUpCondition(cfg, env, now, s.tx.timer, s.tx.txSeq, s.rx),
                          link := CountMulti(env, now, s))
    {
      if Sub64(now, tx.timer) >= env.interval {
        state := Reset;
      } else if rx.rcvdResp && rx.resp.id == tx.txSeq {
        link := link.(multi := Succ16(link.multi));
        state := Reset;
      } else if rx.rcvdFollowUp && (rx.followUp.majorSdo == 1 || rx.followUp.majorSdo == 2) {
        if rx.followUp.source.clock == cfg.thisClock {
          state := Reset;
        } else if rx.followUp.id == tx.txSeq {
          if rx.followUp.source == rx.resp.source {
            state := WaitInterval;
          } else if rx.resp.requesting.clock == cfg.thisClock && rx.resp.requesting.port == cfg.thisPort {
            state := WaitInterval;
          }
        }
      }
    }

    /** Stores the new average and the spacing it was taken from. */
    method UpdateRateRatio(env: Env)
      modifies this
      ensures Abs() == old(Abs()).(
                link := ComputeRateRatio(env, old(ts), old(link)),
                ts := old(ts).(prevT1 := old(ts.t1), prevT2 := old(ts.t2)))
    {
      var sample := 1.0;
      var dt1, dt2 := Sub64(ts.t1, ts.prevT1), Sub64(ts.t2, ts.prevT2);
      var least := env.interval / 2;
      var most := env.interval + least;
      if dt1 > least && dt1 < most && dt2 > least && dt2 < most {
        sample := (ts.t2 - ts.prevT2) as real / (ts.t1 - ts.prevT1) as real;
        if !link.ratioValid {
          link := link.(ratioValid := true);
        }
      }
      ts := ts.(prevT1 := ts.t1, prevT2 := ts.t2);
      link := link.(ratio := (link.ratio + sample) / 2.0);
    }

    /** Either counts a fault and restores the delay before it, or gives the link up. */
    method CountFault(prev: nat)
      modifies this
      ensures Abs() == old(Abs()).(link := Judge(cfg, Faulty, prev, old(link)))
    {
      if link.faults <= cfg.allowedFaults {
        link := link.(faults := Succ16(link.faults), propDelay := prev);
      } else {
        link := link.(asCapable := false, measuring := false, faults := 0);
      }
    }

    method CompleteAction(env: Env)
      modifies this
      ensures Abs() == Complete(cfg, env, old(Abs()))
    {
      var prev := link.propDelay;
      ghost var act := CompletionAct(cfg, env, Abs());
      ghost var measured := Measured(env, Abs());
      Note(act);
      rx := rx.(rcvdFollowUp := false);
      link := link.(lost := 0, multi := 0);
      if env.asymmetry {
        return;
      }
      if env.computeRatio {
        UpdateRateRatio(env);
      } else {
        link := link.(ratioValid := true);
      }
      if env.computeDelay {
        link := link.(propDelay := ComputePropTime(link.ratio, ts.t1, ts.t2, ts.t3, ts.t4));
      }
      link := link.(measuring := true);
      assert link == measured;
      var foreign := rx.resp.source.clock != cfg.thisClock;
      if link.propDelay < cfg.minLimit && foreign && link.ratioValid {
        CountFault(prev);
      } else if link.propDelay <= cfg.thresh && foreign && link.ratioValid {
        link := link.(faults := 0, asCapable := true);
      } else if foreign && !link.ratioValid {
        link := link.(asCapable := false, measuring := false, faults := 0);
      } else {
        CountFault(prev);
      }
    }

    /** One pass of the loop body. */
    method Pass(env: Env, io: Io, now: U64) returns (done: bool, result: int)
      modifies this
      ensures Iterate(cfg, env, io, now, old(Abs())) == if done then Done(Abs(), result) else Go(Abs())
    {
      hide Complete, ResetProc, ResetCondition, SendCondition, InitialSendCondition;
      var changed := last != state;
      last := state;
      done, result := false, 0;
      match state
      case Init => state := NotEnabled;
      case NotEnabled =>
        if changed {
          NotEnabledAction();
        }
        NotEnabledNext(env);
      case InitialSend =>
        if changed {
          var res := InitialSendAction(io, now);
          if res == -2 {
            last := Reaction;
          } else if res == -1 {
            state := NotEnabled;
            return;
          }
          return true, 1;
        }
        InitialSendNext(env, now);
      case Reset =>
        if changed {
          ResetAction();
        }
        ResetNext(env, now);
      case Send =>
        if changed {
          var res := SendAction(io, now);
          if res == -2 {
            tx := tx.(seqId := Pred16(tx.seqId));
            last := Reaction;
          } else if res == -1 {
            state := Reset;
            return;
          }
          return true, 1;
        }
        SendNext(now);
      case WaitResp =>
        if changed {
          tx := tx.(rcvdTimestamp := false);
        }
        WaitRespNext(env, now);
      case WaitFollowUp =>
        if changed {
          rx := rx.(rcvdResp := false);
        }
        WaitFollowUpNext(env, now);
      case WaitInterval =>
        if changed {
          CompleteAction(env);
        }
        if Sub64(now, tx.timer) >= env.interval {
          state := Send;
        }
      case Reaction =>
    }

    method Sm(env: Env, io: Io, now: U64) returns (result: int)
      requires cfg.network
      modifies this
      ensures (Abs(), result) == PdelayReq.Sm(cfg, env, io, now, old(Abs()))
    {
      if env.begin || !env.portOper || !env.portEnabled {
        state := NotEnabled;
      } else if env.suspended {
        state := InitialSend;
      }
      while true
        invariant Dispatch(cfg, env, io, now, Abs()) == PdelayReq.Sm(cfg, env, io, now, old(Abs()))
        decreases Rank(Abs())
      {
        PassLowersRank(cfg, env, io, now, Abs());
        var done, res := Pass(env, io, now);
        if done {
          return res;
        }
        if last == state {
          return 0;
        }
      }
    }

    method Tick(env: Env, io: Io, now: U64) returns (result: int)
      requires cfg.network
      modifies this
      ensures (Abs(), result) == Handle(cfg, old(Abs()), Input(Event.Tick, env, io, now))
    {
      result := Sm(env, io, now);
    }

    method TxTimestamp(id: U16, t: nat, env: Env, io: Io, now: U64)
      requires cfg.network
      modifies this
      ensures Abs() == Handle(cfg, old(Abs()), Input(Event.TxTimestamp(id, t), env, io, now)).0
    {
      if state != Send && state != InitialSend {
        return;
      }
      if id != tx.seqId {
        return;
      }
      ts := ts.(t1 := t);
      tx := tx.(rcvdTimestamp := true);
      var _ := Sm(env, io, now);
    }

    method RecvResp(r: Resp, rxTime: nat, env: Env, io: Io, now: U64)
      requires cfg.network
      modifies this
      ensures Abs() == Handle(cfg, old(Abs()), Input(Event.RecvResp(r, rxTime), env, io, now)).0
    {
      rx := rx.(rcvdResp := true, resp := r);
      ts := ts.(t2 := r.receiptSec * SEC_NS + r.receiptNs, t4 := rxTime);
      var _ := Sm(env, io, now);
    }

    method RecvFollowUp(f: FollowUp, env: Env, io: Io, now: U64)
      requires cfg.network
      modifies this
      ensures Abs() == Handle(cfg, old(Abs()), Input(Event.RecvFollowUp(f), env, io, now)).0
    {
      rx := rx.(rcvdFollowUp := true, followUp := f);
      ts := ts.(t3 := f.originSec * SEC_NS + f.originNs);
      var _ := Sm(env, io, now);
    }

    /** gptpnet_cb_devdown: the interface went away. */
    method DeviceDown(env: Env, io: Io, now: U64)
      requires cfg.network
      modifies this
      ensures Abs() == Handle(cfg, old(Abs()), Input(Event.DeviceDown, env, io, now)).0
    {
      Note(CapableCleared);
      link := link.(asCapable := false);
    }
  }
}
