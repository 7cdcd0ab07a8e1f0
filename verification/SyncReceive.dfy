/** The MDSyncReceive state machine (tsn_gptp/md_sync_receive_sm.c): pairing of a two-step
    Sync with its Follow_Up, whichever of the two arrives first. */
module SyncReceive {
  import opened Arith

  datatype Phase = Init | Discard | WaitFollowUp | WaitSync | Reaction

  /** `interval` is logMessageInterval in ns; `correction` the 48.16 bit correction field. */
  datatype Sync = Sync(
    id: U16, twoStep: bool, interval: nat, correction: U64, originSec: nat, originNs: nat)

  datatype FollowUp = FollowUp(id: U16, correction: U64, originSec: nat, originNs: nat)

  datatype Env = Env(
    begin: bool, instanceEnable: bool, portOper: bool, ptpEnabled: bool, asCapable: bool,
    asymmetry: bool, oneStepReceive: bool)

  /** The part of MDSyncReceive that is taken from the two messages. */
  datatype Out = Out(id: U16, correctionNs: nat, correctionSubns: nat,
                     originSec: nat, originNs: nat, ingress: nat)

  /** An MDSyncReceive handed on, with the ordinal numbers of the messages it was made from. */
  datatype Emission = Emission(sync: Sync, followUp: FollowUp, syncNo: nat, followUpNo: nat, out: Out)

  datatype Inbox = Inbox(rcvdSync: bool, sync: Sync, rcvdFollowUp: bool, followUp: FollowUp)

  /** How many messages of each kind have been received; the machine does not read it. */
  datatype Seen = Seen(syncs: nat, followUps: nat)

  datatype State = State(
    state: Phase, last: Phase, rx: Inbox, ingress: nat, deadline: nat,
    seen: Seen, emitted: seq<Emission>)

  datatype Event = Tick | RecvSync(sync: Sync, rxTime: nat) | RecvFollowUp(followUp: FollowUp)

  datatype Input = Input(event: Event, env: Env, now: nat)

  datatype Step = Go(s: State) | Done(s: State)

  predicate PortUp(env: Env) { env.portOper && env.ptpEnabled && env.asCapable }

  predicate Enabled(env: Env) { !env.begin && env.instanceEnable && PortUp(env) }

  /** setMDSyncReceive: a one-step Sync ignores the Follow_Up. */
  function Combine(sync: Sync, fup: FollowUp, ingress: nat): Out {
    var correction := if sync.twoStep then (sync.correction + fup.correction) % TWO64 else sync.correction;
    Out(sync.id, correction / TWO16, correction % TWO16,
        if sync.twoStep then fup.originSec else sync.originSec,
        if sync.twoStep then fup.originNs else sync.originNs,
        ingress)
  }

  function DiscardCondition(env: Env, s: State): State {
    var arrived := s.rx.rcvdSync && PortUp(env) && !env.asymmetry;
    if arrived && !s.rx.sync.twoStep && !env.oneStepReceive then s.(last := Reaction)
    else if arrived && s.rx.sync.twoStep then s.(state := WaitFollowUp)
    else if arrived then s.(state := WaitSync)
    else s
  }

  function WaitFollowUpProc(now: nat, s: State): State {
    s.(rx := s.rx.(rcvdSync := false), deadline := now + s.rx.sync.interval)
  }

  function WaitFollowUpCondition(env: Env, now: nat, s: State): State {
    var arrived := s.rx.rcvdSync && PortUp(env);
    if arrived && s.rx.sync.twoStep then s.(last := Reaction)
    else if s.rx.rcvdFollowUp && s.rx.followUp.id == s.rx.sync.id then s.(state := WaitSync)
    else
      var s := s.(rx := s.rx.(rcvdFollowUp := false));
      if arrived && env.oneStepReceive then s.(state := WaitSync)
      else if !env.asymmetry && (now >= s.deadline || arrived) then s.(state := Discard)
      else s
  }

  function WaitSyncProc(s: State): State {
    s.(rx := s.rx.(rcvdSync := false, rcvdFollowUp := false),
       emitted := s.emitted + [Emission(s.rx.sync, s.rx.followUp, s.seen.syncs, s.seen.followUps,
                                        Combine(s.rx.sync, s.rx.followUp, s.ingress))])
  }

  function WaitSyncCondition(env: Env, s: State): State {
    var arrived := s.rx.rcvdSync && PortUp(env) && !env.asymmetry;
    if arrived && !s.rx.sync.twoStep && env.oneStepReceive then s.(last := Reaction)
    else if arrived && s.rx.sync.twoStep then s.(state := WaitFollowUp)
    else if arrived then s.(state := Discard)
    else s
  }

  function Iterate(env: Env, now: nat, s: State): Step {
    var changed := s.last != s.state;
    var s := s.(last := s.state);
    match s.state
    case Init => Go(s.(state := Discard))
    case Discard =>
      Go(DiscardCondition(env, if changed then s.(rx := s.rx.(rcvdSync := false, rcvdFollowUp := false)) else s))
    case WaitFollowUp =>
      Go(WaitFollowUpCondition(env, now, if changed then WaitFollowUpProc(now, s) else s))
    case WaitSync =>
      if changed then Done(WaitSyncCondition(env, WaitSyncProc(s))) else Go(WaitSyncCondition(env, s))
    case Reaction => Go(s)
  }

  function Rank(s: State): nat {
    if s.state.Init? then 5
    else if s.state.Reaction? then 0
    else if s.last == s.state then 4
    else if s.state.WaitFollowUp? then 3
    else 2
  }

  lemma PassLowersRank(env: Env, now: nat, s: State)
    ensures var step := Iterate(env, now, s);
            step.Go? && step.s.last != step.s.state ==> Rank(step.s) < Rank(s)
  {
  }

  function Dispatch(env: Env, now: nat, s: State): State
    decreases Rank(s)
  {
    PassLowersRank(env, now, s);
    match Iterate(env, now, s)
    case Done(s') => s'
    case Go(s') => if s'.last == s'.state then s' else Dispatch(env, now, s')
  }

  function RunLoop(env: Env, now: nat, s: State): State {
    Dispatch(env, now, if Enabled(env) then s else s.(state := Discard, last := Reaction))
  }

  function Accept(s: State, event: Event): State {
    match event
    case Tick => s
    case RecvSync(sync, rxTime) =>
      s.(rx := s.rx.(rcvdSync := true, sync := sync), ingress := rxTime,
         seen := s.seen.(syncs := s.seen.syncs + 1))
    case RecvFollowUp(fup) =>
      s.(rx := s.rx.(rcvdFollowUp := true, followUp := fup),
         seen := s.seen.(followUps := s.seen.followUps + 1))
  }

  function Handle(s: State, i: Input): State { RunLoop(i.env, i.now, Accept(s, i.event)) }

  function Run(s: State, inputs: seq<Input>): State
    decreases |inputs|
  {
    if inputs == [] then s else Run(Handle(s, inputs[0]), inputs[1..])
  }

  const NO_SYNC := Sync(0, false, 0, 0, 0, 0)
  const NO_FOLLOW_UP := FollowUp(0, 0, 0, 0)

  function Boot(): State {
    State(Init, Init, Inbox(false, NO_SYNC, false, NO_FOLLOW_UP), 0, 0, Seen(0, 0), [])
  }

  // ----- the record in the daemon -----

  class SyncReceiveSm {
    var state: Phase
    var last: Phase
    var rx: Inbox
    var ingress: nat
    var deadline: nat
    ghost var seen: Seen
    ghost var emitted: seq<Emission>

    ghost function Abs(): State
      reads this
    {
      State(state, last, rx, ingress, deadline, seen, emitted)
    }

    constructor ()
      ensures Abs() == Boot()
    {
      state, last := Init, Init;
      rx := Inbox(false, NO_SYNC, false, NO_FOLLOW_UP);
      ingress, deadline := 0, 0;
      seen, emitted := Seen(0, 0), [];
    }

    method DiscardNext(env: Env)
      requires state == Discard
      modifies this
      ensures Abs() == DiscardCondition(env, old(Abs()))
    {
      var up := env.portOper && env.ptpEnabled && env.asCapable;
      if rx.rcvdSync && up && !rx.sync.twoStep && !env.asymmetry && !env.oneStepReceive {
        last := Reaction;
      } else if rx.rcvdSync && up && rx.sync.twoStep && !env.asymmetry {
        state := WaitFollowUp;
      } else if rx.rcvdSync && up && !rx.sync.twoStep && !env.asymmetry && env.oneStepReceive {
        state := WaitSync;
      }
    }

    method WaitFollowUpNext(env: Env, now: nat)
      requires state == WaitFollowUp
      modifies this
      ensures Abs() == WaitFollowUpCondition(env, now, old(Abs()))
    {
      var up := env.portOper && env.ptpEnabled && env.asCapable;
      if rx.rcvdSync && up && rx.sync.twoStep {
        last := Reaction;
        return;
      }
      if rx.rcvdFollowUp {
        if rx.followUp.id == rx.sync.id {
          state := WaitSync;
          return;
        }
        rx := rx.(rcvdFollowUp := false);
      }
      if rx.rcvdSync && up && !rx.sync.twoStep && env.oneStepReceive {
        state := WaitSync;
      } else if (now >= deadline && !env.asymmetry)
             || (rx.rcvdSync && up && !rx.sync.twoStep && !env.asymmetry && !env.oneStepReceive) {
        state := Discard;
      }
    }

    /** waiting_for_sync_proc: hand on what the two messages say. */
    method Emit() returns (out: Out)
      modifies this
      ensures Abs() == WaitSyncProc(old(Abs()))
      ensures out == Combine(old(rx.sync), old(rx.followUp), ingress)
    {
      rx := rx.(rcvdSync := false);
      rx := rx.(rcvdFollowUp := false);
      var sync, fup := rx.sync, rx.followUp;
      var correction := sync.correction;
      var originSec, originNs := sync.originSec, sync.originNs;
      if sync.twoStep {
        correction := (correction + fup.correction) % TWO64;
        originSec, originNs := fup.originSec, fup.originNs;
      }
      out := Out(sync.id, correction / TWO16, correction % TWO16, originSec, originNs, ingress);
      emitted := emitted + [Emission(sync, fup, seen.syncs, seen.followUps, out)];
    }

    method WaitSyncNext(env: Env)
      requires state == WaitSync
      modifies this
      ensures Abs() == WaitSyncCondition(env, old(Abs()))
    {
      var up := env.portOper && env.ptpEnabled && env.asCapable;
      if rx.rcvdSync && up && !rx.sync.twoStep && !env.asymmetry && env.oneStepReceive {
        last := Reaction;
      } else if rx.rcvdSync && up && rx.sync.twoStep && !env.asymmetry {
        state := WaitFollowUp;
      } else if rx.rcvdSync && up && !rx.sync.twoStep && !env.asymmetry && !env.oneStepReceive {
        state := Discard;
      }
    }

    /** `out` is the newest emission and the only one since `before`, or there is none. */
    ghost predicate Reports(out: Option<Out>, before: seq<Emission>)
      reads this
    {
      if out.Some? then
        |emitted| == |before| + 1 && before <= emitted && emitted[|before|].out == out.value
      else emitted == before
    }

    /** One pass of the loop body; an emission ends the loop. */
    method Pass(env: Env, now: nat) returns (out: Option<Out>)
      modifies this
      ensures Iterate(env, now, old(Abs())) == if out.Some? then Done(Abs()) else Go(Abs())
      ensures Reports(out, old(emitted))
    {
      var changed := last != state;
      last := state;
      out := None;
      match state
      case Init => state := Discard;
      case Discard =>
        if changed {
          rx := rx.(rcvdSync := false, rcvdFollowUp := false);
        }
        DiscardNext(env);
      case WaitFollowUp =>
        if changed {
          rx := rx.(rcvdSync := false);
          deadline := now + rx.sync.interval;
        }
        WaitFollowUpNext(env, now);
      case WaitSync =>
        if changed {
          var emission := Emit();
          out := Some(emission);
        }
        WaitSyncNext(env);
      case Reaction =>
    }

    /** Returns the MDSyncReceive of this call, if there is one. */
    method Sm(env: Env, now: nat) returns (out: Option<Out>)
      modifies this
      ensures Abs() == RunLoop(env, now, old(Abs()))
      ensures Reports(out, old(emitted))
    {
      if !Enabled(env) {
        last := Reaction;
        state := Discard;
      }
      while true
        invariant Dispatch(env, now, Abs()) == RunLoop(env, now, old(Abs()))
        invariant emitted == old(emitted)
        decreases Rank(Abs())
      {
        PassLowersRank(env, now, Abs());
        out := Pass(env, now);
        if out.Some? || last == state {
          return;
        }
      }
    }

    method RecvSync(sync: Sync, rxTime: nat, env: Env, now: nat) returns (out: Option<Out>)
      modifies this
      ensures Abs() == Handle(old(Abs()), Input(Event.RecvSync(sync, rxTime), env, now))
      ensures Reports(out, old(emitted))
    {
      rx := rx.(rcvdSync := true, sync := sync);
      ingress := rxTime;
      seen := seen.(syncs := seen.syncs + 1);
      out := Sm(env, now);
    }

    method RecvFollowUp(fup: FollowUp, env: Env, now: nat) returns (out: Option<Out>)
      modifies this
      ensures Abs() == Handle(old(Abs()), Input(Event.RecvFollowUp(fup), env, now))
      ensures Reports(out, old(emitted))
    {
      rx := rx.(rcvdFollowUp := true, followUp := fup);
      seen := seen.(followUps := seen.followUps + 1);
      out := Sm(env, now);
    }
  }
}
