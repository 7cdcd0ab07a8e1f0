/** The MDSyncSend state machine (tsn_gptp/md_sync_send_sm.c): what a port transmits for the
    MDSyncSend structures it is handed. */
module SyncSend {
  import opened Arith

  datatype Phase = Init | Initializing | SendSync | SendFollowUp | SendOneStep | SetCorrection | Reaction

  datatype Env = Env(
    begin: bool, instanceEnable: bool, portOper: bool, ptpEnabled: bool, asCapable: bool,
    asymmetry: bool, oneStepTx: bool)

  /** The result of a send is -1 when it failed; another negative number means that it went out
      but no hardware timestamp will be reported. */
  datatype Io = Io(rand: U16, sendResult: int, deviceTime: nat)

  /** History. `current`: the timestamp reported is that of the latest transmission of a Sync. */
  datatype Act = Restarted | SyncTx(id: U16) | FollowUpTx(id: U16, current: bool) | OneStepTx(id: U16)

  datatype Stamp = Stamp(rcvdTimestamp: bool, mockTs: nat, syncTs: nat, sentAt: nat)

  /** History. How many Syncs have gone out, and the number of the one that `syncTs` and `mockTs`
      are the timestamp of. */
  datatype Origins = Origins(sent: nat, syncOf: nat, mockOf: nat)

  datatype State = State(
    state: Phase, last: Phase, rcvdMdSync: bool, seqId: U16, stamp: Stamp,
    origins: Origins, log: seq<Act>)

  /** A transmit timestamp belongs to the transmission number `of`, which the code is not told. */
  datatype Event = Tick | MdSyncSend | TxTimestamp(t: nat, of: nat)

  datatype Input = Input(event: Event, env: Env, io: Io, now: U64)

  datatype Step = Go(s: State) | Done(s: State, result: int)

  predicate PortUp(env: Env) { env.portOper && env.ptpEnabled && env.asCapable }

  predicate Enabled(env: Env) { !env.begin && env.instanceEnable && PortUp(env) }

  function Record(s: State, act: Act): State { s.(log := s.log + [act]) }

  function InitializingProc(io: Io, s: State): State {
    Record(s, Restarted).(rcvdMdSync := false, stamp := s.stamp.(rcvdTimestamp := false), seqId := io.rand)
  }

  /** Both INITIALIZING and SEND_FOLLOW_UP wait for the next MDSyncSend like this. */
  function NextSync(env: Env, s: State): State {
    if !(s.rcvdMdSync && PortUp(env) && !env.asymmetry) then s
    else s.(state := if env.oneStepTx then SendOneStep else SendSync)
  }

  /** A mock timestamp is taken for the transmission it comes with. */
  function NextOrigins(io: Io, o: Origins): Origins {
    Origins(o.sent + 1, o.syncOf, if io.sendResult < 0 then o.sent + 1 else o.mockOf)
  }

  function SendSyncProc(io: Io, now: U64, s: State): Step {
    var s1 := s.(rcvdMdSync := false);
    if io.sendResult == -1 then Done(s1.(last := Reaction), 0)
    else
      Done(Record(s1, SyncTx(s.seqId)).(
             origins := NextOrigins(io, s.origins),
             stamp := s.stamp.(sentAt := now,
                               mockTs := if io.sendResult < 0 then io.deviceTime else s.stamp.mockTs)), 1)
  }

  function SendSyncCondition(txtsLost: nat, now: U64, s: State): State {
    if s.stamp.rcvdTimestamp then s.(state := SendFollowUp)
    else if s.stamp.mockTs != 0 then
      s.(stamp := s.stamp.(syncTs := s.stamp.mockTs, mockTs := 0), state := SendFollowUp,
         origins := s.origins.(syncOf := s.origins.mockOf))
    else if Sub64(now, s.stamp.sentAt) >= txtsLost then s.(last := Reaction)
    else s
  }

  function SendFollowUpProc(io: Io, s: State): Step {
    var s1 := s.(stamp := s.stamp.(rcvdTimestamp := false));
    if io.sendResult == -1 then Done(s1.(last := Reaction), 0)
    else Go(Record(s1, FollowUpTx(s.seqId, s.origins.syncOf == s.origins.sent)).(seqId := Succ16(s.seqId)))
  }

  /** The id advances only when the send returned exactly 0. */
  function SendOneStepProc(io: Io, s: State): State {
    var s1 := s.(rcvdMdSync := false);
    if io.sendResult == -1 then s1
    else
      Record(s1, OneStepTx(s.seqId)).(
        origins := NextOrigins(io, s.origins),
        seqId := if io.sendResult == 0 then Succ16(s.seqId) else s.seqId,
        stamp := if io.sendResult < 0 then s.stamp.(mockTs := io.deviceTime) else s.stamp)
  }

  /** Its second branch repeats the condition of the first, so that a one-step port stays here. */
  function SetCorrectionCondition(env: Env, s: State): State {
    if s.rcvdMdSync && PortUp(env) && !env.asymmetry && !env.oneStepTx then s.(state := SendSync) else s
  }

  function Iterate(txtsLost: nat, env: Env, io: Io, now: U64, s: State): Step {
    var changed := s.last != s.state;
    var s := s.(last := s.state);
    match s.state
    case Init => Go(s.(state := Initializing))
    case Initializing => Go(NextSync(env, if changed then InitializingProc(io, s) else s))
    case SendSync => if changed then SendSyncProc(io, now, s) else Go(SendSyncCondition(txtsLost, now, s))
    case SendFollowUp => if changed then SendFollowUpProc(io, s) else Go(NextSync(env, s))
    case SendOneStep =>
      var s := if changed then SendOneStepProc(io, s) else s;
      Go(if s.stamp.rcvdTimestamp then s.(state := SetCorrection) else s)
    case SetCorrection =>
      Go(SetCorrectionCondition(env, if changed then s.(stamp := s.stamp.(rcvdTimestamp := false)) else s))
    case Reaction => Go(s)
  }

  function Rank(s: State): nat {
    match s.state
    case Init => 7
    case Initializing => 6
    case SendFollowUp => if s.last == SendFollowUp then 5 else 1
    case SendOneStep => 4
    case SetCorrection => 3
    case SendSync => if s.last == SendSync then 2 else 1
    case Reaction => 0
  }

  lemma PassLowersRank(txtsLost: nat, env: Env, io: Io, now: U64, s: State)
    ensures var step := Iterate(txtsLost, env, io, now, s);
            step.Go? && step.s.last != step.s.state ==> Rank(step.s) < Rank(s)
  {
  }

  function Dispatch(txtsLost: nat, env: Env, io: Io, now: U64, s: State): (State, int)
    decreases Rank(s)
  {
    PassLowersRank(txtsLost, env, io, now, s);
    match Iterate(txtsLost, env, io, now, s)
    case Done(s', result) => (s', result)
    case Go(s') => if s'.last == s'.state then (s', 0) else Dispatch(txtsLost, env, io, now, s')
  }

  function AllState(env: Env, s: State): State {
    if Enabled(env) then s else s.(state := Initializing, last := Reaction)
  }

  function RunLoop(txtsLost: nat, env: Env, io: Io, now: U64, s: State): (State, int) {
    Dispatch(txtsLost, env, io, now, AllState(env, s))
  }

  /** The timestamp event is taken in any state and for any sequence id. */
  function Accept(s: State, event: Event): State {
    match event
    case Tick => s
    case MdSyncSend => s.(rcvdMdSync := true)
    case TxTimestamp(t, of) =>
      s.(stamp := s.stamp.(rcvdTimestamp := true, syncTs := t), origins := s.origins.(syncOf := of))
  }

  function Handle(txtsLost: nat, s: State, i: Input): (State, int) {
    RunLoop(txtsLost, i.env, i.io, i.now, Accept(s, i.event))
  }

  function Run(txtsLost: nat, s: State, inputs: seq<Input>): State
    decreases |inputs|
  {
    if inputs == [] then s else Run(txtsLost, Handle(txtsLost, s, inputs[0]).0, inputs[1..])
  }

  function Boot(seqId: U16): State {
    State(Init, Init, false, seqId, Stamp(false, 0, 0, 0), Origins(0, 0, 0), [])
  }

  // ----- the trace of transmissions -----

  function Latest(log: seq<Act>): Option<Act> { if log == [] then None else Some(log[|log| - 1]) }

  /** What may be done next on a two-step port after `before`. */
  predicate Follows(before: Option<Act>, next: Act) {
    match next
    case Restarted => true
    case SyncTx(id) =>
      (match before
       case Some(SyncTx(sent)) => id == sent
       case Some(FollowUpTx(sent, _)) => id == Succ16(sent)
       case Some(Restarted) => true
       case Some(OneStepTx(_)) => false
       case None => false)
    case FollowUpTx(id, _) => before == Some(SyncTx(id))
    case OneStepTx(_) => false
  }

  /** One or more Sync(n), then Follow_Up(n), then the same for n + 1, and so on; only a restart
      of the port breaks that off, and a Sync is the first thing after it. */
  predicate TraceOk(log: seq<Act>) {
    forall i | 0 <= i < |log| :: Follows(Latest(log[..i]), log[i])
  }

  predicate Inv(s: State) {
    var latest := Latest(s.log);
    && TraceOk(s.log)
    && match s.state
       case SendSync =>
         if s.last == SendSync then latest == Some(SyncTx(s.seqId))
         else Follows(latest, SyncTx(s.seqId))
       case SendFollowUp =>
         if s.last == SendFollowUp then Follows(latest, SyncTx(s.seqId))
         else latest == Some(SyncTx(s.seqId))
       case Initializing => s.last == Initializing ==> latest == Some(Restarted)
       case Init => true
       case Reaction => true
       case SendOneStep => false
       case SetCorrection => false
  }

  lemma TraceGrows(log: seq<Act>, act: Act)
    requires TraceOk(log) && Follows(Latest(log), act)
    ensures TraceOk(log + [act]) && Latest(log + [act]) == Some(act)
  {
    var log' := log + [act];
    assert log'[..|log|] == log;
    assert forall i | 0 <= i < |log| :: log'[..i] == log[..i];
  }

  lemma SyncPassKeepsInv(txtsLost: nat, env: Env, io: Io, now: U64, s: State)
    requires Inv(s) && s.state.SendSync?
    ensures Inv(Iterate(txtsLost, env, io, now, s).s)
  {
    if s.last != SendSync {
      TraceGrows(s.log, SyncTx(s.seqId));
    }
  }

  lemma FollowUpPassKeepsInv(txtsLost: nat, env: Env, io: Io, now: U64, s: State)
    requires Inv(s) && s.state.SendFollowUp? && !env.oneStepTx
    ensures Inv(Iterate(txtsLost, env, io, now, s).s)
  {
    if s.last != SendFollowUp {
      TraceGrows(s.log, FollowUpTx(s.seqId, s.origins.syncOf == s.origins.sent));
    }
  }

  lemma PassKeepsInv(txtsLost: nat, env: Env, io: Io, now: U64, s: State)
    requires Inv(s) && !env.oneStepTx
    ensures Inv(Iterate(txtsLost, env, io, now, s).s)
  {
    match s.state
    case SendSync => SyncPassKeepsInv(txtsLost, env, io, now, s);
    case SendFollowUp => FollowUpPassKeepsInv(txtsLost, env, io, now, s);
    case _ => TraceGrows(s.log, Restarted);
  }

  lemma DispatchKeepsInv(txtsLost: nat, env: Env, io: Io, now: U64, s: State)
    requires Inv(s) && !env.oneStepTx
    ensures Inv(Dispatch(txtsLost, env, io, now, s).0)
    decreases Rank(s)
  {
    var step := Iterate(txtsLost, env, io, now, s);
    PassKeepsInv(txtsLost, env, io, now, s);
    PassLowersRank(txtsLost, env, io, now, s);
    if step.Go? && step.s.last != step.s.state {
      DispatchKeepsInv(txtsLost, env, io, now, step.s);
    }
  }

  lemma {:induction false} RunKeepsInv(txtsLost: nat, s: State, inputs: seq<Input>)
    requires Inv(s) && forall i <- inputs :: !i.env.oneStepTx
    ensures Inv(Run(txtsLost, s, inputs))
    decreases |inputs|
  {
    if inputs != [] {
      var i := inputs[0];
      DispatchKeepsInv(txtsLost, i.env, i.io, i.now, AllState(i.env, Accept(s, i.event)));
      RunKeepsInv(txtsLost, Handle(txtsLost, s, i).0, inputs[1..]);
    }
  }

  /** Under any pattern of failed sends, lost timestamps, restarts and newly arriving MDSyncSend
      a two-step port transmits Sync and Follow_Up in step. */
  lemma TransmissionsInStep(txtsLost: nat, seqId: U16, inputs: seq<Input>)
    requires forall i <- inputs :: !i.env.oneStepTx
    ensures TraceOk(Run(txtsLost, Boot(seqId), inputs).log)
  {
    RunKeepsInv(txtsLost, Boot(seqId), inputs);
  }

  /** What the trace says about any two neighbours while the port stays enabled. */
  lemma SyncsAndFollowUpsAlternate(log: seq<Act>, i: nat)
    requires TraceOk(log) && i + 1 < |log| && !log[i].Restarted? && !log[i + 1].Restarted?
    ensures log[i].SyncTx? || log[i].FollowUpTx?
    ensures log[i + 1].FollowUpTx? ==> log[i] == SyncTx(log[i + 1].id)
    ensures log[i + 1].SyncTx? ==>
              log[i + 1].id == if log[i].SyncTx? then log[i].id else Succ16(log[i].id)
  {
    assert Latest(log[..i + 1]) == Some(log[i]);
    assert Follows(Latest(log[..i]), log[i]);
  }

  function SyncsIn(log: seq<Act>): nat {
    if log == [] then 0 else SyncsIn(log[..|log| - 1]) + if log[|log| - 1].SyncTx? then 1 else 0
  }

  lemma SyncsGrow(log: seq<Act>, act: Act)
    ensures SyncsIn(log + [act]) == SyncsIn(log) + if act.SyncTx? then 1 else 0
  {
    assert (log + [act])[..|log|] == log;
  }

  lemma PassSyncs(txtsLost: nat, env: Env, io: Io, now: U64, s: State)
    ensures var step := Iterate(txtsLost, env, io, now, s);
            && SyncsIn(step.s.log) == SyncsIn(s.log) + (if step.Done? then step.result else 0)
            && (step.Done? ==> step.result == 0 || step.result == 1)
  {
    hide SyncsIn;
    SyncsGrow(s.log, Restarted);
    SyncsGrow(s.log, SyncTx(s.seqId));
    SyncsGrow(s.log, FollowUpTx(s.seqId, s.origins.syncOf == s.origins.sent));
    SyncsGrow(s.log, OneStepTx(s.seqId));
  }

  /** One call sends at most one two-step Sync, and returns 1 exactly when it sent one. */
  lemma {:induction false} OneSyncPerCall(txtsLost: nat, env: Env, io: Io, now: U64, s: State)
    ensures var (s', result) := Dispatch(txtsLost, env, io, now, s);
            (result == 0 || result == 1) && SyncsIn(s'.log) == SyncsIn(s.log) + result
    decreases Rank(s)
  {
    var step := Iterate(txtsLost, env, io, now, s);
    PassSyncs(txtsLost, env, io, now, s);
    PassLowersRank(txtsLost, env, io, now, s);
    if step.Go? && step.s.last != step.s.state {
      OneSyncPerCall(txtsLost, env, io, now, step.s);
    }
  }

  // ----- the timestamp a Follow_Up reports -----

  predicate AllCurrent(log: seq<Act>) {
    forall act <- log :: act.FollowUpTx? ==> act.current
  }

  lemma CurrentGrows(log: seq<Act>, act: Act)
    ensures AllCurrent(log + [act]) <==> AllCurrent(log) && (act.FollowUpTx? ==> act.current)
  {
    assert act in log + [act];
    assert forall a <- log :: a in log + [act];
  }

  /** The machine, entered in this state, sends a Follow_Up: a timestamp is in hand for the Sync
      that waits for one, or an earlier send of the Follow_Up failed, and now the send goes
      through. */
  predicate FollowsUp(io: Io, s: State) {
    && io.sendResult != -1
    && ((s.state == SendSync && s.last == SendSync && (s.stamp.rcvdTimestamp || s.stamp.mockTs != 0))
        || (s.state == SendFollowUp && s.last != SendFollowUp))
  }

  /** The timestamp in hand, which is the mock one only if no other was reported, is that of the
      latest transmission. */
  predicate InHandIsCurrent(s: State) {
    s.origins.sent
    == if s.state == SendSync && !s.stamp.rcvdTimestamp then s.origins.mockOf else s.origins.syncOf
  }

  predicate StaysCurrent(io: Io, s: State) {
    AllCurrent(s.log) && (FollowsUp(io, s) ==> InHandIsCurrent(s))
  }

  /** A pass that ends the loop, or one that goes on: either way the outcome is decided already. */
  predicate Decided(io: Io, s: State, step: Step) {
    StaysCurrent(io, s)
    <==> if step.Done? || step.s.last == step.s.state then AllCurrent(step.s.log)
         else StaysCurrent(io, step.s)
  }

  lemma SyncPassDecided(txtsLost: nat, env: Env, io: Io, now: U64, s: State)
    requires s.state == SendSync
    ensures Decided(io, s, Iterate(txtsLost, env, io, now, s))
  {
    CurrentGrows(s.log, SyncTx(s.seqId));
    hide AllCurrent;
  }

  lemma FollowUpPassDecided(txtsLost: nat, env: Env, io: Io, now: U64, s: State)
    requires s.state == SendFollowUp
    ensures Decided(io, s, Iterate(txtsLost, env, io, now, s))
  {
    CurrentGrows(s.log, FollowUpTx(s.seqId, s.origins.syncOf == s.origins.sent));
    hide AllCurrent;
  }

  lemma PassCurrentIff(txtsLost: nat, env: Env, io: Io, now: U64, s: State)
    ensures Decided(io, s, Iterate(txtsLost, env, io, now, s))
  {
    if s.state == SendSync {
      SyncPassDecided(txtsLost, env, io, now, s);
    } else if s.state == SendFollowUp {
      FollowUpPassDecided(txtsLost, env, io, now, s);
    } else {
      CurrentGrows(s.log, Restarted);
      CurrentGrows(s.log, OneStepTx(s.seqId));
    }
    hide AllCurrent, SendSyncProc, SendSyncCondition, SendFollowUpProc;
  }

  lemma {:induction false} DispatchCurrentIff(txtsLost: nat, env: Env, io: Io, now: U64, s: State)
    ensures AllCurrent(Dispatch(txtsLost, env, io, now, s).0.log) <==> StaysCurrent(io, s)
    decreases Rank(s)
  {
    var step := Iterate(txtsLost, env, io, now, s);
    PassCurrentIff(txtsLost, env, io, now, s);
    PassLowersRank(txtsLost, env, io, now, s);
    if step.Go? && step.s.last != step.s.state {
      DispatchCurrentIff(txtsLost, env, io, now, step.s);
    }
  }

  /** The call sends a Follow_Up while the timestamp in hand is not that of the latest Sync. */
  predicate ReportsStale(s: State, i: Input) {
    var s1 := AllState(i.env, Accept(s, i.event));
    FollowsUp(i.io, s1) && !InHandIsCurrent(s1)
  }

  /** One call, whatever the driver does: its Follow_Ups are right if and only if it does not send
      one with a stale timestamp in hand. */
  lemma HandleCurrentIff(txtsLost: nat, s: State, i: Input)
    ensures AllCurrent(Handle(txtsLost, s, i).0.log) <==> AllCurrent(s.log) && !ReportsStale(s, i)
  {
    hide Dispatch;
    DispatchCurrentIff(txtsLost, i.env, i.io, i.now, AllState(i.env, Accept(s, i.event)));
  }

  predicate NeverStale(txtsLost: nat, s: State, inputs: seq<Input>)
    decreases |inputs|
  {
    inputs != [] ==>
      !ReportsStale(s, inputs[0]) && NeverStale(txtsLost, Handle(txtsLost, s, inputs[0]).0, inputs[1..])
  }

  /** Over all runs, with mock timestamps, retransmissions, one-step Syncs, late and repeated
      timestamps: every Follow_Up reports the timestamp of the latest transmission of its Sync if
      and only if no call met that condition. */
  lemma {:induction false} RunCurrentIff(txtsLost: nat, s: State, inputs: seq<Input>)
    ensures AllCurrent(Run(txtsLost, s, inputs).log)
            <==> AllCurrent(s.log) && NeverStale(txtsLost, s, inputs)
    decreases |inputs|
  {
    hide Handle, AllCurrent, ReportsStale;
    if inputs != [] {
      HandleCurrentIff(txtsLost, s, inputs[0]);
      RunCurrentIff(txtsLost, Handle(txtsLost, s, inputs[0]).0, inputs[1..]);
    }
  }

  /** A timestamp is in hand only while the Sync it belongs to is being followed up. */
  predicate StampInv(s: State) {
    && AllCurrent(s.log) && s.stamp.mockTs == 0
    && (s.stamp.rcvdTimestamp ==>
          (s.origins.syncOf == s.origins.sent && (s.state.SendSync? || s.state.SendFollowUp?) && s.last == SendSync)
          || (s.state.Initializing? && s.last != Initializing))
    && (s.state.SendFollowUp? && s.last != SendFollowUp ==> s.origins.syncOf == s.origins.sent)
    && !s.state.SendOneStep? && !s.state.SetCorrection?
  }

  /** A driver that reports a timestamp for each Sync, and only while that Sync waits for it. */
  predicate Expected(s: State, i: Input) {
    && !i.env.oneStepTx && i.io.sendResult >= -1
    && (i.event.TxTimestamp? ==>
          s.state.SendSync? && s.last == SendSync && i.event.of == s.origins.sent)
  }

  lemma PassKeepsStampInv(txtsLost: nat, env: Env, io: Io, now: U64, s: State)
    requires StampInv(s) && !env.oneStepTx && io.sendResult >= -1
    ensures StampInv(Iterate(txtsLost, env, io, now, s).s)
  {
    CurrentGrows(s.log, Restarted);
    CurrentGrows(s.log, SyncTx(s.seqId));
    CurrentGrows(s.log, FollowUpTx(s.seqId, s.origins.syncOf == s.origins.sent));
    hide AllCurrent;
  }

  lemma DispatchKeepsStampInv(txtsLost: nat, env: Env, io: Io, now: U64, s: State)
    requires StampInv(s) && !env.oneStepTx && io.sendResult >= -1
    ensures StampInv(Dispatch(txtsLost, env, io, now, s).0)
    decreases Rank(s)
  {
    var step := Iterate(txtsLost, env, io, now, s);
    PassKeepsStampInv(txtsLost, env, io, now, s);
    PassLowersRank(txtsLost, env, io, now, s);
    if step.Go? && step.s.last != step.s.state {
      DispatchKeepsStampInv(txtsLost, env, io, now, step.s);
    }
  }

  predicate ExpectedRun(txtsLost: nat, s: State, inputs: seq<Input>)
    decreases |inputs|
  {
    inputs != [] ==>
      Expected(s, inputs[0]) && ExpectedRun(txtsLost, Handle(txtsLost, s, inputs[0]).0, inputs[1..])
  }

  lemma {:induction false} RunKeepsStampInv(txtsLost: nat, s: State, inputs: seq<Input>)
    requires StampInv(s) && ExpectedRun(txtsLost, s, inputs)
    ensures StampInv(Run(txtsLost, s, inputs))
    decreases |inputs|
  {
    if inputs != [] {
      var i := inputs[0];
      DispatchKeepsStampInv(txtsLost, i.env, i.io, i.now, AllState(i.env, Accept(s, i.event)));
      RunKeepsStampInv(txtsLost, Handle(txtsLost, s, i).0, inputs[1..]);
    }
  }

  /** With such a driver no run ever meets the condition. */
  lemma FollowUpStampsAreCurrent(txtsLost: nat, seqId: U16, inputs: seq<Input>)
    requires ExpectedRun(txtsLost, Boot(seqId), inputs)
    ensures AllCurrent(Run(txtsLost, Boot(seqId), inputs).log) && NeverStale(txtsLost, Boot(seqId), inputs)
  {
    RunKeepsStampInv(txtsLost, Boot(seqId), inputs);
    RunCurrentIff(txtsLost, Boot(seqId), inputs);
  }

  /** One input of the failing kind. The event is not checked against state or sequence id: a
      timestamp that comes late, when the Follow_Up is out, is what the next one reports. */
  lemma LateTimestampIsReused(txtsLost: nat, s: State, late: nat, of: nat, env: Env, io: Io, now: U64)
    requires s.state == SendFollowUp && s.last == SendFollowUp && !s.rcvdMdSync && of <= s.origins.sent
    requires Enabled(env) && !env.asymmetry && !env.oneStepTx && io.sendResult >= 0
    ensures var s1 := Handle(txtsLost, s, Input(TxTimestamp(late, of), env, io, now)).0;
            var s2 := Handle(txtsLost, s1, Input(MdSyncSend, env, io, now)).0;
            var s3 := Handle(txtsLost, s2, Input(Tick, env, io, now)).0;
            s3.log == s.log + [SyncTx(s.seqId), FollowUpTx(s.seqId, false)] && s3.stamp.syncTs == late
  {
    var s1 := Handle(txtsLost, s, Input(TxTimestamp(late, of), env, io, now)).0;
    assert s1 == Accept(s, TxTimestamp(late, of));
    TwoPasses(txtsLost, env, io, now, Accept(s1, MdSyncSend));
    var s2 := Handle(txtsLost, s1, Input(MdSyncSend, env, io, now)).0;
    assert s2.log == s.log + [SyncTx(s.seqId)];
    TwoPasses(txtsLost, env, io, now, s2);
    var s3 := Handle(txtsLost, s2, Input(Tick, env, io, now)).0;
    assert s3.log == s2.log + [FollowUpTx(s.seqId, false)];
  }

  /** Another, without any timestamp event. A mock timestamp survives a restart of the port: it
      is what the Follow_Up of the first Sync after the restart reports. */
  lemma StaleMockIsReported(txtsLost: nat, s: State, env: Env, io: Io, now: U64)
    requires s.state == SendSync && s.last == SendSync && !s.rcvdMdSync && !s.stamp.rcvdTimestamp
    requires s.stamp.mockTs != 0 && s.origins.mockOf <= s.origins.sent
    requires Enabled(env) && !env.asymmetry && !env.oneStepTx && io.sendResult >= 0
    ensures var s1 := Handle(txtsLost, s, Input(Tick, env.(portOper := false), io, now)).0;
            var s2 := Handle(txtsLost, s1, Input(MdSyncSend, env, io, now)).0;
            var s3 := Handle(txtsLost, s2, Input(Tick, env, io, now)).0;
            && s3.log == s.log + [Restarted, SyncTx(io.rand), FollowUpTx(io.rand, false)]
            && s3.stamp.syncTs == s.stamp.mockTs
  {
    var down := env.(portOper := false);
    var s1 := Handle(txtsLost, s, Input(Tick, down, io, now)).0;
    assert s1 == Iterate(txtsLost, down, io, now, AllState(down, s)).s;
    assert s1.log == s.log + [Restarted];
    TwoPasses(txtsLost, env, io, now, Accept(s1, MdSyncSend));
    var s2 := Handle(txtsLost, s1, Input(MdSyncSend, env, io, now)).0;
    assert s2.log == s1.log + [SyncTx(io.rand)];
    TwoPasses(txtsLost, env, io, now, s2);
    var s3 := Handle(txtsLost, s2, Input(Tick, env, io, now)).0;
    assert s3.log == s2.log + [FollowUpTx(io.rand, false)];
  }

  // ----- a one-step port after its first Sync -----

  /** An enabled port leaves SET_CORRECTION_FIELD if and only if an MDSyncSend is waiting and the
      port has been made a two-step one: the branch for one-step tests the same thing again. */
  lemma CorrectionIsLeftIff(txtsLost: nat, s: State, i: Input)
    requires s.state == SetCorrection && s.last == SetCorrection && Enabled(i.env)
    ensures var s' := Handle(txtsLost, s, i).0;
            && (s'.state != SetCorrection
                <==> (s.rcvdMdSync || i.event.MdSyncSend?) && !i.env.asymmetry && !i.env.oneStepTx)
            && (s'.state == SetCorrection ==> s'.log == s.log && s'.last == SetCorrection)
  {
    var s0 := Accept(s, i.event);
    var s1 := Iterate(txtsLost, i.env, i.io, i.now, s0).s;
    if s1.state != SetCorrection {
      assert Dispatch(txtsLost, i.env, i.io, i.now, s0) == Dispatch(txtsLost, i.env, i.io, i.now, s1);
      assert Iterate(txtsLost, i.env, i.io, i.now, s1).Done?;
    }
  }

  /** So a port that stays a one-step port transmits nothing more, however many MDSyncSend
      structures it is handed. */
  lemma {:induction false} OneStepPortStays(txtsLost: nat, s: State, inputs: seq<Input>)
    requires s.state == SetCorrection && s.last == SetCorrection
    requires forall i <- inputs :: Enabled(i.env) && i.env.oneStepTx
    ensures Run(txtsLost, s, inputs).state == SetCorrection && Run(txtsLost, s, inputs).log == s.log
    decreases |inputs|
  {
    hide Handle;
    if inputs != [] {
      assert inputs[0] in inputs;
      CorrectionIsLeftIff(txtsLost, s, inputs[0]);
      OneStepPortStays(txtsLost, Handle(txtsLost, s, inputs[0]).0, inputs[1..]);
    }
  }

  /** A call whose second pass is the last. */
  lemma TwoPasses(txtsLost: nat, env: Env, io: Io, now: U64, s: State)
    requires Iterate(txtsLost, env, io, now, s).Go?
    requires var a := Iterate(txtsLost, env, io, now, s).s;
             a.last != a.state
             && (Iterate(txtsLost, env, io, now, a).Done?
                 || Iterate(txtsLost, env, io, now, a).s.last == Iterate(txtsLost, env, io, now, a).s.state)
    ensures Dispatch(txtsLost, env, io, now, s).0
            == Iterate(txtsLost, env, io, now, Iterate(txtsLost, env, io, now, s).s).s
  {
    var a := Iterate(txtsLost, env, io, now, s).s;
    assert Dispatch(txtsLost, env, io, now, s) == Dispatch(txtsLost, env, io, now, a);
  }

  // ----- after a Sync -----

  /** A Sync is out and nothing is known yet about when it left. */
  predicate AwaitsTimestamp(s: State) {
    s.state == SendSync && s.last == SendSync && !s.stamp.rcvdTimestamp && s.stamp.mockTs == 0
  }

  /** An enabled port whose Sync has got no timestamp in time sends the same Sync again in its next
      call; before that it sends nothing. */
  lemma LostTimestampRepeatsSync(txtsLost: nat, s: State, env: Env, io: Io, now: U64)
    requires AwaitsTimestamp(s) && Enabled(env)
    ensures var (s', result) := Handle(txtsLost, s, Input(Tick, env, io, now));
            if Sub64(now, s.stamp.sentAt) < txtsLost then s' == s && result == 0
            else if io.sendResult == -1 then s'.log == s.log && s'.seqId == s.seqId && result == 0
            else s'.log == s.log + [SyncTx(s.seqId)] && s'.seqId == s.seqId && result == 1
                 && s'.state == SendSync && s'.last == SendSync && s'.stamp.sentAt == now
  {
    var s1 := Iterate(txtsLost, env, io, now, s).s;
    if Sub64(now, s.stamp.sentAt) >= txtsLost {
      assert s1 == s.(last := Reaction);
      assert Dispatch(txtsLost, env, io, now, s) == Dispatch(txtsLost, env, io, now, s1);
    }
  }

  /** A timestamp leads to the Follow_Up of that Sync in the same call, if the send goes through;
      and then the id moves on. */
  lemma TimestampLeadsToFollowUp(txtsLost: nat, s: State, t: nat, env: Env, io: Io, now: U64)
    requires AwaitsTimestamp(s) && Enabled(env) && !s.rcvdMdSync && io.sendResult != -1
    ensures var s' := Handle(txtsLost, s, Input(TxTimestamp(t, s.origins.sent), env, io, now)).0;
            && s'.log == s.log + [FollowUpTx(s.seqId, true)] && s'.seqId == Succ16(s.seqId)
            && s'.state == SendFollowUp && s'.stamp.syncTs == t
  {
    var s0 := Accept(s, TxTimestamp(t, s.origins.sent));
    var s1 := Iterate(txtsLost, env, io, now, s0).s;
    assert Dispatch(txtsLost, env, io, now, s0) == Dispatch(txtsLost, env, io, now, s1);
  }

  /** A device time stands in for the timestamp at once, and only once. */
  lemma DeviceTimeStandsIn(txtsLost: nat, s: State, env: Env, io: Io, now: U64)
    requires s.state == SendSync && s.last == SendSync && !s.stamp.rcvdTimestamp && s.stamp.mockTs != 0
    requires Enabled(env) && !s.rcvdMdSync && io.sendResult != -1
    ensures var s' := Handle(txtsLost, s, Input(Tick, env, io, now)).0;
            && |s'.log| == |s.log| + 1 && s'.log[..|s.log|] == s.log && s'.log[|s.log|].FollowUpTx?
            && s'.stamp.syncTs == s.stamp.mockTs && s'.stamp.mockTs == 0
  {
    var s1 := Iterate(txtsLost, env, io, now, s).s;
    assert Dispatch(txtsLost, env, io, now, s) == Dispatch(txtsLost, env, io, now, s1);
  }

  /** A Follow_Up that cannot be sent is tried again in the next call, with the same id. */
  lemma FailedFollowUpIsRepeated(txtsLost: nat, s: State, t: nat, of: nat, env: Env, io: Io, now: U64, io': Io, now': U64)
    requires AwaitsTimestamp(s) && Enabled(env) && !s.rcvdMdSync && io.sendResult == -1 && io'.sendResult != -1
    ensures var s1 := Handle(txtsLost, s, Input(TxTimestamp(t, of), env, io, now)).0;
            var s2 := Handle(txtsLost, s1, Input(Tick, env, io', now')).0;
            && s1.log == s.log && s1.seqId == s.seqId
            && |s2.log| == |s.log| + 1 && s2.log[..|s.log|] == s.log
            && s2.log[|s.log|].FollowUpTx? && s2.log[|s.log|].id == s.seqId && s2.stamp.syncTs == t
  {
    var a := Accept(s, TxTimestamp(t, of));
    var b := Iterate(txtsLost, env, io, now, a).s;
    assert Dispatch(txtsLost, env, io, now, a) == Dispatch(txtsLost, env, io, now, b);
    var s1 := Handle(txtsLost, s, Input(TxTimestamp(t, of), env, io, now)).0;
    assert s1.state == SendFollowUp && s1.last == Reaction && s1.stamp.syncTs == t;
  }

  /** A call of a port that is not enabled restarts it: what was to be sent is forgotten. */
  lemma RestartForgets(txtsLost: nat, s: State, i: Input)
    requires !Enabled(i.env)
    ensures var s' := Handle(txtsLost, s, i).0;
            && s'.log == s.log + [Restarted] && s'.state == Initializing && s'.last == Initializing
            && !s'.rcvdMdSync && !s'.stamp.rcvdTimestamp && s'.seqId == i.io.rand
  {
    var a := AllState(i.env, Accept(s, i.event));
    var b := Iterate(txtsLost, i.env, i.io, i.now, a).s;
    assert b.state == Initializing;
  }

  /** A port at rest that is handed an MDSyncSend transmits it in the same call: as a Sync, or as a
      one-step Sync, whose id moves on if and only if the send returned 0. */
  lemma MdSyncIsSent(txtsLost: nat, s: State, env: Env, io: Io, now: U64)
    requires (s.state == Initializing || s.state == SendFollowUp) && s.last == s.state
    requires Enabled(env) && !env.asymmetry && io.sendResult != -1
    ensures var s' := Handle(txtsLost, s, Input(MdSyncSend, env, io, now)).0;
            && !s'.rcvdMdSync
            && if !env.oneStepTx then s'.log == s.log + [SyncTx(s.seqId)] && s'.seqId == s.seqId
               else s'.log == s.log + [OneStepTx(s.seqId)]
                    && s'.seqId == if io.sendResult == 0 then (s.seqId + 1) % 65536 else s.seqId
  {
    var s0 := Accept(s, MdSyncSend);
    var s1 := Iterate(txtsLost, env, io, now, s0).s;
    assert s1.state == if env.oneStepTx then SendOneStep else SendSync;
    assert Dispatch(txtsLost, env, io, now, s0) == Dispatch(txtsLost, env, io, now, s1);
    if env.oneStepTx {
      var s2 := Iterate(txtsLost, env, io, now, s1).s;
      if s2.state == SetCorrection {
        var s3 := Iterate(txtsLost, env, io, now, s2).s;
        assert Dispatch(txtsLost, env, io, now, s1) == Dispatch(txtsLost, env, io, now, s2);
        assert s3.state == SetCorrection;
      }
    }
  }

  // ----- the record in the daemon -----

  class SyncSendSm {
    const txtsLost: nat

    var state: Phase
    var last: Phase
    var rcvdMdSync: bool
    var seqId: U16
    var stamp: Stamp
    ghost var origins: Origins
    ghost var log: seq<Act>

    ghost function Abs(): State
      reads this
    {
      State(state, last, rcvdMdSync, seqId, stamp, origins, log)
    }

    constructor (txtsLost: nat, seqId: U16)
      ensures this.txtsLost == txtsLost && Abs() == Boot(seqId)
    {
      this.txtsLost := txtsLost;
      state, last := Init, Init;
      rcvdMdSync, this.seqId := false, seqId;
      stamp := Stamp(false, 0, 0, 0);
      origins, log := Origins(0, 0, 0), [];
    }

    ghost method Note(act: Act)
      modifies this`log
      ensures log == old(log) + [act]
    {
      log := log + [act];
    }

    method InitializingAction(io: Io)
      modifies this
      ensures Abs() == InitializingProc(io, old(Abs()))
    {
      rcvdMdSync := false;
      stamp := stamp.(rcvdTimestamp := false);
      seqId := io.rand;
      Note(Restarted);
    }

    method AwaitMdSync(env: Env)
      modifies this
      ensures Abs() == NextSync(env, old(Abs()))
    {
      var up := env.portOper && env.ptpEnabled && env.asCapable;
      if rcvdMdSync && up && !env.asymmetry && !env.oneStepTx {
        state := SendSync;
      } else if rcvdMdSync && up && !env.asymmetry && env.oneStepTx {
        state := SendOneStep;
      }
    }

    /** send_sync_two_step_proc: negative when the send failed. */
    method SendSyncAction(io: Io, now: U64) returns (res: int)
      requires state == SendSync && last == SendSync
      modifies this
      ensures res < 0 <==> io.sendResult == -1
      ensures SendSyncProc(io, now, old(Abs()))
              == if res < 0 then Done(Abs().(last := Reaction), 0) else Done(Abs(), 1)
    {
      rcvdMdSync := false;
      if io.sendResult == -1 {
        return -1;
      }
      if io.sendResult < 0 {
        stamp := stamp.(mockTs := io.deviceTime);
      }
      origins := NextOrigins(io, origins);
      Note(SyncTx(seqId));
      stamp := stamp.(sentAt := now);
      return 0;
    }

    method SendSyncNext(now: U64)
      modifies this
      ensures Abs() == SendSyncCondition(txtsLost, now, old(Abs()))
    {
      if stamp.rcvdTimestamp {
        state := SendFollowUp;
      } else if stamp.mockTs != 0 {
        stamp := stamp.(syncTs := stamp.mockTs, mockTs := 0);
        origins := origins.(syncOf := origins.mockOf);
        state := SendFollowUp;
      } else if Sub64(now, stamp.sentAt) >= txtsLost {
        last := Reaction;
      }
    }

    method SendFollowUpAction(io: Io) returns (res: int)
      requires state == SendFollowUp && last == SendFollowUp
      modifies this
      ensures res < 0 <==> io.sendResult == -1
      ensures SendFollowUpProc(io, old(Abs()))
              == if res < 0 then Done(Abs().(last := Reaction), 0) else Go(Abs())
    {
      stamp := stamp.(rcvdTimestamp := false);
      if io.sendResult == -1 {
        return -1;
      }
      Note(FollowUpTx(seqId, origins.syncOf == origins.sent));
      seqId := Succ16(seqId);
      return 0;
    }

    method SendOneStepAction(io: Io)
      modifies this
      ensures Abs() == SendOneStepProc(io, old(Abs()))
    {
      rcvdMdSync := false;
      if io.sendResult == -1 {
        return;
      }
      if io.sendResult < 0 {
        stamp := stamp.(mockTs := io.deviceTime);
      }
      origins := NextOrigins(io, origins);
      Note(OneStepTx(seqId));
      if io.sendResult == 0 {
        seqId := Succ16(seqId);
      }
    }

    /** One pass of the loop body. */
    method Pass(env: Env, io: Io, now: U64) returns (done: bool, result: int)
      modifies this
      ensures Iterate(txtsLost, env, io, now, old(Abs())) == if done then Done(Abs(), result) else Go(Abs())
    {
      var changed := last != state;
      last := state;
      done, result := false, 0;
      match state
      case Init => state := Initializing;
      case Initializing =>
        if changed {
          InitializingAction(io);
        }
        AwaitMdSync(env);
      case SendSync =>
        if changed {
          var res := SendSyncAction(io, now);
          if res < 0 {
            last := Reaction;
            return true, 0;
          }
          return true, 1;
        }
        SendSyncNext(now);
      case SendFollowUp =>
        if changed {
          var res := SendFollowUpAction(io);
          if res < 0 {
            last := Reaction;
            return true, 0;
          }
        } else {
          AwaitMdSync(env);
        }
      case SendOneStep =>
        if changed {
          SendOneStepAction(io);
        }
        if stamp.rcvdTimestamp {
          state := SetCorrection;
        }
      case SetCorrection =>
        if changed {
          stamp := stamp.(rcvdTimestamp := false);
        }
        var up := env.portOper && env.ptpEnabled && env.asCapable;
        if rcvdMdSync && up && !env.asymmetry && !env.oneStepTx {
          state := SendSync;
        }
        // the branch to SEND_SYNC_ONE_STEP tests the same condition and is never taken
      case Reaction =>
    }

    method Sm(env: Env, io: Io, now: U64) returns (result: int)
      modifies this
      ensures (Abs(), result) == RunLoop(txtsLost, env, io, now, old(Abs()))
    {
      if !Enabled(env) {
        last := Reaction;
        state := Initializing;
      }
      while true
        invariant Dispatch(txtsLost, env, io, now, Abs()) == RunLoop(txtsLost, env, io, now, old(Abs()))
        decreases Rank(Abs())
      {
        PassLowersRank(txtsLost, env, io, now, Abs());
        var done, res := Pass(env, io, now);
        if done {
          return res;
        }
        if last == state {
          return 0;
        }
      }
    }

    method TakeMdSync(env: Env, io: Io, now: U64) returns (result: int)
      modifies this
      ensures (Abs(), result) == Handle(txtsLost, old(Abs()), Input(MdSyncSend, env, io, now))
    {
      rcvdMdSync := true;
      result := Sm(env, io, now);
    }

    method TakeTimestamp(t: nat, ghost of: nat, env: Env, io: Io, now: U64)
      modifies this
      ensures Abs() == Handle(txtsLost, old(Abs()), Input(TxTimestamp(t, of), env, io, now)).0
    {
      origins := origins.(syncOf := of);
      stamp := stamp.(rcvdTimestamp := true, syncTs := t);
      var _ := Sm(env, io, now);
    }
  }
}
