/** The MDPdelayReq state machine (tsn_gptp/md_pdelay_req_sm.c) as a function from
    machine state and event to machine state. `PdelayReqMachine` holds the machine that
    updates its fields in place; it is proved to compute exactly these functions. */
module PdelayReq {
  import opened Arith

  datatype Phase =
    | Init | NotEnabled | InitialSend | Reset | Send
    | WaitResp | WaitFollowUp | WaitInterval | Reaction

  datatype PortIdentity = PortIdentity(clock: U64, port: U16)

  datatype Resp = Resp(
    id: U16, source: PortIdentity, requesting: PortIdentity,
    majorSdo: nat, receiptSec: U32, receiptNs: U32)

  datatype FollowUp = FollowUp(
    id: U16, source: PortIdentity, majorSdo: nat, originSec: U32, originNs: U32)

  /** Values that stay the same for a whole run. `network` is whether gpnetd is non-null;
      `fixedDelay` is NEIGHBOR_PROP_DELAY, where 0 means "measure it". */
  datatype Config = Config(
    thisClock: U64, thisPort: U16, allowedLost: U16, allowedFaults: U16,
    thresh: nat, minLimit: nat, avnu: bool, fixedDelay: nat, txtsLost: nat, network: bool)

  /** Globals that other parts of the daemon may change between two calls.
      `suspended` is currentLogPdelayReqInterval == 127. */
  datatype Env = Env(
    begin: bool, portOper: bool, portEnabled: bool, suspended: bool, interval: nat,
    computeRatio: bool, computeDelay: bool, asymmetry: bool)

  /** What the outside answers during one call: rand(), the result of the send (-1 failed,
      other negative: sent but no hardware timestamp will come) and the device clock. */
  datatype Io = Io(rand: U16, sendResult: int, deviceTime: nat)

  datatype Verdict = Good | Faulty | Unrated | Skipped

  /** The four timestamps of an exchange, and t1 and t2 of the exchange before it. */
  datatype Stamps = Stamps(t1: nat, t2: nat, t3: nat, t4: nat, prevT1: nat, prevT2: nat)

  /** What a completed exchange was judged on: its stamps, whether their spacings were usable,
      whether a delay was computed, the ratio and the delay that were in place then, the
      messages in hand, and the id of the request they were to answer. */
  datatype Round = Round(
    ts: Stamps, usable: bool, timed: bool, ratio: real, delay: nat, mail: Mailbox, txSeq: U16)

  /** History of what the machine did; no branch of the machine reads it. */
  datatype Act =
    | InitialSent(id: U16)
    | InitialFailed
    | RequestSent(id: U16)
    | RequestFailed
    | TimestampLost
    | ResetEntered(cleared: bool)
    | Completed(verdict: Verdict, sample: Option<real>, round: Round)
    | CapableCleared

  /** The received messages and whether each is still to be looked at. */
  datatype Mailbox = Mailbox(rcvdResp: bool, resp: Resp, rcvdFollowUp: bool, followUp: FollowUp)

  /** The request in flight. */
  datatype Sender = Sender(rcvdTimestamp: bool, seqId: U16, txSeq: U16, timer: nat, mockTs: nat)

  /** What is known about the link, and the counters that decide how long to believe it. */
  datatype Link = Link(
    lost: U16, faults: U16, multi: U16, ratioValid: bool,
    ratio: real, propDelay: nat, measuring: bool, asCapable: bool)

  datatype State = State(
    state: Phase, last: Phase, rx: Mailbox, tx: Sender, ts: Stamps, link: Link, log: seq<Act>)

  datatype Event =
    | Tick
    | TxTimestamp(id: U16, t1: nat)
    | RecvResp(resp: Resp, t4: nat)
    | RecvFollowUp(followUp: FollowUp)
    | DeviceDown

  datatype Input = Input(event: Event, env: Env, io: Io, now: U64)

  /** One pass of the dispatch loop: continue, or return with the given result. */
  datatype Step = Go(s: State) | Done(s: State, result: int)

  const NS_10MS := SEC_NS / 100
  const CEASE_TIME := 5 * 60 * SEC_NS

  function Record(s: State, act: Act): State { s.(log := s.log + [act]) }

  predicate IntervalExpired(env: Env, timer: nat, now: U64) { Sub64(now, timer) >= env.interval }

  predicate TxTimestampLost(cfg: Config, timer: nat, now: U64) { Sub64(now, timer) >= cfg.txtsLost }

  predicate KnownSdo(majorSdo: nat) { majorSdo == 1 || majorSdo == 2 }

  // ----- measurement -----

  predicate InWindow(env: Env, dt: U64) {
    env.interval / 2 < dt < env.interval + env.interval / 2
  }

  predicate SpacingsUsable(env: Env, ts: Stamps) {
    InWindow(env, Sub64(ts.t1, ts.prevT1)) && InWindow(env, Sub64(ts.t2, ts.prevT2))
  }

  /** The newest observation of the neighbour's rate: 1 when a spacing is off by 50 % or more. */
  function RateSample(env: Env, ts: Stamps): real {
    if SpacingsUsable(env, ts)
    then (ts.t2 - ts.prevT2) as real / (ts.t1 - ts.prevT1) as real
    else 1.0
  }

  /** computePdelayRateRatio: a rolling average with the sample. */
  function ComputeRateRatio(env: Env, ts: Stamps, link: Link): Link {
    link.(ratio := (link.ratio + RateSample(env, ts)) / 2.0,
          ratioValid := link.ratioValid || SpacingsUsable(env, ts))
  }

  /** Half of the round trip, before the range check. */
  function HalfRoundTrip(ratio: real, t1: int, t2: int, t3: int, t4: int): int {
    DivC(Trunc(ratio * (t4 - t1) as real) - (t3 - t2), 2)
  }

  function ComputePropTime(ratio: real, t1: int, t2: int, t3: int, t4: int): nat {
    var rts := HalfRoundTrip(ratio, t1, t2, t3, t4);
    if rts < 0 || rts > NS_10MS then 0 else rts
  }

  // ----- what the actions do to the link record -----

  function ClearLink(link: Link): Link {
    link.(measuring := false, asCapable := false, ratioValid := false, ratio := 1.0)
  }

  /** Whether RESET gives up on the link: more losses in a row than are allowed. */
  predicate GivesUp(cfg: Config, link: Link) { link.lost >= cfg.allowedLost && link.asCapable }

  function LoseResponse(cfg: Config, link: Link): Link {
    if link.lost < cfg.allowedLost then link.(lost := link.lost + 1)
    else if link.asCapable then ClearLink(link)
    else link.(measuring := false)
  }

  /** The AVnu rule: too many exchanges answered more than once. It is not reached when the
      link was already not capable and all allowed losses are used up. */
  predicate AvnuCeases(cfg: Config, link: Link) {
    cfg.avnu && link.multi != 0 && link.multi >= cfg.allowedLost
    && (link.lost < cfg.allowedLost || link.asCapable)
  }

  function ResetLink(cfg: Config, link: Link): Link {
    var link1 := LoseResponse(cfg, link);
    if AvnuCeases(cfg, link) then ClearLink(link1) else link1
  }

  /** The measurement of a completed exchange. */
  function Measure(env: Env, ts: Stamps, link: Link): Link {
    var link1 := if env.computeRatio then ComputeRateRatio(env, ts, link) else link.(ratioValid := true);
    var link2 := if env.computeDelay
                 then link1.(propDelay := ComputePropTime(link1.ratio, ts.t1, ts.t2, ts.t3, ts.t4))
                 else link1;
    link2.(measuring := true)
  }

  /** Faulty also covers an answer that came from this very clock. */
  function Classify(cfg: Config, foreign: bool, link: Link): Verdict {
    if link.propDelay < cfg.minLimit && foreign && link.ratioValid then Faulty
    else if link.propDelay <= cfg.thresh && foreign && link.ratioValid then Good
    else if foreign && !link.ratioValid then Unrated
    else Faulty
  }

  function NotCapable(link: Link): Link {
    link.(asCapable := false, measuring := false, faults := 0)
  }

  /** Decide on asCapable with the new delay in place; `prev` is the delay it replaced. */
  function Judge(cfg: Config, verdict: Verdict, prev: nat, link: Link): Link {
    match verdict
    case Good => link.(faults := 0, asCapable := true)
    case Unrated => NotCapable(link)
    case Faulty =>
      if link.faults <= cfg.allowedFaults
      then link.(faults := Succ16(link.faults), propDelay := prev)
      else NotCapable(link)
    case Skipped => link
  }

  // ----- actions and conditions of each state -----

  function NotEnabledProc(cfg: Config, s: State): State {
    if cfg.fixedDelay != 0
    then s.(link := s.link.(ratio := 1.0, asCapable := true, propDelay := cfg.fixedDelay))
    else s
  }

  function NotEnabledCondition(cfg: Config, env: Env, s: State): Phase {
    if cfg.fixedDelay != 0 then
      if !s.link.asCapable then Reaction else NotEnabled
    else
      if env.portOper && env.portEnabled then InitialSend else NotEnabled
  }

  function Transmitted(io: Io, now: U64, id: U16, tx: Sender): Sender {
    tx.(seqId := id, txSeq := id, timer := now,
        mockTs := if io.sendResult < 0 then io.deviceTime else tx.mockTs)
  }

  function InitialSendProc(cfg: Config, io: Io, now: U64, s: State): Step {
    var tx := s.tx.(rcvdTimestamp := false, seqId := io.rand);
    var s1 := s.(rx := s.rx.(rcvdResp := false, rcvdFollowUp := false), tx := tx,
                 ts := s.ts.(prevT1 := 0, prevT2 := 0), link := s.link.(ratio := 1.0));
    if !cfg.network then
      Go(Record(s1, InitialFailed).(state := NotEnabled))
    else if io.sendResult == -1 then
      Done(Record(s1, InitialFailed).(tx := tx.(txSeq := io.rand), last := Reaction), 1)
    else
      Done(Record(s1, InitialSent(io.rand)).(
             tx := Transmitted(io, now, io.rand, tx),
             link := s1.link.(lost := 0, multi := 0, faults := 0, measuring := false, asCapable := false)), 1)
  }

  function UseMockTimestamp(s: State): State {
    s.(ts := s.ts.(t1 := s.tx.mockTs), tx := s.tx.(mockTs := 0), state := WaitResp)
  }

  function InitialSendCondition(cfg: Config, env: Env, now: U64, s: State): State {
    if env.suspended then s
    else if s.tx.rcvdTimestamp then s.(state := WaitResp)
    else if !TxTimestampLost(cfg, s.tx.timer, now) then s
    else if s.tx.mockTs != 0 then UseMockTimestamp(s)
    else Record(s, TimestampLost).(last := Reaction)
  }

  function ResetProc(cfg: Config, s: State): State {
    Record(s, ResetEntered(GivesUp(cfg, s.link) || AvnuCeases(cfg, s.link))).(
      rx := s.rx.(rcvdResp := false), link := ResetLink(cfg, s.link))
  }

  function ResetCondition(cfg: Config, env: Env, now: U64, s: State): State {
    if !(cfg.avnu && s.link.multi >= cfg.allowedLost) then
      if IntervalExpired(env, s.tx.timer, now) then s.(state := Send) else s
    else if Sub64(now, s.tx.timer) < CEASE_TIME then s
    else
      var s1 := s.(link := s.link.(multi := 0));
      if IntervalExpired(env, s.tx.timer, now) then s1.(state := Send) else s1
  }

  function SendProc(cfg: Config, io: Io, now: U64, s: State): Step {
    var id := Succ16(s.tx.seqId);
    var s1 := s.(rx := s.rx.(rcvdResp := false, rcvdFollowUp := false));
    if !cfg.network then
      Go(s1.(tx := s.tx.(seqId := id), state := Reset))
    else if io.sendResult == -1 then
      Done(Record(s1, RequestFailed).(tx := s.tx.(txSeq := id, seqId := Pred16(id)), last := Reaction), 1)
    else
      Done(Record(s1, RequestSent(id)).(tx := Transmitted(io, now, id, s.tx)), 1)
  }

  function SendCondition(cfg: Config, now: U64, s: State): State {
    if s.tx.rcvdTimestamp then s.(state := WaitResp)
    else if !TxTimestampLost(cfg, s.tx.timer, now) then s
    else if s.tx.mockTs != 0 then UseMockTimestamp(s)
    else Record(s, TimestampLost).(tx := s.tx.(seqId := Pred16(s.tx.seqId)), last := Reaction)
  }

  function WaitRespCondition(cfg: Config, env: Env, now: U64, timer: nat, txSeq: U16, rx: Mailbox): Phase {
    if IntervalExpired(env, timer, now) then Reset
    else if !rx.rcvdResp then WaitResp
    else if rx.resp.source.clock == cfg.thisClock then Reset
    else if rx.resp.requesting != PortIdentity(cfg.thisClock, cfg.thisPort) then Reset
    else if !KnownSdo(rx.resp.majorSdo) then WaitResp
    else if rx.resp.id > txSeq then Reset
    else WaitFollowUp
  }

  /** A Follow_Up that came before its Resp is kept only if it answers this request. */
  function DropEarlyFollowUp(env: Env, now: U64, s: State): Mailbox {
    if !IntervalExpired(env, s.tx.timer, now) && !s.rx.rcvdResp
       && s.rx.rcvdFollowUp && s.tx.txSeq != s.rx.followUp.id
    then s.rx.(rcvdFollowUp := false)
    else s.rx
  }

  predicate AnsweredTwice(txSeq: U16, rx: Mailbox) { rx.rcvdResp && rx.resp.id == txSeq }

  function WaitFollowUpCondition(cfg: Config, env: Env, now: U64, timer: nat, txSeq: U16, rx: Mailbox): Phase {
    if IntervalExpired(env, timer, now) then Reset
    else if AnsweredTwice(txSeq, rx) then Reset
    else if !rx.rcvdFollowUp then WaitFollowUp
    else if !KnownSdo(rx.followUp.majorSdo) then WaitFollowUp
    else if rx.followUp.source.clock == cfg.thisClock then Reset
    else if rx.followUp.id != txSeq then WaitFollowUp
    else if rx.followUp.source == rx.resp.source then WaitInterval
    else if rx.resp.requesting != PortIdentity(cfg.thisClock, cfg.thisPort) then WaitFollowUp
    else WaitInterval
  }

  function CountMulti(env: Env, now: U64, s: State): Link {
    if !IntervalExpired(env, s.tx.timer, now) && AnsweredTwice(s.tx.txSeq, s.rx)
    then s.link.(multi := Succ16(s.link.multi))
    else s.link
  }

  /** The link with the measurement of the completed exchange in place. */
  function Measured(env: Env, s: State): Link { Measure(env, s.ts, s.link.(lost := 0, multi := 0)) }

  function CompletionAct(cfg: Config, env: Env, s: State): Act {
    if env.asymmetry
    then Completed(Skipped, None, Round(s.ts, false, false, s.link.ratio, s.link.propDelay, s.rx, s.tx.txSeq))
    else
      var link := Measured(env, s);
      Completed(Classify(cfg, s.rx.resp.source.clock != cfg.thisClock, link),
                if env.computeRatio then Some(RateSample(env, s.ts)) else None,
                Round(s.ts, env.computeRatio && SpacingsUsable(env, s.ts), env.computeDelay,
                      link.ratio, link.propDelay, s.rx, s.tx.txSeq))
  }

  /** waiting_for_pdelay_interval_timer_proc: an exchange is complete. */
  function Complete(cfg: Config, env: Env, s: State): State {
    var act := CompletionAct(cfg, env, s);
    Record(s, act).(
      rx := s.rx.(rcvdFollowUp := false),
      link := if env.asymmetry then s.link.(lost := 0, multi := 0)
              else Judge(cfg, act.verdict, s.link.propDelay, Measured(env, s)),
      ts := if env.asymmetry || !env.computeRatio then s.ts
            else s.ts.(prevT1 := s.ts.t1, prevT2 := s.ts.t2))
  }

  // ----- the dispatch loop -----

  function AllStateCondition(env: Env, s: State): Phase {
    if env.begin || !env.portOper || !env.portEnabled then NotEnabled
    else if env.suspended then InitialSend
    else s.state
  }

  /** One pass of the loop body, entered with the state to run already chosen. */
  function Iterate(cfg: Config, env: Env, io: Io, now: U64, s: State): Step {
    var changed := s.last != s.state;
    var s := s.(last := s.state);
    match s.state
    case Init => Go(s.(state := NotEnabled))
    case NotEnabled =>
      var s := if changed then NotEnabledProc(cfg, s) else s;
      Go(s.(state := NotEnabledCondition(cfg, env, s)))
    case InitialSend =>
      if changed then InitialSendProc(cfg, io, now, s) else Go(InitialSendCondition(cfg, env, now, s))
    case Reset =>
      Go(ResetCondition(cfg, env, now, if changed then ResetProc(cfg, s) else s))
    case Send =>
      if changed then SendProc(cfg, io, now, s) else Go(SendCondition(cfg, now, s))
    case WaitResp =>
      var s := if changed then s.(tx := s.tx.(rcvdTimestamp := false)) else s;
      Go(s.(state := WaitRespCondition(cfg, env, now, s.tx.timer, s.tx.txSeq, s.rx),
            rx := DropEarlyFollowUp(env, now, s)))
    case WaitFollowUp =>
      var s := if changed then s.(rx := s.rx.(rcvdResp := false)) else s;
      Go(s.(state := WaitFollowUpCondition(cfg, env, now, s.tx.timer, s.tx.txSeq, s.rx),
            link := CountMulti(env, now, s)))
    case WaitInterval =>
      var s := if changed then Complete(cfg, env, s) else s;
      Go(if IntervalExpired(env, s.tx.timer, now) then s.(state := Send) else s)
    case Reaction => Go(s)
  }

  /** Every pass that does not end the loop lowers this number. */
  function Rank(s: State): nat {
    match s.state
    case Init => 12
    case NotEnabled => 11
    case InitialSend => if s.last == InitialSend then 10 else 9
    case Send => if s.last == Send then 8 else 1
    case WaitResp => 7
    case WaitFollowUp => 6
    case WaitInterval => 5
    case Reset => 4
    case Reaction => 0
  }

  lemma PassLowersRank(cfg: Config, env: Env, io: Io, now: U64, s: State)
    requires cfg.network
    ensures var step := Iterate(cfg, env, io, now, s);
            step.Go? && step.s.last != step.s.state ==> Rank(step.s) < Rank(s)
  {
    match s.state
    case Init =>
    case NotEnabled =>
    case InitialSend =>
    case Reset =>
    case Send =>
    case WaitResp =>
    case WaitFollowUp =>
    case WaitInterval =>
    case Reaction =>
  }

  /** The while(true) loop. It needs a network handle to end: see NullNetworkSpins. */
  function Dispatch(cfg: Config, env: Env, io: Io, now: U64, s: State): (State, int)
    requires cfg.network
    decreases Rank(s)
  {
    PassLowersRank(cfg, env, io, now, s);
    match Iterate(cfg, env, io, now, s)
    case Done(s', result) => (s', result)
    case Go(s') => if s'.last == s'.state then (s', 0) else Dispatch(cfg, env, io, now, s')
  }

  function Sm(cfg: Config, env: Env, io: Io, now: U64, s: State): (State, int)
    requires cfg.network
  {
    Dispatch(cfg, env, io, now, s.(state := AllStateCondition(env, s)))
  }

  /** What an entry point stores before it runs the machine; None when it returns early. */
  function Accept(s: State, event: Event): Option<State> {
    match event
    case Tick => Some(s)
    case TxTimestamp(id, t1) =>
      if s.state != Send && s.state != InitialSend then None
      else if id != s.tx.seqId then None
      else Some(s.(ts := s.ts.(t1 := t1), tx := s.tx.(rcvdTimestamp := true)))
    case RecvResp(resp, t4) =>
      Some(s.(rx := s.rx.(rcvdResp := true, resp := resp),
              ts := s.ts.(t2 := resp.receiptSec * SEC_NS + resp.receiptNs, t4 := t4)))
    case RecvFollowUp(fup) =>
      Some(s.(rx := s.rx.(rcvdFollowUp := true, followUp := fup),
              ts := s.ts.(t3 := fup.originSec * SEC_NS + fup.originNs)))
    case DeviceDown => None
  }

  function Handle(cfg: Config, s: State, i: Input): (State, int)
    requires cfg.network
  {
    match Accept(s, i.event)
    case Some(s') => Sm(cfg, i.env, i.io, i.now, s')
    case None =>
      // gptpnet_cb_devdown takes the capability away without running the machine
      (if i.event.DeviceDown? then Record(s, CapableCleared).(link := s.link.(asCapable := false)) else s, 0)
  }

  function Run(cfg: Config, s: State, inputs: seq<Input>): State
    requires cfg.network
    decreases |inputs|
  {
    if inputs == [] then s else Run(cfg, Handle(cfg, s, inputs[0]).0, inputs[1..])
  }

  const ZERO_PORT := PortIdentity(0, 0)

  /** The zeroed records of md_pdelay_req_sm_init and of the per-port globals. */
  function Boot(): State {
    State(Init, Init,
          Mailbox(false, Resp(0, ZERO_PORT, ZERO_PORT, 0, 0, 0), false, FollowUp(0, ZERO_PORT, 0, 0, 0)),
          Sender(false, 0, 0, 0, 0), Stamps(0, 0, 0, 0, 0, 0),
          Link(0, 0, 0, false, 0.0, 0, false, false), [])
  }
}
