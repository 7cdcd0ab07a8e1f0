/** What the sync receiver emits: a safety property of every run, and an exact account of the
    emissions of an enabled two-step port by a much simpler machine. */
module SyncPairing {
  import opened Arith
  import opened SyncReceive

  // ----- safety over every run -----

  predicate PairedAt(e: Emission) { e.sync.id == e.followUp.id && e.out.id == e.sync.id }

  /** Every emission pairs equal ids, and no message is used in two of them. */
  predicate EmissionsSound(emitted: seq<Emission>) {
    && (forall i | 0 <= i < |emitted| :: PairedAt(emitted[i]))
    && (forall i, j | 0 <= i < j < |emitted| ::
          emitted[i].syncNo < emitted[j].syncNo && emitted[i].followUpNo < emitted[j].followUpNo)
  }

  predicate Before(emitted: seq<Emission>, syncNo: nat, followUpNo: nat) {
    forall i | 0 <= i < |emitted| :: emitted[i].syncNo <= syncNo && emitted[i].followUpNo <= followUpNo
  }

  predicate SyncUnused(emitted: seq<Emission>, syncNo: nat) {
    forall i | 0 <= i < |emitted| :: emitted[i].syncNo < syncNo
  }

  predicate FollowUpUnused(emitted: seq<Emission>, followUpNo: nat) {
    forall i | 0 <= i < |emitted| :: emitted[i].followUpNo < followUpNo
  }

  /** A Sync that is still to be paired, and a Follow_Up still to be looked at, are unused. */
  predicate Inv(s: State) {
    && EmissionsSound(s.emitted)
    && Before(s.emitted, s.seen.syncs, s.seen.followUps)
    && (s.rx.rcvdSync || s.state.WaitFollowUp? ==> SyncUnused(s.emitted, s.seen.syncs))
    && (s.rx.rcvdFollowUp ==> FollowUpUnused(s.emitted, s.seen.followUps))
  }

  /** About to emit: the buffers hold an unused pair. */
  predicate Ready(s: State) {
    s.state.WaitSync? && s.last != WaitSync ==>
      s.rx.rcvdFollowUp && s.rx.followUp.id == s.rx.sync.id && SyncUnused(s.emitted, s.seen.syncs)
  }

  lemma EmitKeepsInv(s: State)
    requires Inv(s) && SyncUnused(s.emitted, s.seen.syncs) && s.rx.rcvdFollowUp
    requires s.rx.followUp.id == s.rx.sync.id && s.state.WaitSync?
    ensures Inv(WaitSyncProc(s))
  {
  }

  /** A pass that does not emit raises no flag, and goes on to emit only from
      WAITING_FOR_FOLLOW_UP with a Follow_Up that matches. */
  lemma QuietPass(env: Env, now: nat, s: State)
    requires !env.oneStepReceive && !(s.state.WaitSync? && s.last != WaitSync)
    ensures var s' := Iterate(env, now, s).s;
            && Iterate(env, now, s).Go?
            && s'.emitted == s.emitted && s'.seen == s.seen
            && (s'.rx.rcvdSync ==> s.rx.rcvdSync)
            && (s'.rx.rcvdFollowUp ==> s.rx.rcvdFollowUp)
            && (s'.state.WaitFollowUp? ==> s.rx.rcvdSync || s.state.WaitFollowUp?)
            && (s'.state.WaitSync? && s'.last != WaitSync ==>
                  s.state.WaitFollowUp? && s'.rx.rcvdFollowUp && s'.rx.followUp.id == s'.rx.sync.id)
  {
  }

  lemma PassKeepsInv(env: Env, now: nat, s: State)
    requires Inv(s) && Ready(s) && !env.oneStepReceive
    ensures Inv(Iterate(env, now, s).s) && Ready(Iterate(env, now, s).s)
    ensures Iterate(env, now, s).Done? ==> Iterate(env, now, s).s.last == Iterate(env, now, s).s.state
  {
    if s.state.WaitSync? && s.last != WaitSync {
      EmitKeepsInv(s.(last := s.state));
      assert Iterate(env, now, s).s == WaitSyncProc(s.(last := s.state));
    } else {
      QuietPass(env, now, s);
    }
  }

  lemma DispatchKeepsInv(env: Env, now: nat, s: State)
    requires Inv(s) && Ready(s) && !env.oneStepReceive
    ensures Inv(Dispatch(env, now, s)) && Dispatch(env, now, s).last == Dispatch(env, now, s).state
    decreases Rank(s)
  {
    var step := Iterate(env, now, s);
    PassKeepsInv(env, now, s);
    PassLowersRank(env, now, s);
    if step.Go? && step.s.last != step.s.state {
      DispatchKeepsInv(env, now, step.s);
    }
  }

  lemma HandleKeepsInv(s: State, i: Input)
    requires Inv(s) && s.last == s.state && !i.env.oneStepReceive
    ensures Inv(Handle(s, i)) && Handle(s, i).last == Handle(s, i).state
  {
    var s1 := Accept(s, i.event);
    DispatchKeepsInv(i.env, i.now, if Enabled(i.env) then s1 else s1.(state := Discard, last := Reaction));
  }

  lemma {:induction false} RunKeepsInv(s: State, inputs: seq<Input>)
    requires Inv(s) && s.last == s.state && forall i <- inputs :: !i.env.oneStepReceive
    ensures Inv(Run(s, inputs))
    decreases |inputs|
  {
    if inputs != [] {
      HandleKeepsInv(s, inputs[0]);
      RunKeepsInv(Handle(s, inputs[0]), inputs[1..]);
    }
  }

  /** Over every event sequence, with one-step or two-step Syncs, lost and late messages, and a
      port going up and down: each emission pairs equal ids and nothing is used twice. */
  lemma EmissionsAreSound(inputs: seq<Input>)
    requires forall i <- inputs :: !i.env.oneStepReceive
    ensures EmissionsSound(Run(Boot(), inputs).emitted)
  {
    RunKeepsInv(Boot(), inputs);
  }

  // ----- the simple machine -----

  /** What a two-step port has in hand between two events. */
  datatype Pending = Idle | Early(followUp: FollowUp) | Await(sync: Sync, deadline: nat)

  datatype Reply = Reply(pending: Pending, pair: Option<(Sync, FollowUp)>)

  function Expire(sync: Sync, deadline: nat, now: nat): Reply {
    Reply(if now >= deadline then Idle else Await(sync, deadline), None)
  }

  function React(p: Pending, event: Event, now: nat): Reply {
    match event
    case RecvSync(sync, _) =>
      if p.Early? && p.followUp.id == sync.id then Reply(Idle, Some((sync, p.followUp)))
      else Expire(sync, now + sync.interval, now)
    case RecvFollowUp(fup) =>
      if !p.Await? then Reply(Early(fup), None)
      else if fup.id == p.sync.id then Reply(Idle, Some((p.sync, fup)))
      else Expire(p.sync, p.deadline, now)
    case Tick => if p.Await? then Expire(p.sync, p.deadline, now) else Reply(p, None)
  }

  /** A port that is down, and a one-step Sync, make a two-step port forget what it has. */
  function Answer(p: Pending, i: Input): Reply {
    if !Enabled(i.env) || (i.event.RecvSync? && !i.event.sync.twoStep) then Reply(Idle, None)
    else React(p, i.event, i.now)
  }

  function PendingOf(s: State): Pending {
    if s.state.WaitFollowUp? then Await(s.rx.sync, s.deadline)
    else if s.rx.rcvdFollowUp then Early(s.rx.followUp)
    else Idle
  }

  /** A port that has left INIT and handled its last event under a two-step configuration. */
  predicate AtRest(s: State) {
    && s.last == s.state && !s.rx.rcvdSync
    && (s.state.Discard? || s.state.WaitSync? || (s.state.WaitFollowUp? && !s.rx.rcvdFollowUp))
  }

  /** A port configured for two-step operation, enabled or not. */
  predicate TwoStepPort(env: Env) { !env.asymmetry && !env.oneStepReceive }

  /** Such a port is enabled, and any Sync is a two-step one. */
  predicate TwoStep(i: Input) {
    TwoStepPort(i.env) && Enabled(i.env) && (i.event.RecvSync? ==> i.event.sync.twoStep)
  }

  predicate Emits(s: State, s': State, pair: Option<(Sync, FollowUp)>) {
    match pair
    case None => s'.emitted == s.emitted
    case Some((sync, fup)) =>
      |s'.emitted| == |s.emitted| + 1 && s.emitted <= s'.emitted
      && s'.emitted[|s.emitted|].sync == sync && s'.emitted[|s.emitted|].followUp == fup
  }

  predicate Refined(s: State, s': State, r: Reply) {
    AtRest(s') && PendingOf(s') == r.pending && Emits(s, s', r.pair)
  }

  /** Entering WAITING_FOR_FOLLOW_UP with a new Sync. */
  lemma NewSyncRefines(env: Env, now: nat, s: State)
    requires Enabled(env) && !env.asymmetry && !env.oneStepReceive
    requires s.state.WaitFollowUp? && s.last != WaitFollowUp && s.rx.sync.twoStep
    ensures var p := if s.rx.rcvdFollowUp then Early(s.rx.followUp) else Idle;
            Refined(s, Dispatch(env, now, s), React(p, RecvSync(s.rx.sync, s.ingress), now))
  {
    var s1 := Iterate(env, now, s).s;
    if s1.state.WaitSync? {
      var s2 := Iterate(env, now, s1).s;
      assert Dispatch(env, now, s1) == s2;
    } else if s1.state.Discard? {
      var s2 := Iterate(env, now, s1).s;
      assert Dispatch(env, now, s1) == s2;
    }
  }

  lemma SyncRefines(s: State, i: Input)
    requires AtRest(s) && TwoStep(i) && i.event.RecvSync?
    ensures Refined(s, Handle(s, i), Answer(PendingOf(s), i))
  {
    var s0 := Accept(s, i.event);
    var s1 := Iterate(i.env, i.now, s0).s;
    assert Dispatch(i.env, i.now, s0) == Dispatch(i.env, i.now, s1);
    NewSyncRefines(i.env, i.now, s1);
  }

  lemma OtherRefines(s: State, i: Input)
    requires AtRest(s) && TwoStep(i) && !i.event.RecvSync?
    ensures Refined(s, Handle(s, i), Answer(PendingOf(s), i))
  {
    var s0 := Accept(s, i.event);
    var s1 := Iterate(i.env, i.now, s0).s;
    if s1.last != s1.state {
      var s2 := Iterate(i.env, i.now, s1).s;
      assert Dispatch(i.env, i.now, s1) == s2;
    }
  }

  /** The call goes through DISCARD, which forgets everything. */
  lemma ForgettingRefines(s: State, i: Input)
    requires AtRest(s) && TwoStepPort(i.env) && !TwoStep(i)
    ensures Refined(s, Handle(s, i), Answer(PendingOf(s), i))
  {
    var s0 := Accept(s, i.event);
    var s1 := if Enabled(i.env) then s0 else s0.(state := Discard, last := Reaction);
    var s2 := Iterate(i.env, i.now, s1).s;
    if s2.last != s2.state {
      var s3 := Iterate(i.env, i.now, s2).s;
      assert Dispatch(i.env, i.now, s2) == s3;
    }
  }

  lemma CallRefines(s: State, i: Input)
    requires AtRest(s) && TwoStepPort(i.env)
    ensures Refined(s, Handle(s, i), Answer(PendingOf(s), i))
  {
    if !TwoStep(i) {
      ForgettingRefines(s, i);
    } else if i.event.RecvSync? {
      SyncRefines(s, i);
    } else {
      OtherRefines(s, i);
    }
  }

  function Pairs(p: Pending, inputs: seq<Input>): seq<(Sync, FollowUp)>
    decreases |inputs|
  {
    if inputs == [] then []
    else
      var r := Answer(p, inputs[0]);
      AsList(r.pair) + Pairs(r.pending, inputs[1..])
  }

  function PairsOf(emitted: seq<Emission>): seq<(Sync, FollowUp)> {
    seq(|emitted|, i requires 0 <= i < |emitted| => (emitted[i].sync, emitted[i].followUp))
  }

  function AsList(pair: Option<(Sync, FollowUp)>): seq<(Sync, FollowUp)> {
    if pair.Some? then [pair.value] else []
  }

  lemma EmittedPairs(s: State, s': State, pair: Option<(Sync, FollowUp)>)
    requires Emits(s, s', pair)
    ensures PairsOf(s'.emitted) == PairsOf(s.emitted) + AsList(pair)
  {
  }

  /** In every run of a two-step port, going up and down, the emissions are exactly those of the
      simple machine, in the same order. */
  lemma {:induction false} RunRefinesPairing(s: State, inputs: seq<Input>)
    requires AtRest(s) && forall i <- inputs :: TwoStepPort(i.env)
    ensures PairsOf(Run(s, inputs).emitted) == PairsOf(s.emitted) + Pairs(PendingOf(s), inputs)
    ensures AtRest(Run(s, inputs))
    decreases |inputs|
  {
    hide Handle, Answer, PairsOf, Emits, AtRest, PendingOf;
    if inputs != [] {
      assert inputs[0] in inputs;
      CallRefines(s, inputs[0]);
      var r := Answer(PendingOf(s), inputs[0]);
      EmittedPairs(s, Handle(s, inputs[0]), r.pair);
      RunRefinesPairing(Handle(s, inputs[0]), inputs[1..]);
      assert Pairs(PendingOf(s), inputs) == AsList(r.pair) + Pairs(r.pending, inputs[1..]);
    }
  }

  /** What may come between a Sync and its Follow_Up: ticks and Follow_Ups of other Syncs, all
      before the deadline. */
  predicate WhileWaiting(i: Input, id: U16, deadline: nat) {
    && TwoStep(i) && !i.event.RecvSync? && i.now < deadline
    && (i.event.RecvFollowUp? ==> i.event.followUp.id != id)
  }

  lemma {:induction false} PairsWhileWaiting(sync: Sync, deadline: nat, between: seq<Input>, rest: seq<Input>)
    requires forall i <- between :: WhileWaiting(i, sync.id, deadline)
    ensures Pairs(Await(sync, deadline), between + rest) == Pairs(Await(sync, deadline), rest)
    decreases |between|
  {
    if between == [] {
      assert between + rest == rest;
    } else {
      assert between[0] in between;
      assert (between + rest)[0] == between[0] && (between + rest)[1..] == between[1..] + rest;
      PairsWhileWaiting(sync, deadline, between[1..], rest);
    }
  }

  lemma {:induction false} PairsOverTicks(p: Pending, between: seq<Input>, rest: seq<Input>)
    requires !p.Await? && forall i <- between :: TwoStep(i) && i.event.Tick?
    ensures Pairs(p, between + rest) == Pairs(p, rest)
    decreases |between|
  {
    if between == [] {
      assert between + rest == rest;
    } else {
      assert between[0] in between;
      assert (between + rest)[0] == between[0] && (between + rest)[1..] == between[1..] + rest;
      PairsOverTicks(p, between[1..], rest);
    }
  }

  lemma PairsOfFirst(p: Pending, first: Input, rest: seq<Input>)
    ensures var r := Answer(p, first);
            Pairs(p, [first] + rest) == AsList(r.pair) + Pairs(r.pending, rest)
  {
    assert ([first] + rest)[0] == first && ([first] + rest)[1..] == rest;
  }

  lemma PairsOfLast(p: Pending, last: Input)
    ensures var r := Answer(p, last);
            Pairs(p, [last]) == AsList(r.pair)
  {
    assert [last][1..] == [];
  }

  /** A Sync and then its Follow_Up, with any number of ticks and of other Follow_Ups before the
      deadline in between: exactly one emission, however late the Follow_Up itself is handled. */
  lemma InOrderPairEmitsOnce(s: State, first: Input, between: seq<Input>, second: Input)
    requires AtRest(s) && TwoStep(first) && TwoStep(second)
    requires first.event.RecvSync? && second.event.RecvFollowUp? && first.event.sync.interval > 0
    requires forall i <- between :: WhileWaiting(i, first.event.sync.id, first.now + first.event.sync.interval)
    requires second.event.followUp.id == first.event.sync.id
    requires PendingOf(s).Early? ==> PendingOf(s).followUp.id != first.event.sync.id
    ensures PairsOf(Run(s, [first] + (between + [second])).emitted)
            == PairsOf(s.emitted) + [(first.event.sync, second.event.followUp)]
  {
    hide Run, PairsOf, Pairs, PendingOf, AtRest;
    var sync := first.event.sync;
    var inputs := [first] + (between + [second]);
    assert forall i <- inputs :: TwoStepPort(i.env);
    RunRefinesPairing(s, inputs);
    PairsOfFirst(PendingOf(s), first, between + [second]);
    PairsWhileWaiting(sync, first.now + sync.interval, between, [second]);
    PairsOfLast(Await(sync, first.now + sync.interval), second);
  }

  /** What is in hand while a port waits for the Follow_Up of another Sync, over ticks. */
  lemma {:induction false} PairsWhileAway(
      sync: Sync, deadline: nat, between: seq<Input>, second: Input)
    requires TwoStep(second) && second.event.RecvSync?
    requires forall i <- between :: TwoStep(i) && i.event.Tick?
    ensures Pairs(Await(sync, deadline), between + [second]) == []
    decreases |between|
  {
    if between == [] {
      assert between + [second] == [second];
      PairsOfLast(Await(sync, deadline), second);
    } else {
      var rest := between[1..] + [second];
      assert between[0] in between && between + [second] == [between[0]] + rest;
      PairsOfFirst(Await(sync, deadline), between[0], rest);
      if between[0].now >= deadline {
        PairsOverTicks(Idle, between[1..], [second]);
        PairsOfLast(Idle, second);
      } else {
        PairsWhileAway(sync, deadline, between[1..], second);
      }
    }
  }

  /** A Follow_Up before its Sync, with any number of ticks in between, is honoured exactly when
      the port is not already waiting for the Follow_Up of another Sync. */
  lemma EarlyFollowUpHonouredIff(s: State, first: Input, between: seq<Input>, second: Input)
    requires AtRest(s) && TwoStep(first) && TwoStep(second)
    requires first.event.RecvFollowUp? && second.event.RecvSync?
    requires forall i <- between :: TwoStep(i) && i.event.Tick?
    requires second.event.sync.id == first.event.followUp.id
    requires s.state.WaitFollowUp? ==> s.rx.sync.id != first.event.followUp.id
    ensures PairsOf(Run(s, [first] + (between + [second])).emitted)
            == PairsOf(s.emitted)
               + if s.state.WaitFollowUp? then [] else [(second.event.sync, first.event.followUp)]
  {
    hide Run, PairsOf, Pairs, AtRest;
    var inputs := [first] + (between + [second]);
    assert forall i <- inputs :: TwoStepPort(i.env);
    RunRefinesPairing(s, inputs);
    PairsOfFirst(PendingOf(s), first, between + [second]);
    if !s.state.WaitFollowUp? {
      PairsOverTicks(Early(first.event.followUp), between, [second]);
      PairsOfLast(Early(first.event.followUp), second);
    } else if first.now >= s.deadline {
      PairsOverTicks(Idle, between, [second]);
      PairsOfLast(Idle, second);
    } else {
      PairsWhileAway(s.rx.sync, s.deadline, between, second);
    }
  }

  // ----- from power-up -----

  /** Any first call, of a port that is up or down, brings it to rest with nothing in hand. */
  lemma FirstCallBringsToRest(i: Input)
    ensures AtRest(Handle(Boot(), i)) && PendingOf(Handle(Boot(), i)) == Idle
    ensures Handle(Boot(), i).emitted == []
  {
    var s0 := Accept(Boot(), i.event);
    var s1 := if Enabled(i.env) then s0 else s0.(state := Discard, last := Reaction);
    var s2 := Iterate(i.env, i.now, s1).s;
    if s2.last != s2.state {
      var s3 := Iterate(i.env, i.now, s2).s;
      assert Dispatch(i.env, i.now, s2) == s3;
    }
  }

  /** So every run from power-up is accounted for: whatever the first call is, the emissions are
      those of the simple machine over all the calls after it. */
  lemma RunFromPowerUp(first: Input, rest: seq<Input>)
    requires forall i <- rest :: TwoStepPort(i.env)
    ensures PairsOf(Run(Boot(), [first] + rest).emitted) == Pairs(Idle, rest)
    ensures AtRest(Run(Boot(), [first] + rest))
  {
    FirstCallBringsToRest(first);
    assert ([first] + rest)[1..] == rest;
    assert PairsOf([]) == [];
    RunRefinesPairing(Handle(Boot(), first), rest);
  }

  /** A Sync and its Follow_Up are emitted, however early, if only some call came before. */
  lemma FirstPairIsEmitted(first: Input, sync: Input, fup: Input)
    requires TwoStep(sync) && TwoStep(fup) && sync.event.RecvSync? && fup.event.RecvFollowUp?
    requires fup.event.followUp.id == sync.event.sync.id && sync.event.sync.interval > 0
    ensures PairsOf(Run(Boot(), [first, sync, fup]).emitted) == [(sync.event.sync, fup.event.followUp)]
  {
    assert [first, sync, fup] == [first] + [sync, fup] && [sync, fup] == [sync] + [fup];
    RunFromPowerUp(first, [sync, fup]);
    PairsOfFirst(Idle, sync, [fup]);
    PairsOfLast(Answer(Idle, sync).pending, fup);
  }

  // ----- messages that are thrown away -----

  /** Entering DISCARD with the message of this event still to be looked at: its flag is cleared. */
  predicate ThrownAway(s: State, event: Event) {
    && s.state == Discard && s.last != Discard
    && ((event.RecvSync? && s.rx.rcvdSync) || (event.RecvFollowUp? && s.rx.rcvdFollowUp))
  }

  /** Some pass of the loop throws the message away. */
  predicate LoopThrowsAway(env: Env, now: nat, s: State, event: Event)
    decreases Rank(s)
  {
    PassLowersRank(env, now, s);
    var step := Iterate(env, now, s);
    ThrownAway(s, event) || (step.Go? && step.s.last != step.s.state && LoopThrowsAway(env, now, step.s, event))
  }

  predicate CallThrowsAway(s: State, i: Input) {
    var s0 := Accept(s, i.event);
    LoopThrowsAway(i.env, i.now, if Enabled(i.env) then s0 else s0.(state := Discard, last := Reaction), i.event)
  }

  /** A port at rest looks at every message before it enters DISCARD. */
  lemma RestThrowsNothingAway(s: State, i: Input)
    requires AtRest(s) && TwoStep(i)
    ensures !CallThrowsAway(s, i)
  {
    var s0 := Accept(s, i.event);
    var s1 := Iterate(i.env, i.now, s0).s;
    if s1.last != s1.state {
      NewLoopThrowsNothingAway(i.env, i.now, s1, i.event);
    }
  }

  /** The loop from its second pass on. */
  lemma NewLoopThrowsNothingAway(env: Env, now: nat, s: State, event: Event)
    requires Enabled(env) && TwoStepPort(env) && (s.rx.rcvdSync ==> s.rx.sync.twoStep)
    requires s.state == WaitFollowUp || s.state == WaitSync
             || (s.state == Discard && !s.rx.rcvdSync && (event.RecvFollowUp? ==> !s.rx.rcvdFollowUp))
    requires s.last != s.state && (s.state == WaitFollowUp ==> event.RecvSync?)
    ensures !LoopThrowsAway(env, now, s, event)
  {
    var s1 := Iterate(env, now, s).s;
    if s.state == WaitFollowUp && s1.state == WaitSync {
      assert Iterate(env, now, s1).Done?;
    }
  }

  /** When the first messages after power-up are lost. A message that an enabled two-step port
      receives is thrown away unread if and only if no call at all, not even a tick and not even
      while the port was down, came before it. */
  lemma ThrownAwayIffFirst(before: seq<Input>, i: Input)
    requires (forall j <- before :: TwoStepPort(j.env)) && TwoStep(i) && !i.event.Tick?
    ensures CallThrowsAway(Run(Boot(), before), i) <==> before == []
  {
    if before == [] {
      var s0 := Accept(Boot(), i.event);
      var s1 := Iterate(i.env, i.now, s0).s;
      assert Run(Boot(), before) == Boot();
      assert ThrownAway(s1, i.event) && LoopThrowsAway(i.env, i.now, s1, i.event);
    } else {
      assert before == [before[0]] + before[1..];
      RunFromPowerUp(before[0], before[1..]);
      RestThrowsNothingAway(Run(Boot(), before), i);
    }
  }
}
