/** What the sync receiver hands on, in terms of the messages it received: over every run, in one-step
    and in two-step operation. */
module SyncContent {
  import opened Arith
  import opened SyncReceive

  /** The Syncs of a run, in order, each with the time it arrived. */
  function Syncs(inputs: seq<Input>): seq<(Sync, nat)> {
    if inputs == [] then []
    else
      var event := inputs[|inputs| - 1].event;
      Syncs(inputs[..|inputs| - 1]) + if event.RecvSync? then [(event.sync, event.rxTime)] else []
  }

  function FollowUps(inputs: seq<Input>): seq<FollowUp> {
    if inputs == [] then []
    else
      var event := inputs[|inputs| - 1].event;
      FollowUps(inputs[..|inputs| - 1]) + if event.RecvFollowUp? then [event.followUp] else []
  }

  /** `out` is made of a two-step Sync that arrived at `rxTime` and of its Follow_Up: the corrections
      are added as 64-bit numbers and split into nanoseconds and a 16-bit fraction. */
  predicate Joins(out: Out, sync: Sync, rxTime: nat, fup: FollowUp) {
    && out.id == sync.id && out.ingress == rxTime
    && out.correctionNs * 65536 + out.correctionSubns
       == (sync.correction + fup.correction) % 0x1_0000_0000_0000_0000
    && out.correctionSubns < 65536
    && out.originSec == fup.originSec && out.originNs == fup.originNs
  }

  /** `out` is made of a one-step Sync alone. */
  predicate Repeats(out: Out, sync: Sync, rxTime: nat) {
    && out.id == sync.id && out.ingress == rxTime
    && out.correctionNs * 65536 + out.correctionSubns == sync.correction && out.correctionSubns < 65536
    && out.originSec == sync.originSec && out.originNs == sync.originNs
  }

  /** An emission is made of the messages whose ordinal numbers it bears. */
  predicate MadeOf(e: Emission, syncs: seq<(Sync, nat)>, fups: seq<FollowUp>) {
    && 1 <= e.syncNo <= |syncs| && e.sync == syncs[e.syncNo - 1].0
    && if e.sync.twoStep then
         && 1 <= e.followUpNo <= |fups| && e.followUp == fups[e.followUpNo - 1]
         && e.followUp.id == e.sync.id
         && Joins(e.out, syncs[e.syncNo - 1].0, syncs[e.syncNo - 1].1, fups[e.followUpNo - 1])
       else Repeats(e.out, syncs[e.syncNo - 1].0, syncs[e.syncNo - 1].1)
  }

  predicate AllMadeOf(emitted: seq<Emission>, syncs: seq<(Sync, nat)>, fups: seq<FollowUp>) {
    forall e <- emitted :: MadeOf(e, syncs, fups)
  }

  /** The buffers hold the latest messages. */
  predicate Buffered(s: State, syncs: seq<(Sync, nat)>, fups: seq<FollowUp>) {
    && s.seen.syncs == |syncs| && s.seen.followUps == |fups|
    && (syncs != [] ==> syncs[|syncs| - 1] == (s.rx.sync, s.ingress))
    && (fups != [] ==> fups[|fups| - 1] == s.rx.followUp)
    && (s.rx.rcvdSync || s.state.WaitFollowUp? ==> syncs != [])
    && (s.rx.rcvdFollowUp ==> fups != [])
  }

  /** About to emit. */
  predicate InHand(s: State) {
    s.state.WaitSync? && s.last != WaitSync ==>
      && s.seen.syncs > 0
      && (s.rx.sync.twoStep ==> s.rx.rcvdFollowUp && s.rx.followUp.id == s.rx.sync.id)
  }

  predicate Accounted(s: State, syncs: seq<(Sync, nat)>, fups: seq<FollowUp>) {
    Buffered(s, syncs, fups) && AllMadeOf(s.emitted, syncs, fups)
  }

  lemma CombineSays(sync: Sync, fup: FollowUp, ingress: nat)
    ensures var out := Combine(sync, fup, ingress);
            if sync.twoStep then Joins(out, sync, ingress, fup) else Repeats(out, sync, ingress)
  {
  }

  lemma EmitAccounted(s: State, syncs: seq<(Sync, nat)>, fups: seq<FollowUp>)
    requires Accounted(s, syncs, fups) && s.state.WaitSync? && s.last != WaitSync && InHand(s)
    ensures Accounted(WaitSyncProc(s), syncs, fups)
  {
    var e := Emission(s.rx.sync, s.rx.followUp, s.seen.syncs, s.seen.followUps,
                      Combine(s.rx.sync, s.rx.followUp, s.ingress));
    CombineSays(s.rx.sync, s.rx.followUp, s.ingress);
    hide Combine, Joins, Repeats;
    assert MadeOf(e, syncs, fups);
  }

  lemma PassAccounted(env: Env, now: nat, s: State, syncs: seq<(Sync, nat)>, fups: seq<FollowUp>)
    requires Accounted(s, syncs, fups) && InHand(s)
    ensures var step := Iterate(env, now, s);
            && Accounted(step.s, syncs, fups) && InHand(step.s)
            && (step.Done? ==> step.s.last == step.s.state)
  {
    hide AllMadeOf;
    if s.state.WaitSync? && s.last != WaitSync {
      EmitAccounted(s, syncs, fups);
      assert Iterate(env, now, s).s == WaitSyncProc(s.(last := s.state));
    }
  }

  lemma DispatchAccounted(env: Env, now: nat, s: State, syncs: seq<(Sync, nat)>, fups: seq<FollowUp>)
    requires Accounted(s, syncs, fups) && InHand(s)
    ensures var s' := Dispatch(env, now, s);
            Accounted(s', syncs, fups) && s'.last == s'.state
    decreases Rank(s)
  {
    var step := Iterate(env, now, s);
    PassAccounted(env, now, s, syncs, fups);
    PassLowersRank(env, now, s);
    if step.Go? && step.s.last != step.s.state {
      DispatchAccounted(env, now, step.s, syncs, fups);
    }
  }

  lemma MadeOfLonger(emitted: seq<Emission>, syncs: seq<(Sync, nat)>, fups: seq<FollowUp>,
                     syncs': seq<(Sync, nat)>, fups': seq<FollowUp>)
    requires AllMadeOf(emitted, syncs, fups) && syncs <= syncs' && fups <= fups'
    ensures AllMadeOf(emitted, syncs', fups')
  {
    hide Joins, Repeats;
  }

  lemma HandleAccounted(s: State, before: seq<Input>, i: Input)
    requires Accounted(s, Syncs(before), FollowUps(before)) && s.last == s.state
    ensures var s' := Handle(s, i);
            Accounted(s', Syncs(before + [i]), FollowUps(before + [i])) && s'.last == s'.state
  {
    assert (before + [i])[..|before + [i]| - 1] == before;
    var syncs, fups := Syncs(before + [i]), FollowUps(before + [i]);
    MadeOfLonger(s.emitted, Syncs(before), FollowUps(before), syncs, fups);
    hide AllMadeOf;
    var s1 := Accept(s, i.event);
    DispatchAccounted(i.env, i.now, if Enabled(i.env) then s1 else s1.(state := Discard, last := Reaction), syncs, fups);
  }

  lemma {:induction false} RunAccounted(s: State, before: seq<Input>, inputs: seq<Input>)
    requires Accounted(s, Syncs(before), FollowUps(before)) && s.last == s.state
    ensures Accounted(Run(s, inputs), Syncs(before + inputs), FollowUps(before + inputs))
    decreases |inputs|
  {
    hide Accounted, Handle;
    if inputs == [] {
      assert before + inputs == before;
    } else {
      HandleAccounted(s, before, inputs[0]);
      RunAccounted(Handle(s, inputs[0]), before + [inputs[0]], inputs[1..]);
      assert before + [inputs[0]] + inputs[1..] == before + inputs;
    }
  }

  /** In every run from power-up, whatever is lost, late or one-step, each emission is made of
      received messages: the Sync with its number in the run, and if it is a two-step one the
      Follow_Up with its number and the same id. It bears the sum of both corrections, the origin
      time of the Follow_Up, and the time at which that Sync arrived. */
  lemma EmissionsAreMadeOfMessages(inputs: seq<Input>)
    ensures forall e <- Run(Boot(), inputs).emitted :: MadeOf(e, Syncs(inputs), FollowUps(inputs))
  {
    assert [] + inputs == inputs;
    assert Accounted(Boot(), Syncs([]), FollowUps([]));
    RunAccounted(Boot(), [], inputs);
  }

  /** A port that receives one-step Syncs, enabled and at rest, hands each of them on in the call that
      brings it, even if it waits for the Follow_Up of an earlier Sync. */
  lemma OneStepSyncIsEmitted(s: State, i: Input)
    requires (s.state == Discard || s.state == WaitSync || (s.state == WaitFollowUp && !s.rx.rcvdFollowUp))
    requires s.last == s.state && !s.rx.rcvdSync
    requires Enabled(i.env) && !i.env.asymmetry && i.env.oneStepReceive
    requires i.event.RecvSync? && !i.event.sync.twoStep
    ensures var s' := Handle(s, i);
            && |s'.emitted| == |s.emitted| + 1 && s.emitted <= s'.emitted
            && Repeats(s'.emitted[|s.emitted|].out, i.event.sync, i.event.rxTime)
            && s'.state == WaitSync && s'.last == WaitSync
  {
    var s0 := Accept(s, i.event);
    var s1 := Iterate(i.env, i.now, s0).s;
    assert s1 == s0.(state := WaitSync, last := s1.last) && s1.last != WaitSync;
    assert Dispatch(i.env, i.now, s0) == Dispatch(i.env, i.now, s1);
    CombineSays(i.event.sync, s.rx.followUp, i.event.rxTime);
    hide Combine;
    assert Dispatch(i.env, i.now, s1) == Iterate(i.env, i.now, s1).s;
  }

  /** In asymmetry measurement mode a port that is not waiting for a Follow_Up takes no Sync and emits
      nothing, over any run. */
  lemma {:induction false} AsymmetryEmitsNothing(s: State, inputs: seq<Input>)
    requires (s.state == Discard || s.state == WaitSync) && s.last == s.state
    requires forall i <- inputs :: i.env.asymmetry
    ensures Run(s, inputs).emitted == s.emitted
    decreases |inputs|
  {
    if inputs != [] {
      assert inputs[0] in inputs;
      AsymmetricCallIsQuiet(s, inputs[0]);
      hide Handle;
      AsymmetryEmitsNothing(Handle(s, inputs[0]), inputs[1..]);
    }
  }

  lemma AsymmetricCallIsQuiet(s: State, i: Input)
    requires (s.state == Discard || s.state == WaitSync) && s.last == s.state && i.env.asymmetry
    ensures var s' := Handle(s, i);
            s'.emitted == s.emitted && (s'.state == Discard || s'.state == WaitSync) && s'.last == s'.state
  {
    var s0 := Accept(s, i.event);
    var s1 := if Enabled(i.env) then s0 else s0.(state := Discard, last := Reaction);
    var s2 := Iterate(i.env, i.now, s1).s;
    assert s2.last == s2.state;
  }

  /** And one that waits for a Follow_Up then waits without a deadline. */
  lemma AsymmetryWaitsOn(s: State, i: Input)
    requires s.state == WaitFollowUp && s.last == WaitFollowUp && !s.rx.rcvdSync && !s.rx.rcvdFollowUp
    requires Enabled(i.env) && i.event.Tick?
    ensures (Handle(s, i).state == WaitFollowUp) <==> i.env.asymmetry || i.now < s.deadline
    ensures Handle(s, i).emitted == s.emitted
  {
    var s1 := Iterate(i.env, i.now, s).s;
    if s1.state == Discard {
      assert Dispatch(i.env, i.now, s) == Dispatch(i.env, i.now, s1);
      assert Iterate(i.env, i.now, s1).s.last == Discard;
    }
  }
}
