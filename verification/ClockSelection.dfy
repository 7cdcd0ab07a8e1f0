/** Selecting thisClock of a domain (gptpclock_set_thisClock): the published copy, the time that
    is conserved while offsets move between records and hardware, and all runs of the table. */
module ClockSelection {
  import opened Arith
  import opened ClockTable
  import opened ClockProofs

  // ----- the two outcomes of a selection -----

  /** The clock goes to SLAVE_MAIN. */
  predicate TakesMain(t: Table, i: nat)
    requires i < |t.clds|
  {
    t.clds[i].writable && !MainElsewhere(t.clds, t.clds[i].index, t.clds[i].domain)
  }

  /** The clock at i and the master clock at m of one domain, on one device. */
  predicate Pair(t: Table, i: nat, m: nat) {
    && WellFormed(t) && Found(t, i) && Found(t, m) && t.clds[i].index != 0 && t.clds[m].index == 0
    && t.clds[i].domain == t.clds[m].domain && t.clds[i].dev == t.clds[m].dev
  }

  /** The records, the published copy and the selection after the pair (i, m) has become
      thisClock with its master; `master` is what offset the master's record is left with. */
  predicate Outcome(t: Table, t': Table, i: nat, m: nat, c: Clock, master: int, pub: Pub, hardware: int)
    requires Pair(t, i, m)
  {
    var d := t.clds[i].domain;
    && SameClock(t.clds[i], c)
    && t'.clds == t.clds[i := c][m := t.clds[m].(mode := Master, offset := master)]
    && t'.shm == t.shm[d := pub]
    && t'.thisIndex == t.thisIndex[d := t.clds[i].index] && |t'.thisPpb| == |t.thisPpb|
    && t'.hw == t.hw[t.clds[i].dev := hardware]
  }

  /** SLAVE_MAIN: both offsets are in the hardware, and the software rate is gone. */
  predicate MainOutcome(t: Table, t': Table, i: nat, m: nat, e1: nat, e2: nat)
    requires Pair(t, i, m)
  {
    var c, pub := t.clds[i], t.shm[t.clds[i].domain];
    && |t'.clds| == |t.clds|
    && Outcome(t, t', i, m, t'.clds[i], 0, pub.(rate := 0.0, offset := 0),
               t.hw[c.dev] + Gain(c, t.clds[m].offset, e1, e2))
    && t'.clds[i].mode == SlaveMain && t'.clds[i].offset == 0 && t'.clds[i].rate == 0.0
  }

  /** SLAVE_SUB: both offsets are in the record of the clock. */
  predicate SubOutcome(t: Table, t': Table, i: nat, m: nat)
    requires Pair(t, i, m)
  {
    var c, pub := t.clds[i], t.shm[t.clds[i].domain];
    var offset := c.offset + t.clds[m].offset;
    Outcome(t, t', i, m, c.(mode := SlaveSub, offset := offset), 0, pub.(offset := offset), t.hw[c.dev])
  }

  /** Without set_clock_para only the mode changes, and in SLAVE_MAIN what is published. */
  predicate BareOutcome(t: Table, t': Table, i: nat, m: nat)
    requires Pair(t, i, m)
  {
    var c, master, pub := t.clds[i], t.clds[m].offset, t.shm[t.clds[i].domain];
    if TakesMain(t, i) then
      Outcome(t, t', i, m, c.(mode := SlaveMain, rate := 0.0), master,
              pub.(rate := 0.0, offset := master), t.hw[c.dev])
    else
      Outcome(t, t', i, m, c.(mode := SlaveSub), master, pub, t.hw[c.dev])
  }

  // ----- the SLAVE_MAIN outcome -----

  lemma ModeSlaveMainEffect(t: Table, i: nat, m: nat)
    requires Pair(t, i, m) && !MainElsewhere(t.clds, t.clds[i].index, t.clds[i].domain)
    ensures var d := t.clds[i].domain;
            ModeSlaveMain(t, t.clds[i].index, d) ==
            (t.(clds := t.clds[i := t.clds[i].(mode := SlaveMain, rate := 0.0)],
                shm := t.shm[d := t.shm[d].(rate := 0.0, offset := t.clds[m].offset)]), 0)
  {
    var t1 := Set(t, i, t.clds[i].(mode := SlaveMain, rate := 0.0));
    FindStable(t.clds, t1.clds, 0, t.clds[i].domain);
  }

  /** In SLAVE_MAIN an offset goes to the hardware. */
  lemma StepHardware(t: Table, i: nat, offset: int, e: nat)
    requires WellFormed(t) && Found(t, i) && t.clds[i].mode == SlaveMain
    ensures var c := t.clds[i];
            var h := t.hw[c.dev] + e;
            SetOffset64(t, c.index, c.domain, offset, e) ==
            (t.(clds := t.clds[i := c.(last := h, offset := 0)], hw := t.hw[c.dev := h + offset]), 0)
  {
    var c := t.clds[i];
    var h := t.hw[c.dev] + e;
    assert t.hw[c.dev := h][c.dev := h + offset] == t.hw[c.dev := h + offset];
  }

  /** In SLAVE_MAIN a rate goes to the hardware. */
  lemma TuneHardware(t: Table, i: nat, ppb: int, accepted: bool)
    requires WellFormed(t) && Found(t, i) && t.clds[i].mode == SlaveMain
    ensures var c := t.clds[i];
            var t' := SetAdj(t, c.index, c.domain, ppb, accepted, 0, 0, 0).0;
            && t' == t.(clds := t'.clds, thisPpb := t'.thisPpb, hwPpb := t'.hwPpb)
            && t'.clds == t.clds[i := c.(ppb := t'.clds[i].ppb)]
            && |t'.thisPpb| == |t.thisPpb|
            && (accepted ==> t'.clds[i].ppb == ppb && c.dev in t'.hwPpb && t'.hwPpb[c.dev] == ppb)
  {
  }

  /** The clock at i moves its device on by delta and changes nothing else that is published. */
  predicate Stepped(t: Table, t': Table, i: nat, delta: int)
    requires i < |t.clds| && t.clds[i].dev in t.hw
  {
    var dev := t.clds[i].dev;
    && |t'.clds| == |t.clds| && SameClock(t.clds[i], t'.clds[i])
    && t'.clds[i].mode == t.clds[i].mode && t'.clds[i].rate == t.clds[i].rate
    && t'.clds == t.clds[i := t'.clds[i]]
    && t'.hw == t.hw[dev := t.hw[dev] + delta]
    && t'.shm == t.shm && t'.thisIndex == t.thisIndex && |t'.thisPpb| == |t.thisPpb|
  }

  lemma SteppedTwice(t: Table, t1: Table, t2: Table, i: nat, a: int, b: int)
    requires WellFormed(t) && Found(t, i)
    requires Stepped(t, t1, i, a) && Stepped(t1, t2, i, b)
    ensures Stepped(t, t2, i, a + b) && WellFormed(t2) && Found(t2, i)
  {
    var dev := t.clds[i].dev;
    assert t.clds[i := t1.clds[i]][i := t2.clds[i]] == t.clds[i := t2.clds[i]];
    assert t.hw[dev := t.hw[dev] + a][dev := t.hw[dev] + a + b] == t.hw[dev := t.hw[dev] + (a + b)];
    FindStable(t.clds, t2.clds, t.clds[i].index, t.clds[i].domain);
  }

  /** What the hardware clock gains when a clock with this record moves to SLAVE_MAIN. */
  function Gain(c: Clock, master: int, e1: nat, e2: nat): int {
    (if c.offset != 0 then c.offset + e1 else 0) + master + e2
  }

  lemma OwnOffsetStep(t: Table, i: nat, e: nat)
    requires WellFormed(t) && Found(t, i) && t.clds[i].mode == SlaveMain
    ensures var c := t.clds[i];
            var t' := MoveOffset(t, i, e);
            && Stepped(t, t', i, if c.offset != 0 then c.offset + e else 0)
            && WellFormed(t') && Found(t', i)
  {
    var c := t.clds[i];
    if c.offset != 0 {
      StepHardware(t, i, c.offset, e);
    } else {
      assert t.hw[c.dev := t.hw[c.dev] + 0] == t.hw;
    }
    var t' := MoveOffset(t, i, e);
    FindStable(t.clds, t'.clds, c.index, c.domain);
  }

  lemma OwnRateStep(t: Table, i: nat, rate: real, accepted: bool)
    requires WellFormed(t) && Found(t, i) && t.clds[i].mode == SlaveMain
    ensures var t' := MoveRate(t, i, rate, accepted);
            Stepped(t, t', i, 0) && WellFormed(t') && Found(t', i)
  {
    var c := t.clds[i];
    var ppb := Trunc(rate * SEC_NS as real);
    if rate != 0.0 {
      TuneHardware(t, i, ppb, accepted);
    }
    assert t.hw[c.dev := t.hw[c.dev] + 0] == t.hw;
    var t' := MoveRate(t, i, rate, accepted);
    FindStable(t.clds, t'.clds, c.index, c.domain);
  }

  lemma MoveToHardwareEffect(t: Table, i: nat, m: nat, rate: real, accepted: bool, e1: nat, e2: nat)
    requires Pair(t, i, m) && t.clds[i].mode == SlaveMain
    ensures var t' := MoveToHardware(t, i, m, rate, accepted, e1, e2);
            && Stepped(t, t', i, Gain(t.clds[i], t.clds[m].offset, e1, e2)) && t'.clds[i].offset == 0
  {
    hide SetOffset64, MoveOffset, MoveRate, Find;
    var c := t.clds[i];
    var t1 := MoveOffset(t, i, e1);
    OwnOffsetStep(t, i, e1);
    var t2 := MoveRate(t1, i, rate, accepted);
    OwnRateStep(t1, i, rate, accepted);
    var a := if c.offset != 0 then c.offset + e1 else 0;
    SteppedTwice(t, t1, t2, i, a, 0);
    var offset := t.clds[m].offset;
    assert t2.clds[m].offset == offset;
    var t3 := SetOffset64(t2, c.index, c.domain, offset, e2).0;
    StepHardware(t2, i, offset, e2);
    SteppedTwice(t, t2, t3, i, a, offset + e2);
    assert MoveToHardware(t, i, m, rate, accepted, e1, e2) == t3;
  }

  // ----- both outcomes -----

  lemma ClearMasterEffect(t: Table, i: nat, m: nat)
    requires Pair(t, i, m)
    ensures var d := t.clds[i].domain;
            ClearMaster(t, i, m) == t.(
              clds := t.clds[m := t.clds[m].(offset := 0)],
              shm := t.shm[d := t.shm[d].(offset := t.clds[i].offset)])
  {
  }

  /** Before the branch: thisClock is set and its master is a master. */
  function Claim(t: Table, i: nat, m: nat): Table
    requires Pair(t, i, m)
  {
    t.(thisIndex := t.thisIndex[t.clds[i].domain := t.clds[i].index],
       clds := t.clds[m := t.clds[m].(mode := Master)])
  }

  lemma ClaimKeepsPair(t: Table, i: nat, m: nat)
    requires Pair(t, i, m)
    ensures Pair(Claim(t, i, m), i, m)
    ensures TakesMain(Claim(t, i, m), i) == TakesMain(t, i)
  {
    var t1, c := Claim(t, i, m), t.clds[i];
    FindStable(t.clds, t1.clds, 0, c.domain);
    FindStable(t.clds, t1.clds, c.index, c.domain);
    if MainElsewhere(t.clds, c.index, c.domain) {
      var x :| x in t.clds && x.index == c.index && x.domain != c.domain && x.mode == SlaveMain;
      assert exists k | 0 <= k < |t.clds| && k != m :: t.clds[k] == x;
      assert x in t1.clds;
    }
  }

  lemma SelectSubOutcome(t: Table, i: nat, m: nat)
    requires Pair(t, i, m)
    ensures SubOutcome(t, SelectSub(Claim(t, i, m), i, m, true), i, m)
  {
    var t1 := Claim(t, i, m);
    ClaimKeepsPair(t, i, m);
    var t2 := EnterSub(t1, i, m, true);
    FindStable(t1.clds, t2.clds, 0, t.clds[i].domain);
    FindStable(t1.clds, t2.clds, t.clds[i].index, t.clds[i].domain);
    ClearMasterEffect(t2, i, m);
    var t3 := ClearMaster(t2, i, m);
    assert t3.clds == t.clds[i := t2.clds[i]][m := t.clds[m].(mode := Master, offset := 0)];
    assert t.hw[t.clds[i].dev := t.hw[t.clds[i].dev]] == t.hw;
  }

  lemma SelectMainOutcome(t: Table, i: nat, m: nat, accepted: bool, e1: nat, e2: nat)
    requires Pair(t, i, m) && TakesMain(t, i)
    ensures var t1 := ModeSlaveMain(Claim(t, i, m), t.clds[i].index, t.clds[i].domain);
            && t1.1 == 0
            && MainOutcome(t, SelectMain(t1.0, i, m, t.clds[i].rate, accepted, e1, e2), i, m, e1, e2)
  {
    var c := t.clds[i];
    var t0 := Claim(t, i, m);
    ClaimKeepsPair(t, i, m);
    ModeSlaveMainEffect(t0, i, m);
    var t1 := ModeSlaveMain(t0, c.index, c.domain).0;
    FindStable(t0.clds, t1.clds, 0, c.domain);
    FindStable(t0.clds, t1.clds, c.index, c.domain);
    MainOutcomeFrom(t, t1, i, m, c.rate, accepted, e1, e2);
  }

  lemma MainOutcomeFrom(t: Table, t1: Table, i: nat, m: nat, rate: real, accepted: bool, e1: nat, e2: nat)
    requires Pair(t, i, m) && Pair(t1, i, m)
    requires t1.clds == t.clds[m := t.clds[m].(mode := Master)][i := t.clds[i].(mode := SlaveMain, rate := 0.0)]
    requires t1.shm == t.shm[t.clds[i].domain := t1.shm[t.clds[i].domain]]
    requires t1.shm[t.clds[i].domain] == t.shm[t.clds[i].domain].(rate := 0.0, offset := t.clds[m].offset)
    requires t1.thisIndex == t.thisIndex[t.clds[i].domain := t.clds[i].index]
    requires |t1.thisPpb| == |t.thisPpb| && t1.hw == t.hw
    ensures MainOutcome(t, SelectMain(t1, i, m, rate, accepted, e1, e2), i, m, e1, e2)
  {
    hide MoveToHardware;
    var t2 := MoveToHardware(t1, i, m, rate, accepted, e1, e2);
    MoveToHardwareEffect(t1, i, m, rate, accepted, e1, e2);
    FindStable(t1.clds, t2.clds, 0, t.clds[i].domain);
    FindStable(t1.clds, t2.clds, t.clds[i].index, t.clds[i].domain);
    ClearMasterEffect(t2, i, m);
    var t3 := ClearMaster(t2, i, m);
    assert t3.clds == t.clds[i := t2.clds[i]][m := t.clds[m].(mode := Master, offset := 0)];
    assert t3.shm == t.shm[t.clds[i].domain := t.shm[t.clds[i].domain].(rate := 0.0, offset := 0)];
  }

  lemma BareSelectionOutcome(t: Table, i: nat, m: nat, accepted: bool, e1: nat, e2: nat)
    requires Pair(t, i, m)
    ensures BareOutcome(t, Reselect(Claim(t, i, m), i, m, false, accepted, e1, e2), i, m)
  {
    var c := t.clds[i];
    var t1 := Claim(t, i, m);
    ClaimKeepsPair(t, i, m);
    assert t.hw[c.dev := t.hw[c.dev]] == t.hw;
    var t2 := Reselect(t1, i, m, false, accepted, e1, e2);
    if TakesMain(t, i) {
      ModeSlaveMainEffect(t1, i, m);
      assert t2 == ModeSlaveMain(t1, c.index, c.domain).0;
      assert t2.clds == t.clds[i := c.(mode := SlaveMain, rate := 0.0)][m := t.clds[m].(mode := Master)];
    } else {
      assert t2 == SelectSub(t1, i, m, false);
      assert t2.clds == t.clds[i := c.(mode := SlaveSub)][m := t.clds[m].(mode := Master)];
      assert t.shm[c.domain := t.shm[c.domain]] == t.shm;
    }
  }

  /** What gptpclock_set_thisClock demands; otherwise it returns -1 and changes nothing. */
  predicate MayBeThisClock(t: Table, index: nat, domain: nat) {
    var i, m := Find(t.clds, index, domain), Find(t.clds, 0, domain);
    index != 0 && i.Some? && m.Some? && t.clds[i.value].dev == t.clds[m.value].dev
  }

  function IndexOf(t: Table, index: nat, domain: nat): (i: nat)
    requires Find(t.clds, index, domain).Some?
    ensures i < |t.clds| && Is(t.clds[i], index, domain)
  {
    Find(t.clds, index, domain).value
  }

  lemma SetThisClockOutcome(t: Table, index: nat, domain: nat, para: bool, accepted: bool, e1: nat, e2: nat)
    requires WellFormed(t) && MayBeThisClock(t, index, domain)
    ensures var (t', r) := SetThisClock(t, index, domain, para, accepted, e1, e2);
            var i, m := IndexOf(t, index, domain), IndexOf(t, 0, domain);
            && r == 0 && Pair(t, i, m)
            && if !para then BareOutcome(t, t', i, m)
               else if TakesMain(t, i) then MainOutcome(t, t', i, m, e1, e2)
               else SubOutcome(t, t', i, m)
  {
    hide SelectMain, SelectSub;
    var i, m := IndexOf(t, index, domain), IndexOf(t, 0, domain);
    var t1 := Claim(t, i, m);
    assert t1 == Set(t.(thisIndex := t.thisIndex[domain := index]), m, t.clds[m].(mode := Master));
    ClaimKeepsPair(t, i, m);
    if !para {
      hide Reselect;
      BareSelectionOutcome(t, i, m, accepted, e1, e2);
    } else if TakesMain(t, i) {
      SelectMainOutcome(t, i, m, accepted, e1, e2);
    } else {
      SelectSubOutcome(t, i, m);
    }
  }

  // ----- the published copy -----

  /** The rate and its start that the domain publishes are those of the clock. */
  predicate RateAgrees(c: Clock, pub: Pub) {
    pub.rate == c.rate && (c.rate != 0.0 ==> pub.last == c.last)
  }

  lemma OutcomeFinds(t: Table, t': Table, i: nat, m: nat, c: Clock, master: int, pub: Pub, hardware: int, d: nat)
    requires Pair(t, i, m) && Outcome(t, t', i, m, c, master, pub, hardware) && d < |t.shm|
    ensures WellFormed(t') && SameShape(t, t')
    ensures Find(t'.clds, 0, d) == Find(t.clds, 0, d)
    ensures Find(t'.clds, t'.thisIndex[d], d) == Find(t.clds, t'.thisIndex[d], d)
  {
    FindStable(t.clds, t'.clds, 0, d);
    FindStable(t.clds, t'.clds, t'.thisIndex[d], d);
  }

  lemma OutcomePublishedIff(t: Table, t': Table, i: nat, m: nat, c: Clock, master: int, pub: Pub, hardware: int)
    requires Pair(t, i, m) && Outcome(t, t', i, m, c, master, pub, hardware) && WellFormed(t')
    ensures Published(t', c.domain) <==> Matches(t.clds[m].(mode := Master, offset := master), c, pub)
  {
    OutcomeFinds(t, t', i, m, c, master, pub, hardware, c.domain);
  }

  lemma OutcomeKeepsOthers(t: Table, t': Table, i: nat, m: nat, c: Clock, master: int, pub: Pub, hardware: int)
    requires Inv(t) && Pair(t, i, m) && Outcome(t, t', i, m, c, master, pub, hardware)
    requires c.mode == SlaveMain ==> TakesMain(t, i)
    ensures WellFormed(t') && UniqueKeys(t'.clds) && OneMain(t'.clds)
    ensures forall d | 0 <= d < |t.shm| && d != c.domain :: Published(t', d)
  {
    OutcomeFinds(t, t', i, m, c, master, pub, hardware, c.domain);
    KeysKept(t, t');
    forall d | 0 <= d < |t.shm| && d != c.domain ensures Published(t', d) {
      OtherDomainsKept(t, t', c.domain, d);
    }
    OutcomeOneMain(t, t', i, m, c, master, pub, hardware);
  }

  lemma OutcomeOneMain(t: Table, t': Table, i: nat, m: nat, c: Clock, master: int, pub: Pub, hardware: int)
    requires Inv(t) && Pair(t, i, m) && Outcome(t, t', i, m, c, master, pub, hardware)
    requires c.mode == SlaveMain ==> TakesMain(t, i)
    ensures OneMain(t'.clds)
  {
    forall j | 0 <= j < |t.clds| && c.mode == SlaveMain && t.clds[j].index == c.index && t.clds[j].mode == SlaveMain
      ensures t.clds[j].domain == c.domain
    {
      assert t.clds[j] in t.clds;
    }
    assert forall j | 0 <= j < |t'.clds| && j != i && t'.clds[j].mode == SlaveMain :: t'.clds[j] == t.clds[j];
  }

  /** The guard of a selection. In SLAVE_MAIN a clock has no software rate, and with
      set_clock_para no offset either; without it the clock must have none. Nothing in the
      SLAVE_SUB branch copies the rate, so the domain must publish it already, and without
      set_clock_para the sum of the offsets as well. */
  predicate MaySelect(t: Table, index: nat, domain: nat, para: bool)
    requires WellFormed(t)
  {
    MayBeThisClock(t, index, domain) ==>
      var c, master := t.clds[IndexOf(t, index, domain)], t.clds[IndexOf(t, 0, domain)];
      if TakesMain(t, IndexOf(t, index, domain)) then para || c.offset == 0
      else
        && RateAgrees(c, t.shm[domain])
        && (para || t.shm[domain].offset == master.offset + c.offset)
  }

  /** Selecting thisClock, with or without set_clock_para, keeps the whole invariant exactly when
      its guard holds. */
  lemma SelectKeepsInvIff(t: Table, index: nat, domain: nat, para: bool, accepted: bool, e1: nat, e2: nat)
    requires Inv(t) && MayBeThisClock(t, index, domain)
    ensures Inv(SetThisClock(t, index, domain, para, accepted, e1, e2).0) <==> MaySelect(t, index, domain, para)
  {
    hide SetThisClock;
    var t' := SetThisClock(t, index, domain, para, accepted, e1, e2).0;
    var i, m := IndexOf(t, index, domain), IndexOf(t, 0, domain);
    SetThisClockOutcome(t, index, domain, para, accepted, e1, e2);
    var hardware, master := t'.hw[t.clds[i].dev], t'.clds[m].offset;
    OutcomeKeepsOthers(t, t', i, m, t'.clds[i], master, t'.shm[domain], hardware);
    OutcomePublishedIff(t, t', i, m, t'.clds[i], master, t'.shm[domain], hardware);
  }

  /** Selecting the present thisClock again is always safe with set_clock_para, and without it
      unless the clock goes from SLAVE_SUB to SLAVE_MAIN with an offset. */
  lemma ReselectKeepsInv(t: Table, index: nat, domain: nat, para: bool, accepted: bool, e1: nat, e2: nat)
    requires Inv(t) && MayBeThisClock(t, index, domain) && t.thisIndex[domain] == index
    ensures var i := IndexOf(t, index, domain);
            Inv(SetThisClock(t, index, domain, para, accepted, e1, e2).0)
            <==> para || !TakesMain(t, i) || t.clds[i].offset == 0
  {
    assert Published(t, domain);
    SelectKeepsInvIff(t, index, domain, para, accepted, e1, e2);
  }

  // ----- what is conserved -----

  /** Hardware time and the offsets of a pair of records. */
  function Total(t: Table, i: nat, m: nat): int
    requires i < |t.clds| && m < |t.clds| && t.clds[i].dev in t.hw
  {
    t.hw[t.clds[i].dev] + t.clds[i].offset + t.clds[m].offset
  }

  /** The daemon's time of the domain: thisClock's time and the offset of the master clock. */
  function DomainTime(t: Table, i: nat, m: nat): int
    requires i < |t.clds| && m < |t.clds| && t.clds[i].dev in t.hw
  {
    GetTs(t.clds[i], t.hw[t.clds[i].dev]) + t.clds[m].offset
  }

  /** How long the hardware runs on during a selection. */
  function SelectTime(t: Table, i: nat, para: bool, e1: nat, e2: nat): nat
    requires i < |t.clds|
  {
    if para && TakesMain(t, i) then (if t.clds[i].offset != 0 then e1 else 0) + e2 else 0
  }

  /** Moving the offsets about conserves hardware time plus offsets, whatever the rate. */
  lemma SelectConservesTotal(t: Table, index: nat, domain: nat, para: bool, accepted: bool, e1: nat, e2: nat)
    requires WellFormed(t) && MayBeThisClock(t, index, domain)
    ensures var i, m := IndexOf(t, index, domain), IndexOf(t, 0, domain);
            var t' := SetThisClock(t, index, domain, para, accepted, e1, e2).0;
            Total(t', i, m) == Total(t, i, m) + SelectTime(t, i, para, e1, e2)
  {
    hide SetThisClock;
    SetThisClockOutcome(t, index, domain, para, accepted, e1, e2);
  }

  /** The time of the domain jumps by exactly what its software rate adds afterwards less what it
      added before. In SLAVE_SUB that is nothing when the clock was in SLAVE_SUB already or has
      no rate; in SLAVE_MAIN it is nothing if and only if the rate had added nothing. */
  lemma SelectJump(t: Table, index: nat, domain: nat, para: bool, accepted: bool, e1: nat, e2: nat)
    requires WellFormed(t) && MayBeThisClock(t, index, domain)
    ensures var i, m := IndexOf(t, index, domain), IndexOf(t, 0, domain);
            var t' := SetThisClock(t, index, domain, para, accepted, e1, e2).0;
            var c := t.clds[i];
            var jump := DomainTime(t', i, m) - DomainTime(t, i, m) - SelectTime(t, i, para, e1, e2);
            var added := SoftwareTerm(c, t.hw[c.dev]);
            && jump == (if TakesMain(t, i) then 0 else SoftwareTerm(c.(mode := SlaveSub), t.hw[c.dev])) - added
            && (!TakesMain(t, i) && (c.mode == SlaveSub || c.rate == 0.0) ==> jump == 0)
  {
    hide SetThisClock;
    SetThisClockOutcome(t, index, domain, para, accepted, e1, e2);
  }

  // ----- all runs -----

  datatype Op =
    | Elapses(dev: nat, e: nat)
    | Offset(index: nat, domain: nat, offset: int, e: nat)
    | Time(index: nat, domain: nat, ts: int, e1: nat, e2: nat)
    | Adjust(index: nat, domain: nat, ppb: int, accepted: bool, e1: nat, e2: nat, e3: nat)
    | Select(index: nat, domain: nat, para: bool, accepted: bool, e1: nat, e2: nat)
    | Add(index: nat, domain: nat, dev: nat, reachable: bool, writable: bool)

  function Apply(t: Table, op: Op): (t': Table)
    requires WellFormed(t)
    ensures WellFormed(t')
  {
    match op
    case Elapses(dev, e) => if dev in t.hw then Elapse(t, dev, e) else t
    case Offset(index, domain, offset, e) => SetOffset64(t, index, domain, offset, e).0
    case Time(index, domain, ts, e1, e2) => SetTs64(t, index, domain, ts, e1, e2).0
    case Adjust(index, domain, ppb, accepted, e1, e2, e3) =>
      SetAdj(t, index, domain, ppb, accepted, e1, e2, e3).0
    case Select(index, domain, para, accepted, e1, e2) => SetThisClock(t, index, domain, para, accepted, e1, e2).0
    case Add(index, domain, dev, reachable, writable) =>
      if domain < |t.shm| then AddClock(t, index, domain, dev, reachable, writable).0 else t
  }

  /** What a caller can check before the call. Setting offsets and times, adding clocks and the
      passing of time need no guard at all. */
  predicate Guard(t: Table, op: Op)
    requires WellFormed(t)
  {
    match op
    case Adjust(index, domain, ppb, _, _, _, _) => MayAdjust(t, index, domain, ppb)
    case Select(index, domain, para, _, _, _) => MaySelect(t, index, domain, para)
    case _ => true
  }

  /** No operation breaks the published copy unless its guard fails, and then it always does. */
  lemma ApplyKeepsInvIff(t: Table, op: Op)
    requires Inv(t)
    ensures Inv(Apply(t, op)) <==> Guard(t, op)
  {
    hide SetOffset64, SetAdj, AddClock, SetTs, Elapse, SetThisClock, MayAdjust, TakesMain, RateAgrees;
    assert WellFormed(t);
    hide Inv, WellFormed;
    match op
    case Elapses(dev, e) =>
      if dev in t.hw {
        ElapseKeepsInv(t, dev, e);
      }
    case Offset(index, domain, offset, e) => SetOffset64KeepsInv(t, index, domain, offset, e);
    case Time(index, domain, ts, e1, e2) =>
      var i := Find(t.clds, index, domain);
      if i.Some? {
        SetTsKeepsInv(t, i.value, ts, e1, e2);
      }
    case Adjust(index, domain, ppb, accepted, e1, e2, e3) =>
      SetAdjKeepsInvIff(t, index, domain, ppb, accepted, e1, e2, e3);
    case Select(index, domain, para, accepted, e1, e2) =>
      if MayBeThisClock(t, index, domain) {
        SelectKeepsInvIff(t, index, domain, para, accepted, e1, e2);
      } else {
        NotThisClock(t, index, domain, para, accepted, e1, e2);
      }
    case Add(index, domain, dev, reachable, writable) =>
      if domain < |t.shm| {
        AddClockKeepsInv(t, index, domain, dev, reachable, writable);
      }
  }

  lemma NotThisClock(t: Table, index: nat, domain: nat, para: bool, accepted: bool, e1: nat, e2: nat)
    requires WellFormed(t) && !MayBeThisClock(t, index, domain)
    ensures SetThisClock(t, index, domain, para, accepted, e1, e2) == (t, -1)
  {
  }

  lemma FindAppended(clds: seq<Clock>, c: Clock, index: nat, domain: nat)
    ensures Find(clds, index, domain).Some? ==> Find(clds + [c], index, domain) == Find(clds, index, domain)
  {
    var r, r' := Find(clds, index, domain), Find(clds + [c], index, domain);
    if r.Some? {
      assert Is((clds + [c])[r.value], index, domain);
      assert forall k | 0 <= k < r.value :: (clds + [c])[k] == clds[k];
    }
  }

  lemma AddClockKeepsInv(t: Table, index: nat, domain: nat, dev: nat, reachable: bool, writable: bool)
    requires Inv(t) && domain < |t.shm|
    ensures Inv(AddClock(t, index, domain, dev, reachable, writable).0)
  {
    hide FindFrom;
    if Find(t.clds, index, domain).None? {
      var t' := AddClock(t, index, domain, dev, reachable, writable).0;
      var c := Clock(index, domain, dev, writable, Master, 0, 0, 0.0, 0);
      forall d | 0 <= d < |t'.shm| ensures Published(t', d) {
        assert Published(t, d);
        FindAppended(t.clds, c, 0, d);
        FindAppended(t.clds, c, t.thisIndex[d], d);
      }
    }
  }

  function Run(t: Table, ops: seq<Op>): (t': Table)
    requires WellFormed(t)
    ensures WellFormed(t')
    decreases |ops|
  {
    if ops == [] then t else Run(Apply(t, ops[0]), ops[1..])
  }

  predicate Guarded(t: Table, ops: seq<Op>)
    requires WellFormed(t)
    decreases |ops|
  {
    ops == [] || (Guard(t, ops[0]) && Guarded(Apply(t, ops[0]), ops[1..]))
  }

  lemma {:induction false} RunKeepsInv(t: Table, ops: seq<Op>)
    requires Inv(t) && Guarded(t, ops)
    ensures Inv(Run(t, ops))
    decreases |ops|
  {
    if ops != [] {
      ApplyKeepsInvIff(t, ops[0]);
      RunKeepsInv(Apply(t, ops[0]), ops[1..]);
    }
  }

  lemma FindNew(clds: seq<Clock>, c: Clock)
    requires Find(clds, c.index, c.domain).None?
    ensures Find(clds + [c], c.index, c.domain) == Some(|clds|)
  {
    assert Is((clds + [c])[|clds|], c.index, c.domain);
    assert forall k | 0 <= k < |clds| :: (clds + [c])[k] == clds[k];
  }

  /** How the daemon starts a domain: it adds the master clock and thisClock, selects thisClock
      without set_clock_para, and sets its rate to 0. */
  function StartUp(index: nat, d: nat, dev: nat, w: bool, accepted: bool, e1: nat, e2: nat, e3: nat): seq<Op> {
    [Add(0, d, dev, true, w), Add(index, d, dev, true, w), Select(index, d, false, accepted, e1, e2),
     Adjust(index, d, 0, accepted, e1, e2, e3)]
  }

  /** Start-up meets every guard, in a table that already serves any other domains; so it is part
      of the runs below, for every domain and in either outcome of the selection. */
  lemma StartUpIsGuarded(
      t: Table, index: nat, d: nat, dev: nat, w: bool, accepted: bool, e1: nat, e2: nat, e3: nat)
    requires Inv(t) && d < |t.shm| && dev in t.hw && index != 0
    requires Find(t.clds, 0, d).None? && Find(t.clds, index, d).None?
    ensures var ops := StartUp(index, d, dev, w, accepted, e1, e2, e3);
            && Guarded(t, ops) && Inv(Run(t, ops))
            && d < |Run(t, ops).thisIndex| && Run(t, ops).thisIndex[d] == index
  {
    var ops := StartUp(index, d, dev, w, accepted, e1, e2, e3);
    var master, c := Clock(0, d, dev, w, Master, 0, 0, 0.0, 0), Clock(index, d, dev, w, Master, 0, 0, 0.0, 0);
    var t1, t2 := Apply(t, ops[0]), Apply(Apply(t, ops[0]), ops[1]);
    FindNew(t.clds, master);
    assert Find(t1.clds, index, d).None? by {
      OtherKeyNotFound(t.clds, master, index, d);
    }
    FindNew(t1.clds, c);
    FindAppended(t1.clds, c, 0, d);
    assert t2.clds == t.clds + [master] + [c] && t2.shm[d] == Pub(0, 0, 0.0);
    StartUpSelects(t2, index, d, accepted, e1, e2, e3);
    var t3 := Apply(t2, ops[2]);
    FourGuarded(t, ops, t1, t2, t3);
    RunKeepsInv(t, ops);
    RunOfFour(t, ops, t1, t2, t3);
  }

  lemma OtherKeyNotFound(clds: seq<Clock>, c: Clock, index: nat, domain: nat)
    requires Find(clds, index, domain).None? && !Is(c, index, domain)
    ensures Find(clds + [c], index, domain).None?
  {
    assert forall k | 0 <= k < |clds| :: (clds + [c])[k] == clds[k];
  }

  /** Two fresh clocks and what they publish meet the guard of a selection. */
  lemma StartUpSelects(t: Table, index: nat, d: nat, accepted: bool, e1: nat, e2: nat, e3: nat)
    requires WellFormed(t) && d < |t.shm| && index != 0 && t.shm[d] == Pub(0, 0, 0.0)
    requires MayBeThisClock(t, index, d)
    requires t.clds[IndexOf(t, index, d)].offset == 0 && t.clds[IndexOf(t, index, d)].rate == 0.0
    requires t.clds[IndexOf(t, 0, d)].offset == 0
    ensures Guard(t, Select(index, d, false, accepted, e1, e2))
    ensures var t' := Apply(t, Select(index, d, false, accepted, e1, e2));
            Guard(t', Adjust(index, d, 0, accepted, e1, e2, e3)) && t'.thisIndex[d] == index
            && Apply(t', Adjust(index, d, 0, accepted, e1, e2, e3)).thisIndex[d] == index
  {
    hide SetThisClock, AdjustSoftware;
    SetThisClockOutcome(t, index, d, false, accepted, e1, e2);
    var t' := Apply(t, Select(index, d, false, accepted, e1, e2));
    assert t'.thisIndex[d] == index;
    AdjustKeepsSelection(t', index, d, 0, accepted, e1, e2, e3);
  }

  lemma AdjustKeepsSelection(
      t: Table, index: nat, domain: nat, ppb: int, accepted: bool, e1: nat, e2: nat, e3: nat)
    requires WellFormed(t)
    ensures SetAdj(t, index, domain, ppb, accepted, e1, e2, e3).0.thisIndex == t.thisIndex
  {
    var i := Find(t.clds, index, domain);
    if i.Some? {
      var thisPpb := if t.thisIndex[domain] == index then t.thisPpb[domain := ppb] else t.thisPpb;
      RebaseKeepsSelection(t.(thisPpb := thisPpb), i.value, e1, e2, e3);
      hide Rebase;
    }
  }

  lemma RebaseKeepsSelection(t: Table, i: nat, e1: nat, e2: nat, e3: nat)
    requires WellFormed(t) && i < |t.clds|
    ensures Rebase(t, i, e1, e2, e3).thisIndex == t.thisIndex
  {
    RebaseSteps(t, i, e1, e2, e3);
    hide Rebase, GetTs;
  }

  lemma FourGuarded(t: Table, ops: seq<Op>, t1: Table, t2: Table, t3: Table)
    requires |ops| == 4 && WellFormed(t)
    requires t1 == Apply(t, ops[0]) && t2 == Apply(t1, ops[1]) && t3 == Apply(t2, ops[2])
    requires Guard(t, ops[0]) && Guard(t1, ops[1]) && Guard(t2, ops[2]) && Guard(t3, ops[3])
    ensures Guarded(t, ops)
  {
    hide Apply, Guard;
    assert ops[1..][1..] == ops[2..] && ops[2..][1..] == ops[3..] && ops[3..][1..] == [];
    assert Guarded(Apply(t3, ops[3]), []);
    assert Guarded(t3, ops[3..]) && Guarded(t2, ops[2..]) && Guarded(t1, ops[1..]);
  }

  lemma RunOfFour(t: Table, ops: seq<Op>, t1: Table, t2: Table, t3: Table)
    requires |ops| == 4 && WellFormed(t)
    requires t1 == Apply(t, ops[0]) && t2 == Apply(t1, ops[1]) && t3 == Apply(t2, ops[2])
    ensures Run(t, ops) == Apply(t3, ops[3])
  {
    hide Apply;
    assert ops[1..][1..] == ops[2..] && ops[2..][1..] == ops[3..] && ops[3..][1..] == [];
    assert Run(t3, ops[3..]) == Run(Apply(t3, ops[3]), []);
    assert Run(t2, ops[2..]) == Run(t3, ops[3..]);
    assert Run(t1, ops[1..]) == Run(t2, ops[2..]);
  }

  /** After any guarded run from a daemon that has no clocks yet, a reader of shared memory
      computes, for every domain with a thisClock and at every hardware time, the daemon's
      thisClock time plus the master offset to within 1 ns, and exactly when the rate is 0. */
  lemma PublishedTimeAgrees(t: Table, ops: seq<Op>, d: nat, hw: int)
    requires WellFormed(t) && t.clds == [] && (forall k | 0 <= k < |t.thisIndex| :: t.thisIndex[k] == 0)
    requires Guarded(t, ops)
    requires d < |Run(t, ops).shm| && Run(t, ops).thisIndex[d] != 0
    ensures var r := Run(t, ops);
            var c, m := Find(r.clds, r.thisIndex[d], d), Find(r.clds, 0, d);
            && c.Some? && m.Some?
            && var difference := ReadPublished(r.shm[d], hw) - (GetTs(r.clds[c.value], hw) + r.clds[m.value].offset);
               -1 <= difference <= 1 && (r.shm[d].rate == 0.0 ==> difference == 0)
  {
    assert Inv(t);
    RunKeepsInv(t, ops);
    var r := Run(t, ops);
    assert Published(r, d);
    ReaderAgrees(r.clds[Find(r.clds, 0, d).value], r.clds[Find(r.clds, r.thisIndex[d], d).value], r.shm[d], hw);
  }
}
