/** What setting a clock means to whoever reads it afterwards: offsets, times and rates, in each of
    the three modes. */
module ClockEffects {
  import opened Arith
  import opened ClockTable
  import opened ClockProofs
  import opened ClockSelection

  // ----- offsets -----

  /** Only the record at i, the hardware below it and what its domain publishes may differ. */
  predicate OnlyTouches(t: Table, t': Table, i: nat)
    requires i < |t.clds|
  {
    var c := t.clds[i];
    && |t'.clds| == |t.clds| && t'.clds == t.clds[i := t'.clds[i]]
    && c.domain < |t.shm| == |t'.shm|
    && (forall d | 0 <= d < |t.shm| && d != c.domain :: t'.shm[d] == t.shm[d])
    && t'.shm[c.domain].rate == t.shm[c.domain].rate
    && t'.thisIndex == t.thisIndex && t'.thisPpb == t.thisPpb && t'.hwPpb == t.hwPpb
    && t'.hw.Keys == t.hw.Keys && (forall dev <- t.hw | dev != c.dev :: t'.hw[dev] == t.hw[dev])
  }

  /** The record at i differs in its offset and in when it was set. */
  predicate OnlyOffset(c: Clock, c': Clock) { c' == c.(offset := c'.offset, last := c'.last) }

  /** An offset that is set replaces the old one. In SLAVE_MAIN the hardware takes it, and the record
      holds 0. */
  lemma OffsetIsSet(t: Table, index: nat, domain: nat, o: int, e: nat)
    requires WellFormed(t) && Find(t.clds, index, domain).Some?
    ensures var (t', r) := SetOffset64(t, index, domain, o, e);
            var i := IndexOf(t, index, domain);
            var c := t.clds[i];
            && r == 0 && OnlyTouches(t, t', i) && OnlyOffset(c, t'.clds[i])
            && if c.mode == SlaveMain then t'.clds[i].offset == 0 && t'.hw[c.dev] == t.hw[c.dev] + e + o
               else t'.clds[i].offset == o && t'.clds[i].last == c.last && t'.hw == t.hw
  {
    var i := IndexOf(t, index, domain);
    if t.clds[i].mode == SlaveMain {
      StepHardware(t, i, o, e);
    }
  }

  lemma PublishOverwrites(t: Table, i: nat, a: int, b: int)
    requires WellFormed(t) && Found(t, i) && t.clds[i].mode != SlaveMain
    ensures var t1 := PublishOffset(Set(t, i, t.clds[i].(offset := a)), i);
            PublishOffset(Set(t1, i, t1.clds[i].(offset := b)), i)
            == PublishOffset(Set(t, i, t.clds[i].(offset := b)), i)
  {
    var c := t.clds[i];
    var ta, tb := Set(t, i, c.(offset := a)), Set(t, i, c.(offset := b));
    var t1 := PublishOffset(ta, i);
    var t2 := Set(t1, i, t1.clds[i].(offset := b));
    assert t2.clds == tb.clds;
    SameFinds(t, ta, c.domain);
    SameFinds(t, tb, c.domain);
  }

  lemma SameFinds(t: Table, t': Table, d: nat)
    requires WellFormed(t) && SameShape(t, t') && t'.thisIndex == t.thisIndex && d < |t.thisIndex|
    ensures Find(t'.clds, 0, d) == Find(t.clds, 0, d)
    ensures Find(t'.clds, t.thisIndex[d], d) == Find(t.clds, t.thisIndex[d], d)
  {
    FindStable(t.clds, t'.clds, 0, d);
    FindStable(t.clds, t'.clds, t.thisIndex[d], d);
  }

  /** Outside SLAVE_MAIN only the last of several offsets counts, in the record and in what is
      published; so setting the same one again changes nothing. In SLAVE_MAIN they add up. */
  lemma LastOffsetCounts(t: Table, index: nat, domain: nat, a: int, b: int, e1: nat, e2: nat)
    requires WellFormed(t) && Find(t.clds, index, domain).Some?
    ensures var t1 := SetOffset64(t, index, domain, a, e1).0;
            var t2 := SetOffset64(t1, index, domain, b, e2).0;
            var c := t.clds[IndexOf(t, index, domain)];
            if c.mode == SlaveMain then t2.hw[c.dev] == t.hw[c.dev] + e1 + e2 + a + b
            else t2 == SetOffset64(t, index, domain, b, e2).0
  {
    var i := IndexOf(t, index, domain);
    var c := t.clds[i];
    var t1 := SetOffset64(t, index, domain, a, e1).0;
    FindStable(t.clds, t1.clds, index, domain);
    if c.mode == SlaveMain {
      StepHardware(t, i, a, e1);
      StepHardware(t1, i, b, e2);
    } else {
      PublishOverwrites(t, i, a, b);
    }
  }

  // ----- times -----

  lemma TimeIsSet(t: Table, i: nat, ts: int, e1: nat, e2: nat)
    requires WellFormed(t) && Found(t, i)
    ensures var t' := SetTs(t, i, ts, e1, e2);
            GetTs(t'.clds[i], t'.hw[t.clds[i].dev]) == ts + e2
  {
    var t' := SetTs(t, i, ts, e1, e2);
    if t.clds[i].mode != SlaveMain {
      assert t'.clds[i].last == t'.hw[t.clds[i].dev];
      NothingYet(t'.clds[i].rate);
    }
  }

  /** After a time was set the clock reads that time, later by what passed since its first reading
      in the call; in every mode. */
  lemma SetTimeReads(t: Table, index: nat, domain: nat, ts: int, e1: nat, e2: nat)
    requires WellFormed(t) && Find(t.clds, index, domain).Some?
    ensures var (t', r) := SetTs64(t, index, domain, ts, e1, e2);
            var i := IndexOf(t, index, domain);
            r == 0 && GetTs(t'.clds[i], t'.hw[t.clds[i].dev]) == ts + e2
  {
    TimeIsSet(t, IndexOf(t, index, domain), ts, e1, e2);
  }

  // ----- rates -----

  lemma TruncatedSteps(x: real, y: real)
    ensures AbsR((Trunc(y) - Trunc(x)) as real - (y - x)) < 2.0
    ensures (x >= 0.0 && y >= 0.0) || (x <= 0.0 && y <= 0.0) ==>
              AbsR((Trunc(y) - Trunc(x)) as real - (y - x)) < 1.0
  {
  }

  lemma Spread(rate: real, a: int, b: int)
    ensures Scaled(rate, b) - Scaled(rate, a) == Scaled(rate, b - a)
    ensures a >= 0 && rate >= 0.0 ==> Scaled(rate, a) >= 0.0
    ensures a >= 0 && rate <= 0.0 ==> Scaled(rate, a) <= 0.0
  {
    assert (b - a) as real == b as real - a as real;
  }

  lemma SoftwareSteps(rate: real, a: int, e: nat)
    ensures AbsR((Trunc(Scaled(rate, a + e)) - Trunc(Scaled(rate, a))) as real - Scaled(rate, e)) < 2.0
    ensures a >= 0 ==>
              AbsR((Trunc(Scaled(rate, a + e)) - Trunc(Scaled(rate, a))) as real - Scaled(rate, e)) < 1.0
  {
    hide Scaled;
    Spread(rate, a, a + e);
    Spread(rate, a + e, a + e);
    TruncatedSteps(Scaled(rate, a), Scaled(rate, a + e));
  }

  lemma StepsAlone(e: nat, s: int, r: real, bound: real)
    requires AbsR(s as real - r) < bound
    ensures AbsR((e + s) as real - (e as real + r)) < bound
  {
  }

  /** Two readings of a SLAVE_SUB clock, e ns of its hardware apart, differ by e and rate times e:
      to within 2 ns, and to within 1 ns if the hardware has not been set back behind the time of
      the last adjustment. In the other modes they differ by e. */
  lemma ClockRunsAtRate(c: Clock, hw: int, e: nat)
    ensures c.mode == SlaveSub ==>
              AbsR((GetTs(c, hw + e) - GetTs(c, hw)) as real - (e as real + c.rate * e as real)) < 2.0
    ensures c.mode == SlaveSub && hw >= c.last ==>
              AbsR((GetTs(c, hw + e) - GetTs(c, hw)) as real - (e as real + c.rate * e as real)) < 1.0
    ensures c.mode != SlaveSub ==> GetTs(c, hw + e) - GetTs(c, hw) == e
  {
    assert Scaled(c.rate, e) == c.rate * e as real;
    hide Scaled, Trunc, AbsR;
    if c.mode == SlaveSub {
      var s := SoftwareTerm(c, hw + e) - SoftwareTerm(c, hw);
      assert GetTs(c, hw + e) - GetTs(c, hw) == e + s;
      SoftwareStepsOf(c, hw, e);
      hide GetTs, SoftwareTerm;
      StepsAlone(e, s, Scaled(c.rate, e), if hw >= c.last then 1.0 else 2.0);
    }
  }

  lemma NoRate(ns: int)
    ensures Scaled(0.0, ns) == 0.0
  {
  }

  lemma SoftwareStepsOf(c: Clock, hw: int, e: nat)
    requires c.mode == SlaveSub
    ensures AbsR((SoftwareTerm(c, hw + e) - SoftwareTerm(c, hw)) as real - Scaled(c.rate, e))
            < if hw >= c.last then 1.0 else 2.0
  {
    var a := hw - c.last;
    assert hw + e - c.last == a + e;
    hide Trunc, Scaled;
    if c.rate == 0.0 {
      NoRate(e);
    } else {
      hide AbsR;
      SoftwareSteps(c.rate, a, e);
    }
  }

  /** What a successful change of rate leaves behind. */
  predicate RateSet(t: Table, t': Table, i: nat, ppb: int)
    requires WellFormed(t) && i < |t.clds|
  {
    var c := t.clds[i];
    && |t'.clds| == |t.clds| && t'.clds[i].ppb == ppb && t'.clds[i].mode == c.mode
    && |t'.thisPpb| == |t.thisPpb| && |t'.shm| == |t.shm| && t'.hw.Keys == t.hw.Keys
    && (t.thisIndex[c.domain] == c.index ==> t'.thisPpb[c.domain] == ppb)
    && match c.mode
       case SlaveMain => c.dev in t'.hwPpb && t'.hwPpb[c.dev] == ppb
       case SlaveSub =>
         && t'.clds[i].rate * BILLION == ppb as real && t'.shm[c.domain].rate == t'.clds[i].rate
         && t'.clds[i].last == t'.hw[c.dev] && t'.hwPpb == t.hwPpb
       case Master => false
  }

  lemma AdjustSoftwareSets(t: Table, i: nat, ppb: int, e1: nat, e2: nat, e3: nat)
    requires WellFormed(t) && Found(t, i) && t.clds[i].mode == SlaveSub
    ensures var (t', r) := AdjustSoftware(t, i, ppb, e1, e2, e3);
            && (r == 0 <==> Find(t.clds, 0, t.clds[i].domain).Some?)
            && (r == 0 ==> t'.thisPpb == t.thisPpb
                           && (t.thisIndex[t.clds[i].domain] == t.clds[i].index ==> t.thisPpb[t.clds[i].domain] == ppb)
                           ==> RateSet(t, t', i, ppb))
            && t'.hwPpb == t.hwPpb && t'.thisPpb == t.thisPpb
  {
    RebaseEffect(t, i, e1, e2, e3);
  }

  /** A change of rate that succeeds is in force: in SLAVE_MAIN in the hardware, in SLAVE_SUB in the
      record and in what is published, from the present time of the clock on. */
  lemma RateIsSet(t: Table, index: nat, domain: nat, ppb: int, accepted: bool, e1: nat, e2: nat, e3: nat)
    requires WellFormed(t) && Find(t.clds, index, domain).Some?
    ensures var (t', r) := SetAdj(t, index, domain, ppb, accepted, e1, e2, e3);
            var i := IndexOf(t, index, domain);
            && (r == 0 ==> RateSet(t, t', i, ppb))
            && (r == 0 <==>
                  match t.clds[i].mode
                  case SlaveMain => accepted
                  case SlaveSub => Find(t.clds, 0, domain).Some?
                  case Master => false)
  {
    hide AdjustSoftware;
    var i := IndexOf(t, index, domain);
    var t1 := if t.thisIndex[domain] == index then t.(thisPpb := t.thisPpb[domain := ppb]) else t;
    if t.clds[i].mode == SlaveSub {
      AdjustSoftwareSets(t1, i, ppb, e1, e2, e3);
    }
  }

  /** So a SLAVE_SUB clock that was adjusted by ppb counts e * (1 + ppb / 10^9) in e ns. */
  lemma AdjustedClockRuns(
      t: Table, index: nat, domain: nat, ppb: int, accepted: bool, e1: nat, e2: nat, e3: nat, e: nat)
    requires WellFormed(t) && Find(t.clds, index, domain).Some?
    requires t.clds[IndexOf(t, index, domain)].mode == SlaveSub
    ensures var (t', r) := SetAdj(t, index, domain, ppb, accepted, e1, e2, e3);
            var c := t'.clds[IndexOf(t, index, domain)];
            var hw := t'.hw[c.dev];
            r == 0 ==>
              AbsR((GetTs(c, hw + e) - GetTs(c, hw)) as real - e as real - (ppb * e) as real / 1_000_000_000.0) < 1.0
  {
    RateIsSet(t, index, domain, ppb, accepted, e1, e2, e3);
    var (t', r) := SetAdj(t, index, domain, ppb, accepted, e1, e2, e3);
    var c := t'.clds[IndexOf(t, index, domain)];
    hide SetAdj;
    if r == 0 {
      RunsAtPpb(c, ppb, t'.hw[c.dev], e);
    }
  }

  lemma RunsAtPpb(c: Clock, ppb: int, hw: int, e: nat)
    requires c.mode == SlaveSub && hw >= c.last && c.rate * 1_000_000_000.0 == ppb as real
    ensures AbsR((GetTs(c, hw + e) - GetTs(c, hw)) as real - e as real - (ppb * e) as real / 1_000_000_000.0) < 1.0
  {
    PpbOver(c.rate, ppb, e);
    hide GetTs, AbsR;
    ClockRunsAtRate(c, hw, e);
    assert (GetTs(c, hw + e) - GetTs(c, hw)) as real - e as real - (ppb * e) as real / 1_000_000_000.0
           == (GetTs(c, hw + e) - GetTs(c, hw)) as real - (e as real + c.rate * e as real);
  }

  lemma PpbOver(rate: real, ppb: int, e: nat)
    requires rate * 1_000_000_000.0 == ppb as real
    ensures rate * e as real == (ppb * e) as real / 1_000_000_000.0
  {
    assert (ppb * e) as real == ppb as real * e as real;
    assert rate * 1_000_000_000.0 * e as real == (rate * e as real) * 1_000_000_000.0;
  }

  // ----- selecting thisClock -----

  lemma OffsetKeepsTuning(t: Table, index: nat, domain: nat, o: int, e: nat)
    requires WellFormed(t)
    ensures SetOffset64(t, index, domain, o, e).0.hwPpb == t.hwPpb
  {
  }

  lemma WholePpb(rate: real, ppb: int)
    requires rate * 1_000_000_000.0 == ppb as real
    ensures Trunc(rate * SEC_NS as real) == ppb
  {
  }

  lemma MoveToHardwareTunes(t: Table, i: nat, m: nat, rate: real, ppb: int, e1: nat, e2: nat)
    requires Pair(t, i, m) && t.clds[i].mode == SlaveMain && rate != 0.0 && rate * 1_000_000_000.0 == ppb as real
    ensures var t' := MoveToHardware(t, i, m, rate, true, e1, e2);
            t.clds[i].dev in t'.hwPpb && t'.hwPpb[t.clds[i].dev] == ppb
  {
    hide SetOffset64, SetAdj, Find;
    var c := t.clds[i];
    OwnOffsetStep(t, i, e1);
    var t1 := MoveOffset(t, i, e1);
    WholePpb(rate, ppb);
    TuneHardware(t1, i, ppb, true);
    var t2 := MoveRate(t1, i, rate, true);
    OffsetKeepsTuning(t2, t2.clds[i].index, t2.clds[i].domain, t2.clds[m].offset, e2);
  }

  /** A clock that leaves SLAVE_SUB for SLAVE_MAIN hands its frequency adjustment over to the
      hardware, in full. */
  lemma SelectionKeepsFrequency(t: Table, index: nat, domain: nat, ppb: int, e1: nat, e2: nat)
    requires WellFormed(t) && MayBeThisClock(t, index, domain) && TakesMain(t, IndexOf(t, index, domain))
    requires var c := t.clds[IndexOf(t, index, domain)];
             c.rate != 0.0 && c.rate * 1_000_000_000.0 == ppb as real
    ensures var t' := SetThisClock(t, index, domain, true, true, e1, e2).0;
            var dev := t.clds[IndexOf(t, index, domain)].dev;
            dev in t'.hwPpb && t'.hwPpb[dev] == ppb
  {
    var i, m := IndexOf(t, index, domain), IndexOf(t, 0, domain);
    var t1 := Claim(t, i, m);
    assert t1 == Set(t.(thisIndex := t.thisIndex[domain := index]), m, t.clds[m].(mode := Master));
    ClaimKeepsPair(t, i, m);
    ModeSlaveMainEffect(t1, i, m);
    var t2 := ModeSlaveMain(t1, index, domain).0;
    FindStable(t1.clds, t2.clds, 0, domain);
    FindStable(t1.clds, t2.clds, index, domain);
    hide MoveToHardware;
    MoveToHardwareTunes(t2, i, m, t.clds[i].rate, ppb, e1, e2);
  }

  // ----- a new clock -----

  /** A clock that is added is found under its indices and reads its hardware, unadjusted; the others
      are as they were. It is refused if and only if the indices are taken or there is no device. */
  lemma AddedClockReads(t: Table, index: nat, domain: nat, dev: nat, reachable: bool, writable: bool)
    requires WellFormed(t) && domain < |t.shm|
    ensures var (t', r) := AddClock(t, index, domain, dev, reachable, writable);
            && (r == 0 <==> Find(t.clds, index, domain).None? && reachable && dev in t.hw)
            && (r != 0 ==> r == -1 && t'.clds == t.clds)
            && (r == 0 ==>
                  && Find(t'.clds, index, domain) == Some(|t.clds|) && t'.clds[..|t.clds|] == t.clds
                  && t'.hw == t.hw
                  && var c := t'.clds[|t.clds|];
                     && c.dev == dev && c.writable == writable && c.mode == Master && c.ppb == 0
                     && forall hw :: GetTs(c, hw) == hw)
  {
    var (t', r) := AddClock(t, index, domain, dev, reachable, writable);
    if r == 0 {
      FindAppended(t.clds, t'.clds[|t.clds|], index, domain);
      assert Is(t'.clds[|t.clds|], index, domain);
    }
  }
}
