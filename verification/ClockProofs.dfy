/** The published copy of the clock table: that it agrees with what it summarises after every
    sequence of operations, and that changing rates and roles does not make time jump. */
module ClockProofs {
  import opened Arith
  import opened ClockTable

  // ----- the invariant -----

  predicate UniqueKeys(clds: seq<Clock>) {
    forall i, j | 0 <= i < j < |clds| :: clds[i].index != clds[j].index || clds[i].domain != clds[j].domain
  }

  /** A clock is in SLAVE_MAIN in at most one domain. */
  predicate OneMain(clds: seq<Clock>) {
    forall i, j | 0 <= i < |clds| && 0 <= j < |clds| ::
      clds[i].index == clds[j].index && clds[i].mode == SlaveMain && clds[j].mode == SlaveMain
      ==> clds[i].domain == clds[j].domain
  }

  /** `pub` is right for master clock m and thisClock c. */
  predicate Matches(m: Clock, c: Clock, pub: Pub) {
    && m.mode == Master && m.dev == c.dev
    && pub.offset == m.offset + c.offset
    && match c.mode
       case Master => false
       case SlaveMain => c.offset == 0 && c.rate == 0.0 && pub.rate == 0.0
       case SlaveSub => pub.rate == c.rate && (c.rate != 0.0 ==> pub.last == c.last)
  }

  /** Of a domain whose thisClock has been selected. */
  predicate Published(t: Table, d: nat)
    requires WellFormed(t) && d < |t.shm|
  {
    var m, c := Find(t.clds, 0, d), Find(t.clds, t.thisIndex[d], d);
    t.thisIndex[d] != 0 ==> m.Some? && c.Some? && Matches(t.clds[m.value], t.clds[c.value], t.shm[d])
  }

  predicate Inv(t: Table) {
    && WellFormed(t) && UniqueKeys(t.clds) && OneMain(t.clds)
    && forall d | 0 <= d < |t.shm| :: Published(t, d)
  }

  // ----- what a reader gets -----

  /** A reader of a matching copy computes the daemon's thisClock time plus the master offset,
      to within the nanosecond by which the two round differently. */
  lemma ReaderAgrees(m: Clock, c: Clock, pub: Pub, hw: int)
    requires Matches(m, c, pub)
    ensures -1 <= ReadPublished(pub, hw) - (GetTs(c, hw) + m.offset) <= 1
    ensures pub.rate == 0.0 ==> ReadPublished(pub, hw) == GetTs(c, hw) + m.offset
  {
    if pub.rate != 0.0 {
      TruncShift(hw + pub.offset, Scaled(pub.rate, hw - pub.last));
    }
  }

  lemma TruncShift(n: int, x: real)
    ensures -1 <= Trunc(n as real + x) - (n + Trunc(x)) <= 1
  {
    TruncBounds(x);
    TruncBounds(n as real + x);
  }

  // ----- an operation on one domain leaves the others alone -----

  predicate LocalTo(t: Table, t': Table, domain: nat) {
    && SameShape(t, t')
    && (forall k | 0 <= k < |t.clds| && t.clds[k].domain != domain :: t'.clds[k] == t.clds[k])
    && (forall d | 0 <= d < |t.shm| && d != domain ::
          d < |t.thisIndex| ==> t'.shm[d] == t.shm[d] && t'.thisIndex[d] == t.thisIndex[d])
  }

  lemma FindStable(clds: seq<Clock>, clds': seq<Clock>, index: nat, domain: nat)
    requires |clds| == |clds'| && forall k | 0 <= k < |clds| :: SameClock(clds[k], clds'[k])
    ensures Find(clds', index, domain) == Find(clds, index, domain)
  {
    var r, r' := Find(clds, index, domain), Find(clds', index, domain);
    if r.Some? && (r'.None? || r'.value > r.value) {
      assert Is(clds'[r.value], index, domain);
    }
    if r'.Some? && (r.None? || r.value > r'.value) {
      assert Is(clds[r'.value], index, domain);
    }
  }

  lemma OtherDomainsKept(t: Table, t': Table, domain: nat, d: nat)
    requires WellFormed(t) && WellFormed(t') && LocalTo(t, t', domain) && d != domain && d < |t.shm|
    requires Published(t, d)
    ensures Published(t', d)
  {
    FindStable(t.clds, t'.clds, 0, d);
    FindStable(t.clds, t'.clds, t.thisIndex[d], d);
  }

  lemma KeysKept(t: Table, t': Table)
    requires SameShape(t, t') && UniqueKeys(t.clds)
    ensures UniqueKeys(t'.clds)
  {
    forall i, j | 0 <= i < j < |t'.clds|
      ensures t'.clds[i].index != t'.clds[j].index || t'.clds[i].domain != t'.clds[j].domain
    {
      assert SameClock(t.clds[i], t'.clds[i]) && SameClock(t.clds[j], t'.clds[j]);
    }
  }

  predicate SameModes(t: Table, t': Table) {
    |t.clds| == |t'.clds| && forall k | 0 <= k < |t.clds| :: t'.clds[k].mode == t.clds[k].mode
  }

  lemma OneMainKept(t: Table, t': Table)
    requires SameShape(t, t') && SameModes(t, t') && OneMain(t.clds)
    ensures OneMain(t'.clds)
  {
    forall i, j | 0 <= i < |t'.clds| && 0 <= j < |t'.clds| && t'.clds[i].index == t'.clds[j].index
                  && t'.clds[i].mode == SlaveMain && t'.clds[j].mode == SlaveMain
      ensures t'.clds[i].domain == t'.clds[j].domain
    {
      assert SameClock(t.clds[i], t'.clds[i]) && SameClock(t.clds[j], t'.clds[j]);
    }
  }

  /** Enough to check an operation that keeps the modes in its own domain. */
  lemma InvFrom(t: Table, t': Table, domain: nat)
    requires Inv(t) && LocalTo(t, t', domain) && SameModes(t, t') && domain < |t.shm|
    requires WellFormed(t') && Published(t', domain)
    ensures Inv(t')
  {
    KeysKept(t, t');
    OneMainKept(t, t');
    forall d | 0 <= d < |t'.shm| ensures Published(t', d) {
      if d != domain {
        OtherDomainsKept(t, t', domain, d);
      }
    }
  }

  /** The record at i is the one get_clockod finds. */
  predicate Found(t: Table, i: nat) {
    i < |t.clds| && Find(t.clds, t.clds[i].index, t.clds[i].domain) == Some(i)
  }

  lemma PublishOffsetMatches(t: Table, i: nat, od: Clock)
    requires Inv(t) && Found(t, i) && SameClock(t.clds[i], od)
    requires od.mode == t.clds[i].mode && od.rate == t.clds[i].rate && od.mode != SlaveMain
    ensures Published(PublishOffset(Set(t, i, od), i), od.domain)
  {
    var d := od.domain;
    var t1 := Set(t, i, od);
    FindStable(t.clds, t1.clds, 0, d);
    FindStable(t.clds, t1.clds, t.thisIndex[d], d);
    assert PublishOffset(t1, i).clds == t1.clds;
    assert Published(t, d);
  }

  lemma PublishOffsetKeepsInv(t: Table, i: nat, od: Clock)
    requires Inv(t) && Found(t, i) && SameClock(t.clds[i], od)
    requires od.mode == t.clds[i].mode && od.rate == t.clds[i].rate && od.mode != SlaveMain
    ensures Inv(PublishOffset(Set(t, i, od), i))
  {
    PublishOffsetMatches(t, i, od);
    InvFrom(t, PublishOffset(Set(t, i, od), i), od.domain);
  }

  /** Changes that the published copy does not depend on. */
  lemma UnpublishedChange(t: Table, t': Table, i: nat)
    requires Inv(t) && Found(t, i) && SameShape(t, t') && t'.shm == t.shm && t'.thisIndex == t.thisIndex
    requires WellFormed(t')
    requires t'.clds == t.clds[i := t'.clds[i]] && t'.clds[i].mode == t.clds[i].mode
    requires t'.clds[i].rate == t.clds[i].rate
    requires t'.clds[i].offset == if t.clds[i].mode == SlaveMain then 0 else t.clds[i].offset
    requires t.clds[i].mode == SlaveSub ==> t'.clds[i].last == t.clds[i].last
    ensures Inv(t')
  {
    var d := t.clds[i].domain;
    FindStable(t.clds, t'.clds, 0, d);
    FindStable(t.clds, t'.clds, t.thisIndex[d], d);
    assert Published(t, d);
    InvFrom(t, t', d);
  }

  lemma SetTsOffsetKeepsInv(t: Table, i: nat, offset: int, e: nat)
    requires Inv(t) && Found(t, i)
    ensures Inv(SetTsOffset(t, i, offset, e))
  {
    var dev := t.clds[i].dev;
    var t1 := Elapse(t, dev, e);
    assert Inv(t1) by { ElapseKeepsInv(t, dev, e); }
    var od := t1.clds[i].(last := t1.hw[dev]);
    if od.mode == SlaveMain {
      UnpublishedChange(t1, SetTsOffset(t, i, offset, e), i);
    } else {
      PublishOffsetKeepsInv(t1, i, od.(offset := offset));
    }
  }

  lemma ElapseKeepsInv(t: Table, dev: nat, e: nat)
    requires Inv(t) && dev in t.hw
    ensures Inv(Elapse(t, dev, e))
  {
    var t' := Elapse(t, dev, e);
    assert WellFormed(t');
    forall d | 0 <= d < |t'.shm| ensures Published(t', d) {
      assert Published(t, d);
    }
  }

  lemma SetTsKeepsInv(t: Table, i: nat, ts: int, e1: nat, e2: nat)
    requires Inv(t) && Found(t, i)
    ensures Inv(SetTs(t, i, ts, e1, e2))
  {
    var t1 := Elapse(t, t.clds[i].dev, e1);
    ElapseKeepsInv(t, t.clds[i].dev, e1);
    assert Found(t1, i) by {
      assert t1.clds == t.clds;
    }
    var offset := ts - t1.hw[t.clds[i].dev];
    SetTsOffsetKeepsInv(t1, i, offset, e2);
    assert SetTs(t, i, ts, e1, e2) == SetTsOffset(t1, i, offset, e2);
  }

  lemma SetOffset64KeepsInv(t: Table, index: nat, domain: nat, offset: int, e: nat)
    requires Inv(t)
    ensures Inv(SetOffset64(t, index, domain, offset, e).0)
  {
    match Find(t.clds, index, domain)
    case None =>
    case Some(i) =>
      if t.clds[i].mode != SlaveMain {
        PublishOffsetKeepsInv(t, i, t.clds[i].(offset := offset));
      } else {
        SetTsOffsetKeepsInv(t, i, offset, e);
      }
  }

  // ----- changing the rate -----

  predicate IsThisClock(t: Table, i: nat)
    requires WellFormed(t) && i < |t.clds|
  {
    t.thisIndex[t.clds[i].domain] == t.clds[i].index && Find(t.clds, 0, t.clds[i].domain).Some?
  }

  lemma PublishesLast(t: Table, i: nat)
    requires WellFormed(t) && Found(t, i) && t.clds[i].mode == SlaveSub && IsThisClock(t, i)
    ensures PublishOffset(t, i).shm[t.clds[i].domain].last == t.clds[i].last
  {
  }

  lemma FoundStable(t: Table, i: nat, od: Clock)
    requires WellFormed(t) && Found(t, i) && SameClock(t.clds[i], od)
    ensures WellFormed(Set(t, i, od)) && Found(Set(t, i, od), i)
    ensures IsThisClock(Set(t, i, od), i) == IsThisClock(t, i)
  {
    FindStable(t.clds, Set(t, i, od).clds, 0, od.domain);
    FindStable(t.clds, Set(t, i, od).clds, od.index, od.domain);
  }

  /** The outcome of setting a SLAVE_SUB clock: its offset and start, published if it is thisClock. */
  predicate SubSet(t: Table, i: nat, offset: int, h: int, t': Table)
    requires WellFormed(t) && i < |t.clds|
  {
    && t'.clds == t.clds[i := t.clds[i].(offset := offset, last := h)]
    && t'.hw == t.hw[t.clds[i].dev := h]
    && t'.thisIndex == t.thisIndex
    && (IsThisClock(t, i) ==>
          t.clds[i].domain < |t'.shm| && t'.shm[t.clds[i].domain].last == h)
  }

  lemma SubSetTsOffsetEffect(t: Table, i: nat, offset: int, e: nat)
    requires WellFormed(t) && Found(t, i) && t.clds[i].mode == SlaveSub
    ensures SubSet(t, i, offset, t.hw[t.clds[i].dev] + e, SetTsOffset(t, i, offset, e))
  {
    var h := t.hw[t.clds[i].dev] + e;
    var t1 := Elapse(t, t.clds[i].dev, e);
    var od := t.clds[i].(offset := offset, last := h);
    FoundStable(t1, i, od);
    if IsThisClock(t, i) {
      PublishesLast(Set(t1, i, od), i);
    }
  }

  lemma RebaseSteps(t: Table, i: nat, e1: nat, e2: nat, e3: nat)
    requires WellFormed(t) && i < |t.clds|
    ensures var h1 := t.hw[t.clds[i].dev] + e1;
            Rebase(t, i, e1, e2, e3) ==
            SetTsOffset(t.(hw := t.hw[t.clds[i].dev := h1 + e2]), i, GetTs(t.clds[i], h1) - (h1 + e2), e3)
  {
    hide SetTsOffset, GetTs;
    var dev, h1 := t.clds[i].dev, t.hw[t.clds[i].dev] + e1;
    assert Elapse(Elapse(t, dev, e1), dev, e2) == t.(hw := t.hw[dev := h1 + e2]);
  }

  lemma SubSetLater(t: Table, i: nat, h: int, offset: int, e: nat)
    requires WellFormed(t) && Found(t, i) && t.clds[i].mode == SlaveSub
    ensures var t2 := t.(hw := t.hw[t.clds[i].dev := h]);
            WellFormed(t2) && SubSet(t, i, offset, h + e, SetTsOffset(t2, i, offset, e))
  {
    var t2 := t.(hw := t.hw[t.clds[i].dev := h]);
    SubSetTsOffsetEffect(t2, i, offset, e);
    assert t2.hw[t.clds[i].dev := h + e] == t.hw[t.clds[i].dev := h + e];
  }

  /** Restarting the software term publishes the time it starts from. */
  lemma RebaseEffect(t: Table, i: nat, e1: nat, e2: nat, e3: nat)
    requires WellFormed(t) && Found(t, i) && t.clds[i].mode == SlaveSub
    ensures var h1 := t.hw[t.clds[i].dev] + e1;
            SubSet(t, i, GetTs(t.clds[i], h1) - (h1 + e2), h1 + e2 + e3, Rebase(t, i, e1, e2, e3))
  {
    hide Rebase, SetTsOffset, GetTs;
    var dev, h1 := t.clds[i].dev, t.hw[t.clds[i].dev] + e1;
    var offset := GetTs(t.clds[i], h1) - (h1 + e2);
    SubSetLater(t, i, h1 + e2, offset, e3);
    RebaseSteps(t, i, e1, e2, e3);
  }

  lemma RebaseKeepsInv(t: Table, i: nat, e1: nat, e2: nat, e3: nat)
    requires Inv(t) && Found(t, i)
    ensures Inv(Rebase(t, i, e1, e2, e3))
  {
    var t1 := Elapse(t, t.clds[i].dev, e1);
    ElapseKeepsInv(t, t.clds[i].dev, e1);
    assert Found(t1, i) by {
      assert t1.clds == t.clds;
    }
    var ts := GetTs(t1.clds[i], t1.hw[t1.clds[i].dev]);
    SetTsKeepsInv(t1, i, ts, e2, e3);
    assert Rebase(t, i, e1, e2, e3) == SetTs(t1, i, ts, e2, e3);
  }

  /** A rate on thisClock together with the copy of it. */
  lemma RatePublished(t: Table, t': Table, i: nat, rate: real, ppb: int)
    requires Inv(t) && Found(t, i) && t.clds[i].mode == SlaveSub
    requires t.thisIndex[t.clds[i].domain] == t.clds[i].index
    requires Find(t.clds, 0, t.clds[i].domain).Some? ==> t.shm[t.clds[i].domain].last == t.clds[i].last
    requires t' == Set(t, i, t.clds[i].(rate := rate, ppb := ppb)).(shm := t'.shm)
    requires Find(t.clds, 0, t.clds[i].domain).Some? ==>
               t'.shm == t.shm[t.clds[i].domain := t.shm[t.clds[i].domain].(rate := rate)]
    requires Find(t.clds, 0, t.clds[i].domain).None? ==> t'.shm == t.shm
    ensures Inv(t')
  {
    var d := t.clds[i].domain;
    FindStable(t.clds, t'.clds, 0, d);
    FindStable(t.clds, t'.clds, t.thisIndex[d], d);
    assert Published(t, d);
    InvFrom(t, t', d);
  }

  lemma AdjustSoftwareKeepsInv(t: Table, i: nat, ppb: int, e1: nat, e2: nat, e3: nat)
    requires Inv(t) && Found(t, i) && t.clds[i].mode == SlaveSub
    requires t.thisIndex[t.clds[i].domain] == t.clds[i].index
    ensures Inv(AdjustSoftware(t, i, ppb, e1, e2, e3).0)
  {
    var t1 := Rebase(t, i, e1, e2, e3);
    RebaseKeepsInv(t, i, e1, e2, e3);
    RebaseEffect(t, i, e1, e2, e3);
    FindStable(t.clds, t1.clds, 0, t.clds[i].domain);
    FindStable(t.clds, t1.clds, t.clds[i].index, t.clds[i].domain);
    var t' := AdjustSoftware(t, i, ppb, e1, e2, e3).0;
    RatePublished(t1, t', i, ppb as real / BILLION, t'.clds[i].ppb);
  }

  /** The record of thisClock of a domain. */
  function ThisClock(t: Table, d: nat): Option<Clock>
    requires WellFormed(t) && d < |t.shm|
  {
    var c := Find(t.clds, t.thisIndex[d], d);
    if c.Some? then Some(t.clds[c.value]) else None
  }

  /** Adjusting a clock that was left in SLAVE_SUB when its domain moved to another thisClock
      overwrites the published rate with one that is not thisClock's. */
  lemma StaleAdjustIff(t: Table, i: nat, ppb: int, e1: nat, e2: nat, e3: nat)
    requires Inv(t) && Found(t, i) && t.clds[i].mode == SlaveSub
    requires t.thisIndex[t.clds[i].domain] != t.clds[i].index && t.thisIndex[t.clds[i].domain] != 0
    ensures ThisClock(t, t.clds[i].domain).Some?
    ensures Inv(AdjustSoftware(t, i, ppb, e1, e2, e3).0)
            <==> ThisClock(t, t.clds[i].domain).value.rate == ppb as real / BILLION
  {
    hide Rebase;
    var d := t.clds[i].domain;
    var t1 := Rebase(t, i, e1, e2, e3);
    RebaseKeepsInv(t, i, e1, e2, e3);
    RebaseEffect(t, i, e1, e2, e3);
    assert Published(t, d) && Published(t1, d);
    StaleRateIff(t1, AdjustSoftware(t, i, ppb, e1, e2, e3).0, i, ppb as real / BILLION);
    FindStable(t.clds, t1.clds, 0, d);
    FindStable(t.clds, t1.clds, t.thisIndex[d], d);
  }

  lemma StaleRateIff(t: Table, t': Table, i: nat, rate: real)
    requires Inv(t) && Found(t, i) && t.clds[i].mode == SlaveSub
    requires t.thisIndex[t.clds[i].domain] != t.clds[i].index && t.thisIndex[t.clds[i].domain] != 0
    requires Find(t.clds, 0, t.clds[i].domain).Some? && |t'.clds| == |t.clds|
    requires t' == Set(t, i, t.clds[i].(rate := rate, ppb := t'.clds[i].ppb)).(
                     shm := t.shm[t.clds[i].domain := t.shm[t.clds[i].domain].(rate := rate)])
    ensures ThisClock(t, t.clds[i].domain).Some?
    ensures Inv(t') <==> ThisClock(t, t.clds[i].domain).value.rate == rate
  {
    var d := t.clds[i].domain;
    FindStable(t.clds, t'.clds, 0, d);
    FindStable(t.clds, t'.clds, t.thisIndex[d], d);
    assert Published(t, d);
    if ThisClock(t, d).value.rate == rate {
      InvFrom(t, t', d);
    } else {
      assert !Published(t', d);
    }
  }

  /** A clock in SLAVE_SUB may be adjusted when it is thisClock of its domain, when its domain has
      none yet, or when thisClock has the same rate already. */
  predicate MayAdjust(t: Table, index: nat, domain: nat, ppb: int)
    requires WellFormed(t)
  {
    match Find(t.clds, index, domain)
    case None => true
    case Some(i) =>
      || t.clds[i].mode != SlaveSub || t.thisIndex[domain] == index || t.thisIndex[domain] == 0
      || (ThisClock(t, domain).Some? && ThisClock(t, domain).value.rate == ppb as real / BILLION)
  }

  lemma AdjustSoftwareIff(t: Table, i: nat, ppb: int, e1: nat, e2: nat, e3: nat)
    requires Inv(t) && Found(t, i) && t.clds[i].mode == SlaveSub
    ensures Inv(AdjustSoftware(t, i, ppb, e1, e2, e3).0)
            <==> MayAdjust(t, t.clds[i].index, t.clds[i].domain, ppb)
  {
    hide AdjustSoftware;
    var d := t.clds[i].domain;
    if t.thisIndex[d] == t.clds[i].index {
      AdjustSoftwareKeepsInv(t, i, ppb, e1, e2, e3);
    } else if t.thisIndex[d] == 0 {
      UnselectedAdjust(t, i, ppb, e1, e2, e3);
    } else {
      StaleAdjustIff(t, i, ppb, e1, e2, e3);
    }
  }

  lemma UnselectedAdjust(t: Table, i: nat, ppb: int, e1: nat, e2: nat, e3: nat)
    requires Inv(t) && Found(t, i) && t.clds[i].mode == SlaveSub && t.thisIndex[t.clds[i].domain] == 0
    ensures Inv(AdjustSoftware(t, i, ppb, e1, e2, e3).0)
  {
    hide Rebase;
    var t1 := Rebase(t, i, e1, e2, e3);
    RebaseKeepsInv(t, i, e1, e2, e3);
    RebaseEffect(t, i, e1, e2, e3);
    InvFrom(t1, AdjustSoftware(t, i, ppb, e1, e2, e3).0, t.clds[i].domain);
  }

  lemma PpbKeepsInv(t: Table, thisPpb: seq<int>)
    requires Inv(t) && |thisPpb| == |t.thisPpb|
    ensures Inv(t.(thisPpb := thisPpb))
  {
    var t' := t.(thisPpb := thisPpb);
    forall d | 0 <= d < |t'.shm| ensures Published(t', d) {
      assert Published(t, d);
    }
  }

  /** gptpclock_setadj keeps the published copy right exactly when the guard holds. */
  lemma SetAdjKeepsInvIff(
      t: Table, index: nat, domain: nat, ppb: int, accepted: bool, e1: nat, e2: nat, e3: nat)
    requires Inv(t)
    ensures Inv(SetAdj(t, index, domain, ppb, accepted, e1, e2, e3).0) <==> MayAdjust(t, index, domain, ppb)
  {
    hide AdjustSoftware;
    match Find(t.clds, index, domain)
    case None =>
    case Some(i) =>
      var thisPpb := if t.thisIndex[domain] == index then t.thisPpb[domain := ppb] else t.thisPpb;
      var t1 := t.(thisPpb := thisPpb);
      PpbKeepsInv(t, thisPpb);
      var t' := SetAdj(t, index, domain, ppb, accepted, e1, e2, e3).0;
      match t.clds[i].mode {
        case Master => assert t' == t1;
        case SlaveSub =>
          AdjustSoftwareIff(t1, i, ppb, e1, e2, e3);
          assert t' == AdjustSoftware(t1, i, ppb, e1, e2, e3).0;
        case SlaveMain =>
          if accepted {
            MainAdjustKeepsInv(t1, i, ppb);
            assert t' == Set(t1, i, t1.clds[i].(ppb := ppb)).(hwPpb := t1.hwPpb[t1.clds[i].dev := ppb]);
          } else {
            assert t' == t1;
          }
      }
  }

  lemma MainAdjustKeepsInv(t: Table, i: nat, ppb: int)
    requires Inv(t) && Found(t, i)
    ensures Inv(Set(t, i, t.clds[i].(ppb := ppb)).(hwPpb := t.hwPpb[t.clds[i].dev := ppb]))
  {
    var t' := Set(t, i, t.clds[i].(ppb := ppb)).(hwPpb := t.hwPpb[t.clds[i].dev := ppb]);
    var d := t.clds[i].domain;
    FindStable(t.clds, t'.clds, 0, d);
    FindStable(t.clds, t'.clds, t.thisIndex[d], d);
    assert Published(t, d);
    InvFrom(t, t', d);
  }

  /** A frequency change in SLAVE_SUB moves the time of the clock by no more than the hardware
      moved during the call, and by nothing at all when the hardware stood still. */
  lemma AdjustDoesNotJump(t: Table, i: nat, ppb: int, e1: nat, e2: nat, e3: nat)
    requires WellFormed(t) && Found(t, i) && t.clds[i].mode == SlaveSub
    ensures var t' := AdjustSoftware(t, i, ppb, e1, e2, e3).0;
            var dev := t.clds[i].dev;
            var before := GetTs(t.clds[i], t.hw[dev] + e1);
            var after := GetTs(t'.clds[i], t'.hw[dev]);
            && t'.hw[dev] == t.hw[dev] + e1 + e2 + e3
            && after - before == e3
            && 0 <= after - before <= t'.hw[dev] - t.hw[dev]
  {
    RebaseEffect(t, i, e1, e2, e3);
    var t' := AdjustSoftware(t, i, ppb, e1, e2, e3).0;
    assert t'.clds[i].last == t'.hw[t.clds[i].dev];
    NothingYet(t'.clds[i].rate);
  }

  lemma NothingYet(rate: real)
    ensures Trunc(Scaled(rate, 0)) == 0
  {
  }
}
