/** The clock table as the daemon holds it: records, shared memory and hardware clocks updated in
    place (tsn_gptp/gptpclock.c). Each method is tied to the function of ClockTable it carries
    out. The hardware runs on by `e` ns before each reading. */
module ClockMachine {
  import opened Arith
  import opened ClockProofs
  import opened ClockTable

  class GptpClock {
    var clds: seq<Clock>
    var shm: seq<Pub>
    var thisIndex: seq<nat>
    var thisPpb: seq<int>
    var hw: map<nat, int>
    var hwPpb: map<nat, int>

    ghost function Abs(): Table
      reads this
    {
      Table(clds, shm, thisIndex, thisPpb, hw, hwPpb)
    }

    ghost predicate Valid()
      reads this
    {
      WellFormed(Abs())
    }

    constructor (domains: nat, hardware: map<nat, int>)
      ensures Valid() && clds == [] && hw == hardware
      ensures |shm| == domains && forall d | 0 <= d < domains :: thisIndex[d] == 0
    {
      clds := [];
      shm := seq(domains, _ => Pub(0, 0, 0.0));
      thisIndex := seq(domains, _ => 0);
      thisPpb := seq(domains, _ => 0);
      hw := hardware;
      hwPpb := map[];
    }

    /** get_clockod */
    method GetClockod(index: nat, domain: nat) returns (r: Option<nat>)
      ensures r == Find(clds, index, domain)
    {
      var i := 0;
      while i < |clds|
        invariant i <= |clds|
        invariant Find(clds, index, domain) == FindFrom(clds, index, domain, i)
      {
        if clds[i].index == index && clds[i].domain == domain {
          return Some(i);
        }
        i := i + 1;
      }
      return None;
    }

    /** GPTP_CLOCK_GETTIME */
    method GetTime(dev: nat, e: nat) returns (ts: int)
      requires Valid() && dev in hw
      modifies `hw
      ensures Valid() && Abs() == Elapse(old(Abs()), dev, e) && ts == hw[dev]
    {
      ts := hw[dev] + e;
      hw := hw[dev := ts];
    }

    /** gptpclock_getts_od */
    method GetTsOd(i: nat, e: nat) returns (ts: int)
      requires Valid() && i < |clds|
      modifies `hw
      ensures Valid() && Abs() == Elapse(old(Abs()), clds[i].dev, e)
      ensures ts == GetTs(clds[i], hw[clds[i].dev])
    {
      var od := clds[i];
      ts := GetTime(od.dev, e);
      var dts := 0;
      if od.rate != 0.0 && od.mode == SlaveSub {
        dts := ts - od.last;
        dts := Trunc(od.rate * dts as real);
      }
      ts := ts + od.offset;
      ts := ts + dts;
    }

    /** gptpmasterclock_get_domain_ts64, with the mutex held */
    method GetDomainTs64(d: nat, dev: nat, e: nat) returns (ts: int)
      requires Valid() && dev in hw && d < |shm|
      modifies `hw
      ensures Valid() && Abs() == Elapse(old(Abs()), dev, e)
      ensures ts == ReadPublished(shm[d], hw[dev])
    {
      ts := GetTime(dev, e);
      var dts := ts - shm[d].last;
      ts := ts + shm[d].offset;
      if shm[d].rate != 0.0 {
        ts := Trunc(ts as real + shm[d].rate * dts as real);
      }
    }

    /** gptpclock_setoffset_od */
    method SetOffsetOd(i: nat)
      requires Valid() && i < |clds|
      modifies `shm
      ensures Valid() && Abs() == PublishOffset(old(Abs()), i)
    {
      var od := clds[i];
      var d := od.domain;
      if od.mode == Master {
        var od0 := GetClockod(0, d);
        var odt := GetClockod(thisIndex[d], d);
        if odt.Some? && od0 == Some(i) {
          shm := shm[d := shm[d].(offset := od.offset + clds[odt.value].offset)];
        }
      } else if od.mode == SlaveSub {
        var od0 := GetClockod(0, d);
        var odt := GetClockod(thisIndex[d], d);
        if od0.Some? && odt == Some(i) {
          shm := shm[d := shm[d].(last := od.last)];
          shm := shm[d := shm[d].(offset := clds[od0.value].offset + od.offset)];
        }
      }
    }

    /** gptpclock_setts_offset_od */
    method SetTsOffsetOd(i: nat, offset: int, e: nat)
      requires Valid() && i < |clds|
      modifies `clds, `shm, `hw
      ensures Valid() && Abs() == SetTsOffset(old(Abs()), i, offset, e)
    {
      var dev := clds[i].dev;
      var now := GetTime(dev, e);
      clds := clds[i := clds[i].(last := now)];
      clds := clds[i := clds[i].(offset := offset)];
      if clds[i].mode == SlaveMain {
        clds := clds[i := clds[i].(offset := 0)];
        hw := hw[dev := hw[dev] + offset];
        assert clds == old(clds)[i := old(clds)[i].(last := now, offset := 0)];
      } else {
        assert clds == old(clds)[i := old(clds)[i].(last := now, offset := offset)];
        SetOffsetOd(i);
      }
    }

    /** gptpclock_setts_od */
    method SetTsOd(i: nat, ts: int, e1: nat, e2: nat)
      requires Valid() && i < |clds|
      modifies `clds, `shm, `hw
      ensures Valid() && Abs() == SetTs(old(Abs()), i, ts, e1, e2)
    {
      var cts := GetTime(clds[i].dev, e1);
      SetTsOffsetOd(i, ts - cts, e2);
    }

    method SetTs64(index: nat, domain: nat, ts: int, e1: nat, e2: nat) returns (r: int)
      requires Valid()
      modifies `clds, `shm, `hw
      ensures Valid() && (Abs(), r) == ClockTable.SetTs64(old(Abs()), index, domain, ts, e1, e2)
    {
      var od := GetClockod(index, domain);
      if od.None? {
        return -1;
      }
      SetTsOd(od.value, ts, e1, e2);
      return 0;
    }

    method SetOffset64(index: nat, domain: nat, offset: int, e: nat) returns (r: int)
      requires Valid()
      modifies `clds, `shm, `hw
      ensures Valid() && (Abs(), r) == ClockTable.SetOffset64(old(Abs()), index, domain, offset, e)
    {
      var od := GetClockod(index, domain);
      if od.None? {
        return -1;
      }
      var i := od.value;
      if clds[i].mode != SlaveMain {
        clds := clds[i := clds[i].(offset := offset)];
        SetOffsetOd(i);
        return 0;
      }
      SetTsOffsetOd(i, offset, e);
      return 0;
    }

    /** Reads the clock and sets it to what it read: the software term starts again. */
    method RebaseOd(i: nat, e1: nat, e2: nat, e3: nat)
      requires Valid() && i < |clds|
      modifies `clds, `shm, `hw
      ensures Valid() && Abs() == Rebase(old(Abs()), i, e1, e2, e3)
    {
      var ts := GetTsOd(i, e1);
      SetTsOd(i, ts, e2, e3);
    }

    /** Stores the rate of the clock and publishes it. */
    method StoreRate(i: nat, ppb: int) returns (r: int)
      requires Valid() && i < |clds|
      modifies `clds, `shm
      ensures r == if Find(old(clds), 0, old(clds)[i].domain).None? then -1 else 0
      ensures r != 0 ==> shm == old(shm) && clds == old(clds)[i := old(clds)[i].(rate := ppb as real / BILLION)]
      ensures r == 0 ==> clds == old(clds)[i := old(clds)[i].(rate := ppb as real / BILLION, ppb := ppb)]
      ensures var d := old(clds)[i].domain;
              r == 0 ==> shm == old(shm)[d := old(shm)[d].(rate := ppb as real / BILLION)]
    {
      var rate := ppb as real / BILLION;
      var domain := clds[i].domain;
      clds := clds[i := clds[i].(rate := rate)];
      var od0 := GetClockod(0, domain);
      FindStable(old(clds), clds, 0, domain);
      if od0.None? {
        return -1;
      }
      shm := shm[domain := shm[domain].(rate := rate)];
      clds := clds[i := clds[i].(ppb := ppb)];
      return 0;
    }

    /** The SLAVE_SUB case of gptpclock_setadj. */
    method AdjustSub(i: nat, ppb: int, e1: nat, e2: nat, e3: nat) returns (r: int)
      requires Valid() && i < |clds|
      modifies `clds, `shm, `hw
      ensures Valid() && (Abs(), r) == AdjustSoftware(old(Abs()), i, ppb, e1, e2, e3)
    {
      hide Rebase, Find;
      RebaseOd(i, e1, e2, e3);
      FindStable(old(clds), clds, 0, clds[i].domain);
      r := StoreRate(i, ppb);
    }

    /** gptpclock_setadj */
    method SetAdj(index: nat, domain: nat, ppb: int, accepted: bool, e1: nat, e2: nat, e3: nat) returns (r: int)
      requires Valid()
      modifies this
      ensures Valid() && (Abs(), r) == ClockTable.SetAdj(old(Abs()), index, domain, ppb, accepted, e1, e2, e3)
    {
      var od := GetClockod(index, domain);
      if od.None? {
        return -1;
      }
      var i := od.value;
      if thisIndex[domain] == index {
        thisPpb := thisPpb[domain := ppb];
      }
      match clds[i].mode {
        case SlaveMain =>
          if !accepted {
            return -1;
          }
          hwPpb := hwPpb[clds[i].dev := ppb];
          clds := clds[i := clds[i].(ppb := ppb)];
          return 0;
        case Master =>
          return -1;
        case SlaveSub =>
          r := AdjustSub(i, ppb, e1, e2, e3);
      }
    }

    /** Whether another domain holds the clock in SLAVE_MAIN. */
    method AlreadyMain(index: nat, domain: nat) returns (r: bool)
      ensures r == MainElsewhere(clds, index, domain)
    {
      var i := 0;
      while i < |clds|
        invariant i <= |clds|
        invariant forall k | 0 <= k < i ::
                    !(clds[k].index == index && clds[k].domain != domain && clds[k].mode == SlaveMain)
      {
        if clds[i].index == index && clds[i].domain != domain {
          if clds[i].mode == SlaveMain {
            return true;
          }
        }
        i := i + 1;
      }
      return false;
    }

    /** gptpclock_mode_slave_main */
    method ModeSlaveMain(index: nat, domain: nat) returns (r: int)
      requires Valid()
      modifies `clds, `shm
      ensures Valid() && (Abs(), r) == ClockTable.ModeSlaveMain(old(Abs()), index, domain)
    {
      var od := GetClockod(index, domain);
      if od.None? {
        return -1;
      }
      var i := od.value;
      var taken := AlreadyMain(clds[i].index, clds[i].domain);
      if taken {
        return -1;
      }
      clds := clds[i := clds[i].(mode := SlaveMain, rate := 0.0)];
      var od0 := GetClockod(0, domain);
      if od0.None? {
        return -1;
      }
      shm := shm[domain := shm[domain].(rate := 0.0)];
      shm := shm[domain := shm[domain].(offset := clds[od0.value].offset)];
      assert shm == old(shm)[domain := old(shm)[domain].(rate := 0.0, offset := clds[od0.value].offset)];
      return 0;
    }

    /** The part of gptpclock_set_thisClock that moves offset and rate to the hardware. */
    method MoveToHardware(i: nat, m: nat, rate: real, accepted: bool, e1: nat, e2: nat)
      requires Valid() && i < |clds| && m < |clds|
      modifies this
      ensures Valid() && Abs() == ClockTable.MoveToHardware(old(Abs()), i, m, rate, accepted, e1, e2)
    {
      hide ClockTable.SetOffset64, ClockTable.SetAdj, Trunc;
      var index, domain := clds[i].index, clds[i].domain;
      if clds[i].offset != 0 {
        var _ := SetOffset64(index, domain, clds[i].offset, e1);
      }
      if rate != 0.0 {
        var _ := SetAdj(index, domain, Trunc(rate * SEC_NS as real), accepted, 0, 0, 0);
      }
      var _ := SetOffset64(index, domain, clds[m].offset, e2);
    }

    /** The end of gptpclock_set_thisClock. */
    method ClearMaster(i: nat, m: nat)
      requires Valid() && i < |clds| && m < |clds|
      modifies `clds, `shm
      ensures Valid() && Abs() == ClockTable.ClearMaster(old(Abs()), i, m)
    {
      clds := clds[m := clds[m].(offset := 0)];
      var d := clds[m].domain;
      shm := shm[d := shm[d].(offset := clds[m].offset + clds[i].offset)];
    }

    /** Either branch of gptpclock_set_thisClock. */
    method Reselect(i: nat, m: nat, para: bool, accepted: bool, e1: nat, e2: nat)
      requires Valid() && i < |clds| && m < |clds| && Find(clds, 0, clds[i].domain).Some?
      modifies this
      ensures Valid() && Abs() == ClockTable.Reselect(old(Abs()), i, m, para, accepted, e1, e2)
    {
      hide ClockTable.ModeSlaveMain, ClockTable.MoveToHardware, ClockTable.ClearMaster, Find;
      var rate := clds[i].rate;
      var res := -1;
      if ClockTable.ModeSlaveMain(Abs(), clds[i].index, clds[i].domain).1 != 0 {
        RefusalChangesNothing(Abs(), clds[i].index, clds[i].domain);
      }
      if clds[i].writable {
        res := ModeSlaveMain(clds[i].index, clds[i].domain);
      }
      if res == 0 {
        if !para {
          return;
        }
        MoveToHardware(i, m, rate, accepted, e1, e2);
      } else {
        clds := clds[i := clds[i].(mode := SlaveSub)];
        if !para {
          assert clds == old(clds)[i := old(clds)[i].(mode := SlaveSub, offset := old(clds)[i].offset)];
          return;
        }
        clds := clds[i := clds[i].(offset := clds[i].offset + clds[m].offset)];
        assert clds == old(clds)[i := old(clds)[i].(
                         mode := SlaveSub, offset := old(clds)[i].offset + old(clds)[m].offset)];
      }
      ClearMaster(i, m);
    }

    /** gptpclock_set_thisClock */
    method SetThisClock(index: nat, domain: nat, para: bool, accepted: bool, e1: nat, e2: nat) returns (r: int)
      requires Valid()
      modifies this
      ensures Valid() && (Abs(), r) == ClockTable.SetThisClock(old(Abs()), index, domain, para, accepted, e1, e2)
    {
      hide ClockTable.Reselect;
      if index == 0 {
        return -1;
      }
      var od := GetClockod(index, domain);
      if od.None? {
        return -1;
      }
      var mod := GetClockod(0, domain);
      if mod.None? || clds[od.value].dev != clds[mod.value].dev {
        return -1;
      }
      thisIndex := thisIndex[domain := index];
      clds := clds[mod.value := clds[mod.value].(mode := Master)];
      FindStable(old(clds), clds, 0, domain);
      Reselect(od.value, mod.value, para, accepted, e1, e2);
      return 0;
    }

    /** gptpclock_add_clock: the record is dropped again when the device cannot be reached. */
    method AddClock(index: nat, domain: nat, dev: nat, reachable: bool, writable: bool) returns (r: int)
      requires Valid() && domain < |shm|
      modifies `clds, `shm
      ensures Valid() && (Abs(), r) == ClockTable.AddClock(old(Abs()), index, domain, dev, reachable, writable)
    {
      var found := GetClockod(index, domain);
      if found.Some? {
        return -1;
      }
      if index == 0 {
        shm := shm[domain := Pub(0, 0, 0.0)];
      }
      if !reachable || dev !in hw {
        return -1;
      }
      clds := clds + [Clock(index, domain, dev, writable, Master, 0, 0, 0.0, 0)];
      return 0;
    }
  }

  lemma RefusalChangesNothing(t: Table, index: nat, domain: nat)
    requires WellFormed(t) && Find(t.clds, 0, domain).Some? && ClockTable.ModeSlaveMain(t, index, domain).1 != 0
    ensures ClockTable.ModeSlaveMain(t, index, domain).0 == t
  {
    var i := Find(t.clds, index, domain);
    if i.Some? {
      FindStable(t.clds, t.clds[i.value := t.clds[i.value].(mode := SlaveMain, rate := 0.0)], 0, domain);
    }
  }
}
