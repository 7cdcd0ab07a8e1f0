/** The daemon's table of PTP clocks and the copy it publishes in shared memory
    (tsn_gptp/gptpclock.c, and the reader in tsn_gptp/gptpmasterclock.c). Every reading of a
    hardware clock may come later than the one before it: `e` is how much later. */
module ClockTable {
  import opened Arith

  datatype Mode = Master | SlaveMain | SlaveSub

  /** One oneclock_data record. `last` is last_setts64, `rate` the software frequency
      adjustment, `writable` whether the device may be adjusted (PTPCLOCK_RDWR). */
  datatype Clock = Clock(
    index: nat, domain: nat, dev: nat, writable: bool, mode: Mode,
    offset: int, last: int, rate: real, ppb: int)

  /** What a domain shares with other processes. */
  datatype Pub = Pub(offset: int, last: int, rate: real)

  /** `hw` is the time of each hardware clock, `hwPpb` its frequency adjustment. */
  datatype Table = Table(
    clds: seq<Clock>, shm: seq<Pub>, thisIndex: seq<nat>, thisPpb: seq<int>,
    hw: map<nat, int>, hwPpb: map<nat, int>)

  predicate Is(c: Clock, index: nat, domain: nat) { c.index == index && c.domain == domain }

  /** get_clockod: the first record with these indices, from position i on. */
  function FindFrom(clds: seq<Clock>, index: nat, domain: nat, i: nat): (r: Option<nat>)
    requires i <= |clds|
    ensures r.Some? ==> i <= r.value < |clds| && Is(clds[r.value], index, domain)
    ensures forall k | i <= k < (if r.Some? then r.value else |clds|) :: !Is(clds[k], index, domain)
    decreases |clds| - i
  {
    if i == |clds| then None
    else if Is(clds[i], index, domain) then Some(i)
    else FindFrom(clds, index, domain, i + 1)
  }

  function Find(clds: seq<Clock>, index: nat, domain: nat): Option<nat> { FindFrom(clds, index, domain, 0) }

  predicate WellFormed(t: Table) {
    && |t.thisIndex| == |t.shm| == |t.thisPpb|
    && (forall k | 0 <= k < |t.clds| :: t.clds[k].domain < |t.shm| && t.clds[k].dev in t.hw)
  }

  predicate SameClock(a: Clock, b: Clock) {
    a.index == b.index && a.domain == b.domain && a.dev == b.dev && a.writable == b.writable
  }

  /** No operation but AddClock changes which clocks there are. */
  predicate SameShape(t: Table, t': Table) {
    && |t'.clds| == |t.clds|
    && (forall k | 0 <= k < |t.clds| :: SameClock(t.clds[k], t'.clds[k]))
    && |t'.shm| == |t.shm| && |t'.thisIndex| == |t.thisIndex| && |t'.thisPpb| == |t.thisPpb|
    && t'.hw.Keys == t.hw.Keys
  }

  function Set(t: Table, i: nat, c: Clock): Table
    requires i < |t.clds|
  {
    t.(clds := t.clds[i := c])
  }

  /** A hardware clock runs on for e ns. */
  function Elapse(t: Table, dev: nat, e: nat): Table
    requires dev in t.hw
  {
    t.(hw := t.hw[dev := t.hw[dev] + e])
  }

  // ----- reading a clock -----

  function Scaled(rate: real, ns: int): real { rate * ns as real }

  /** What the software frequency adjustment has added since it was set. */
  function SoftwareTerm(c: Clock, hw: int): int {
    if c.rate != 0.0 && c.mode == SlaveSub then Trunc(Scaled(c.rate, hw - c.last)) else 0
  }

  /** gptpclock_getts_od at hardware time hw. */
  function GetTs(c: Clock, hw: int): int { hw + c.offset + SoftwareTerm(c, hw) }

  /** gptpmasterclock_get_domain_ts64 at hardware time hw. */
  function ReadPublished(pub: Pub, hw: int): int {
    if pub.rate != 0.0
    then Trunc((hw + pub.offset) as real + Scaled(pub.rate, hw - pub.last))
    else hw + pub.offset
  }

  // ----- updating the copy -----

  /** gptpclock_setoffset_od */
  function PublishOffset(t: Table, i: nat): (r: Table)
    requires WellFormed(t) && i < |t.clds|
    ensures SameShape(t, r) && r == t.(shm := r.shm)
  {
    var od := t.clds[i];
    var d := od.domain;
    var od0 := Find(t.clds, 0, d);
    var odt := Find(t.clds, t.thisIndex[d], d);
    match od.mode
    case Master =>
      if odt.Some? && od0 == Some(i)
      then t.(shm := t.shm[d := t.shm[d].(offset := od.offset + t.clds[odt.value].offset)])
      else t
    case SlaveSub =>
      if od0.Some? && odt == Some(i)
      then t.(shm := t.shm[d := t.shm[d].(last := od.last, offset := t.clds[od0.value].offset + od.offset)])
      else t
    case SlaveMain => t
  }

  /** gptpclock_setts_offset_od: steps the hardware itself in SLAVE_MAIN. */
  function SetTsOffset(t: Table, i: nat, offset: int, e: nat): (r: Table)
    requires WellFormed(t) && i < |t.clds|
    ensures SameShape(t, r)
  {
    var dev := t.clds[i].dev;
    var t1 := Elapse(t, dev, e);
    var od := t1.clds[i].(last := t1.hw[dev]);
    if od.mode == SlaveMain
    then Set(t1, i, od.(offset := 0)).(hw := t1.hw[dev := t1.hw[dev] + offset])
    else PublishOffset(Set(t1, i, od.(offset := offset)), i)
  }

  /** gptpclock_setts_od */
  function SetTs(t: Table, i: nat, ts: int, e1: nat, e2: nat): (r: Table)
    requires WellFormed(t) && i < |t.clds|
    ensures SameShape(t, r)
  {
    var t1 := Elapse(t, t.clds[i].dev, e1);
    SetTsOffset(t1, i, ts - t1.hw[t.clds[i].dev], e2)
  }

  /** gptpclock_setts64 */
  function SetTs64(t: Table, index: nat, domain: nat, ts: int, e1: nat, e2: nat): (r: (Table, int))
    requires WellFormed(t)
    ensures SameShape(t, r.0)
  {
    match Find(t.clds, index, domain)
    case None => (t, -1)
    case Some(i) => (SetTs(t, i, ts, e1, e2), 0)
  }

  /** gptpclock_setoffset64 */
  function SetOffset64(t: Table, index: nat, domain: nat, offset: int, e: nat): (r: (Table, int))
    requires WellFormed(t)
    ensures SameShape(t, r.0)
  {
    match Find(t.clds, index, domain)
    case None => (t, -1)
    case Some(i) =>
      if t.clds[i].mode != SlaveMain
      then (PublishOffset(Set(t, i, t.clds[i].(offset := offset)), i), 0)
      else (SetTsOffset(t, i, offset, e), 0)
  }

  const BILLION := 1_000_000_000.0

  /** Restart the software adjustment at the present time of the clock, so that the new rate
      applies from here on. */
  function Rebase(t: Table, i: nat, e1: nat, e2: nat, e3: nat): (r: Table)
    requires WellFormed(t) && i < |t.clds|
    ensures SameShape(t, r)
  {
    var t1 := Elapse(t, t.clds[i].dev, e1);
    SetTs(t1, i, GetTs(t1.clds[i], t1.hw[t1.clds[i].dev]), e2, e3)
  }

  function AdjustSoftware(t: Table, i: nat, ppb: int, e1: nat, e2: nat, e3: nat): (r: (Table, int))
    requires WellFormed(t) && i < |t.clds|
    ensures SameShape(t, r.0)
  {
    var t1 := Rebase(t, i, e1, e2, e3);
    var domain := t.clds[i].domain;
    var rate := ppb as real / BILLION;
    if Find(t.clds, 0, domain).None? then (Set(t1, i, t1.clds[i].(rate := rate)), -1)
    else
      (Set(t1, i, t1.clds[i].(rate := rate, ppb := ppb)).(
         shm := t1.shm[domain := t1.shm[domain].(rate := rate)]), 0)
  }

  /** gptpclock_setadj; `accepted` is whether the hardware takes the adjustment. */
  function SetAdj(t: Table, index: nat, domain: nat, ppb: int, accepted: bool, e1: nat, e2: nat, e3: nat)
    : (r: (Table, int))
    requires WellFormed(t)
    ensures SameShape(t, r.0)
  {
    match Find(t.clds, index, domain)
    case None => (t, -1)
    case Some(i) =>
      var t := if t.thisIndex[domain] == index then t.(thisPpb := t.thisPpb[domain := ppb]) else t;
      match t.clds[i].mode
      case SlaveMain =>
        if !accepted then (t, -1)
        else (Set(t, i, t.clds[i].(ppb := ppb)).(hwPpb := t.hwPpb[t.clds[i].dev := ppb]), 0)
      case Master => (t, -1)
      case SlaveSub => AdjustSoftware(t, i, ppb, e1, e2, e3)
  }

  // ----- selecting thisClock -----

  predicate MainElsewhere(clds: seq<Clock>, index: nat, domain: nat) {
    exists c <- clds :: c.index == index && c.domain != domain && c.mode == SlaveMain
  }

  /** gptpclock_mode_slave_main */
  function ModeSlaveMain(t: Table, index: nat, domain: nat): (r: (Table, int))
    requires WellFormed(t)
    ensures SameShape(t, r.0)
  {
    match Find(t.clds, index, domain)
    case None => (t, -1)
    case Some(i) =>
      if MainElsewhere(t.clds, index, domain) then (t, -1)
      else
        var t1 := Set(t, i, t.clds[i].(mode := SlaveMain, rate := 0.0));
        match Find(t1.clds, 0, domain)
        case None => (t1, -1)
        case Some(m) =>
          (t1.(shm := t1.shm[domain := t1.shm[domain].(rate := 0.0, offset := t1.clds[m].offset)]), 0)
  }

  function MoveOffset(t: Table, i: nat, e: nat): (r: Table)
    requires WellFormed(t) && i < |t.clds|
    ensures SameShape(t, r)
  {
    var c := t.clds[i];
    if c.offset != 0 then SetOffset64(t, c.index, c.domain, c.offset, e).0 else t
  }

  function MoveRate(t: Table, i: nat, rate: real, accepted: bool): (r: Table)
    requires WellFormed(t) && i < |t.clds|
    ensures SameShape(t, r)
  {
    var c := t.clds[i];
    if rate != 0.0
    then SetAdj(t, c.index, c.domain, Trunc(rate * SEC_NS as real), accepted, 0, 0, 0).0 else t
  }

  /** The clock at i moves its own offset and rate, and then the master's offset, to hardware. */
  function MoveToHardware(t: Table, i: nat, m: nat, rate: real, accepted: bool, e1: nat, e2: nat): (r: Table)
    requires WellFormed(t) && i < |t.clds| && m < |t.clds|
    ensures SameShape(t, r)
  {
    var t2 := MoveRate(MoveOffset(t, i, e1), i, rate, accepted);
    SetOffset64(t2, t2.clds[i].index, t2.clds[i].domain, t2.clds[m].offset, e2).0
  }

  /** SLAVE_SUB takes over the offset of the master clock. */
  function EnterSub(t: Table, i: nat, m: nat, para: bool): (r: Table)
    requires i < |t.clds| && m < |t.clds|
    ensures SameShape(t, r)
  {
    Set(t, i, t.clds[i].(mode := SlaveSub,
                         offset := if para then t.clds[i].offset + t.clds[m].offset else t.clds[i].offset))
  }

  /** The offset of the master clock has been moved to the clock at i. */
  function ClearMaster(t: Table, i: nat, m: nat): (r: Table)
    requires WellFormed(t) && i < |t.clds| && m < |t.clds|
    ensures SameShape(t, r)
  {
    var domain := t.clds[m].domain;
    var t1 := Set(t, m, t.clds[m].(offset := 0));
    t1.(shm := t1.shm[domain := t1.shm[domain].(offset := t1.clds[i].offset)])
  }

  /** `t` is the table after gptpclock_mode_slave_main succeeded; `rate` the rate before it. */
  function SelectMain(t: Table, i: nat, m: nat, rate: real, accepted: bool, e1: nat, e2: nat): (r: Table)
    requires WellFormed(t) && i < |t.clds| && m < |t.clds|
    ensures SameShape(t, r)
  {
    ClearMaster(MoveToHardware(t, i, m, rate, accepted, e1, e2), i, m)
  }

  function SelectSub(t: Table, i: nat, m: nat, para: bool): (r: Table)
    requires WellFormed(t) && i < |t.clds| && m < |t.clds|
    ensures SameShape(t, r)
  {
    var t1 := EnterSub(t, i, m, para);
    if para then ClearMaster(t1, i, m) else t1
  }

  /** SLAVE_MAIN if the device may be adjusted and no other domain holds this clock in
      SLAVE_MAIN, otherwise SLAVE_SUB. */
  function Reselect(t: Table, i: nat, m: nat, para: bool, accepted: bool, e1: nat, e2: nat): (r: Table)
    requires WellFormed(t) && i < |t.clds| && m < |t.clds|
    ensures SameShape(t, r)
  {
    var od := t.clds[i];
    var (t1, res) := ModeSlaveMain(t, od.index, od.domain);
    if od.writable && res == 0 then
      if para then SelectMain(t1, i, m, od.rate, accepted, e1, e2) else t1
    else SelectSub(t, i, m, para)
  }

  /** gptpclock_set_thisClock; `para` is set_clock_para. */
  function SetThisClock(t: Table, index: nat, domain: nat, para: bool, accepted: bool, e1: nat, e2: nat)
    : (r: (Table, int))
    requires WellFormed(t)
    ensures SameShape(t, r.0)
  {
    var i, m := Find(t.clds, index, domain), Find(t.clds, 0, domain);
    if index == 0 || i.None? || m.None? || t.clds[i.value].dev != t.clds[m.value].dev then (t, -1)
    else
      var t1 := Set(t.(thisIndex := t.thisIndex[domain := index]), m.value,
                    t.clds[m.value].(mode := Master));
      (Reselect(t1, i.value, m.value, para, accepted, e1, e2), 0)
  }

  /** gptpclock_add_clock; `reachable` is whether the device could be reachable. */
  function AddClock(t: Table, index: nat, domain: nat, dev: nat, reachable: bool, writable: bool): (Table, int)
    requires WellFormed(t) && domain < |t.shm|
  {
    if Find(t.clds, index, domain).Some? then (t, -1)
    else
      var t1 := if index == 0 then t.(shm := t.shm[domain := Pub(0, 0, 0.0)]) else t;
      if !reachable || dev !in t.hw then (t1, -1)
      else (t1.(clds := t1.clds + [Clock(index, domain, dev, writable, Master, 0, 0, 0.0, 0)]), 0)
  }
}
