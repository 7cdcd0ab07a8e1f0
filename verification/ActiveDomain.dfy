/** The choice of the active domain from the synchronization states of all domains
    (tsn_gptp/gptpclock.c). A record is looked up by an 8-bit domain
    index, and a state is stored in 8 bits. */
module ActiveDomain {
  import opened Arith

  const STABLE := 2

  /** `gmsync` has the state of each domain with a master clock record; `manual` is
      active_domain_switch, negative for automatic; `auto` the configured switching mode. */
  datatype Domains = Domains(gmsync: seq<Option<nat>>, active: nat, manual: int, auto: nat)

  predicate HasMaster(s: Domains, d: nat) { d < |s.gmsync| && s.gmsync[d].Some? }

  predicate StableAt(s: Domains, d: nat) { HasMaster(s, d) && s.gmsync[d].value == STABLE }

  /** switch_active_domain */
  function Switch(s: Domains, d: nat): (Domains, int) {
    if s.active == d then (s, 1) else (s.(active := d), 0)
  }

  /** The scan for a stable domain, from index i on. With at most 256 domains i is the 8-bit index
      by which its record is looked up. */
  function Scan(s: Domains, i: nat): (r: (Domains, int))
    requires i <= |s.gmsync|
    ensures r.0 == s.(active := r.0.active)
    decreases |s.gmsync| - i
  {
    if i == |s.gmsync| || !HasMaster(s, i) then (s, -1)
    else if StableAt(s, i) then Switch(s, i)
    else Scan(s, i + 1)
  }

  /** gptpclock_update_active_domain */
  function Update(s: Domains): (r: (Domains, int))
    ensures r.0 == s.(active := r.0.active)
  {
    if s.manual >= 0 then Switch(s, s.manual)
    else if s.auto == 0 then (s, 0)
    else if !HasMaster(s, s.active % 256) then (s, -1)
    else if StableAt(s, s.active % 256) && s.auto == 1 then (s, 0)
    else Scan(s, 0)
  }

  /** gptpclock_set_gmsync */
  function SetGmsync(s: Domains, d: nat, gmstate: U32): (r: (Domains, int)) {
    if !HasMaster(s, d) then (s, -1)
    else if s.gmsync[d].value == gmstate then (s, 0)
    else (Update(s.(gmsync := s.gmsync[d := Some(gmstate % 256)])).0, 0)
  }

  /** gptpclock_active_domain_switch */
  function SetManual(s: Domains, d: int): (Domains, int) {
    var s1 := s.(manual := d);
    if d < 0 || d >= |s.gmsync| then (s1, 0) else Switch(s1, d)
  }

  // ----- one update -----

  predicate Automatic(s: Domains) { s.manual < 0 && s.auto != 0 }

  predicate Complete(s: Domains) {
    s.active < |s.gmsync| <= 256 && forall d | 0 <= d < |s.gmsync| :: s.gmsync[d].Some?
  }

  predicate SomeStable(s: Domains) { exists d | 0 <= d < |s.gmsync| :: StableAt(s, d) }

  predicate Lowest(s: Domains, d: nat) {
    StableAt(s, d) && forall k | 0 <= k < d :: !StableAt(s, k)
  }

  /** The active domain is stable whenever some domain is. */
  predicate Safe(s: Domains) { SomeStable(s) ==> StableAt(s, s.active) }

  /** d is the first stable domain from index i on, and all before it have a master clock. */
  predicate FirstFrom(s: Domains, i: nat, d: nat) {
    i <= d && StableAt(s, d) && forall k | i <= k < d :: HasMaster(s, k) && !StableAt(s, k)
  }

  ghost predicate ReachesStable(s: Domains, i: nat) { exists d: nat :: FirstFrom(s, i, d) }

  lemma FirstFromNext(s: Domains, i: nat, d: nat)
    requires HasMaster(s, i) && !StableAt(s, i)
    ensures FirstFrom(s, i, d) <==> FirstFrom(s, i + 1, d)
  {
  }

  /** The scan finds the first stable domain, unless a domain without master clock comes before
      it; then it changes nothing and fails. */
  lemma {:induction false} ScanFinds(s: Domains, i: nat)
    requires i <= |s.gmsync|
    ensures ReachesStable(s, i) ==> FirstFrom(s, i, Scan(s, i).0.active) && Scan(s, i).1 >= 0
    ensures !ReachesStable(s, i) ==> Scan(s, i) == (s, -1)
    decreases |s.gmsync| - i
  {
    if i < |s.gmsync| && HasMaster(s, i) {
      if StableAt(s, i) {
        assert FirstFrom(s, i, i);
      } else {
        ScanFinds(s, i + 1);
        var next := i + 1;
        if d: nat :| FirstFrom(s, next, d) {
          FirstFromNext(s, i, d);
          FirstFromNext(s, i, Scan(s, i).0.active);
        }
        if d: nat :| FirstFrom(s, i, d) {
          FirstFromNext(s, i, d);
        }
      }
    }
  }

  /** Exactly when an automatic update leaves the active domain stable if any domain is. The scan
      stops at the first domain without a master clock, and does not start without one in the
      active domain. */
  lemma UpdateIsSafeIff(s: Domains)
    requires Automatic(s) && s.active < 256
    ensures Safe(Update(s).0)
            <==> !SomeStable(s) || StableAt(s, s.active) || (HasMaster(s, s.active) && ReachesStable(s, 0))
  {
    var t := Update(s).0;
    assert forall d :: StableAt(t, d) == StableAt(s, d);
    assert SomeStable(t) == SomeStable(s);
    ScanFinds(s, 0);
  }

  lemma {:induction false} StableIsReached(s: Domains, i: nat, d: nat)
    requires Complete(s) && i <= d && StableAt(s, d)
    ensures ReachesStable(s, i)
    decreases d - i
  {
    if StableAt(s, i) {
      assert FirstFrom(s, i, i);
    } else {
      StableIsReached(s, i + 1, d);
      var first: nat :| FirstFrom(s, i + 1, first);
      FirstFromNext(s, i, first);
    }
  }

  lemma CompleteReaches(s: Domains)
    requires Complete(s)
    ensures ReachesStable(s, 0) <==> SomeStable(s)
  {
    if SomeStable(s) {
      var d :| 0 <= d < |s.gmsync| && StableAt(s, d);
      StableIsReached(s, 0, d);
    }
    if ReachesStable(s, 0) {
      var d: nat :| FirstFrom(s, 0, d);
      assert StableAt(s, d);
    }
  }

  /** With a master clock in every domain an update is safe; in mode 1 it keeps a stable active
      domain, and in any other mode it goes to the lowest stable one. */
  lemma UpdateChooses(s: Domains)
    requires Automatic(s) && Complete(s)
    ensures var t := Update(s).0;
            && Safe(t) && Complete(t)
            && (s.auto == 1 && StableAt(s, s.active) ==> t == s)
            && (!(s.auto == 1 && StableAt(s, s.active)) && SomeStable(s) ==> Lowest(t, t.active))
            && (!SomeStable(s) ==> t == s)
  {
    UpdateIsSafeIff(s);
    CompleteReaches(s);
    ScanFinds(s, 0);
    var t := Update(s).0;
    assert forall d :: StableAt(t, d) == StableAt(s, d);
  }

  // ----- all runs -----

  datatype Op = SetState(d: nat, gmstate: U32) | SetSwitch(x: int)

  function Apply(s: Domains, op: Op): Domains {
    match op
    case SetState(d, gmstate) => SetGmsync(s, d, gmstate).0
    case SetSwitch(x) => SetManual(s, x).0
  }

  function Run(s: Domains, ops: seq<Op>): Domains
    decreases |ops|
  {
    if ops == [] then s else Run(Apply(s, ops[0]), ops[1..])
  }

  predicate Good(s: Domains) { Automatic(s) && Complete(s) && Safe(s) }

  lemma ApplyKeepsGood(s: Domains, op: Op)
    requires Good(s) && (op.SetSwitch? ==> op.x < 0)
    ensures Good(Apply(s, op))
  {
    match op
    case SetState(d, gmstate) =>
      if HasMaster(s, d) && s.gmsync[d].value != gmstate {
        UpdateChooses(s.(gmsync := s.gmsync[d := Some(gmstate % 256)]));
      }
    case SetSwitch(x) =>
      var t := Apply(s, op);
      assert forall d :: StableAt(t, d) == StableAt(s, d);
  }

  /** Over any run of state changes, and requests for the automatic mode, from a fresh daemon
      whose domains all have a master clock, the active domain is stable whenever some domain is. */
  lemma {:induction false} ActiveIsStable(s: Domains, ops: seq<Op>)
    requires Good(s) && forall op <- ops :: op.SetSwitch? ==> op.x < 0
    ensures Good(Run(s, ops))
    decreases |ops|
  {
    if ops != [] {
      ApplyKeepsGood(s, ops[0]);
      ActiveIsStable(Apply(s, ops[0]), ops[1..]);
    }
  }

  /** Mode 1: a stable active domain is not displaced by anything that happens elsewhere. */
  lemma {:induction false} StableIsNotDisplaced(s: Domains, ops: seq<Op>)
    requires Automatic(s) && s.auto == 1 && StableAt(s, s.active) && |s.gmsync| <= 256
    requires forall op <- ops ::
               if op.SetSwitch? then op.x < 0 else op.d == s.active ==> op.gmstate % 256 == STABLE
    ensures Run(s, ops).active == s.active && StableAt(Run(s, ops), s.active)
    decreases |ops|
  {
    if ops != [] {
      var t := Apply(s, ops[0]);
      assert ops[0] in ops;
      assert t.active == s.active && StableAt(t, t.active);
      StableIsNotDisplaced(t, ops[1..]);
    }
  }

  /** In the other automatic modes every change of a state leads to the lowest stable domain. */
  lemma ChangeGoesToLowest(s: Domains, d: nat, gmstate: U32)
    requires Automatic(s) && s.auto != 1 && Complete(s)
    requires d < |s.gmsync| && s.gmsync[d].value != gmstate
    ensures var t := SetGmsync(s, d, gmstate).0;
            if SomeStable(t) then Lowest(t, t.active) else t.active == s.active
  {
    var s1 := s.(gmsync := s.gmsync[d := Some(gmstate % 256)]);
    UpdateChooses(s1);
    var t := Update(s1).0;
    assert forall k :: StableAt(t, k) == StableAt(s1, k);
    assert SomeStable(t) == SomeStable(s1);
  }

  // ----- manual numbers that are out of range -----

  predicate InRange(s: Domains) { s.active < |s.gmsync| }

  /** A state changes while a number out of range is in force. */
  predicate LeavesRange(s: Domains, op: Op) {
    && op.SetState? && HasMaster(s, op.d) && s.gmsync[op.d].value != op.gmstate
    && s.manual >= |s.gmsync|
  }

  /** Setting the number never takes the active domain out of range; a change of a state does if
      and only if a number out of range is in force. */
  lemma InRangeIff(s: Domains, op: Op)
    requires InRange(s)
    ensures InRange(Apply(s, op)) <==> !LeavesRange(s, op)
  {
    if op.SetState? && HasMaster(s, op.d) && s.gmsync[op.d].value != op.gmstate {
      var s1 := s.(gmsync := s.gmsync[op.d := Some(op.gmstate % 256)]);
      ScanFinds(s1, 0);
    }
  }

  predicate AlwaysInRange(s: Domains, ops: seq<Op>)
    decreases |ops|
  {
    InRange(s) && (ops != [] ==> AlwaysInRange(Apply(s, ops[0]), ops[1..]))
  }

  predicate NeverLeavesRange(s: Domains, ops: seq<Op>)
    decreases |ops|
  {
    ops != [] ==> !LeavesRange(s, ops[0]) && NeverLeavesRange(Apply(s, ops[0]), ops[1..])
  }

  /** Over any run of state changes and manual switches. */
  lemma {:induction false} AlwaysInRangeIff(s: Domains, ops: seq<Op>)
    requires InRange(s)
    ensures AlwaysInRange(s, ops) <==> NeverLeavesRange(s, ops)
    decreases |ops|
  {
    if ops != [] {
      InRangeIff(s, ops[0]);
      if InRange(Apply(s, ops[0])) {
        AlwaysInRangeIff(Apply(s, ops[0]), ops[1..]);
      }
    }
  }

  /** Such an input: the number is refused for the moment, and taken at the next change. */
  lemma OutOfRangeSwitchTakesEffectLater(s: Domains, x: int, d: nat, gmstate: U32)
    requires x >= |s.gmsync| && HasMaster(s, d) && s.gmsync[d].value != gmstate
    ensures Apply(s, SetSwitch(x)).active == s.active
    ensures var t := Run(s, [SetSwitch(x), SetState(d, gmstate)]);
            t.active == x && !HasMaster(t, t.active)
            && (gmstate % 256 == STABLE ==> !Safe(t))
  {
    var ops := [SetSwitch(x), SetState(d, gmstate)];
    var s1 := Apply(s, ops[0]);
    var t := Apply(s1, ops[1]);
    assert Run(s, ops) == Run(s1, ops[1..]) == Run(t, ops[1..][1..]);
    assert gmstate % 256 == STABLE ==> StableAt(t, d);
  }

  // ----- the daemon's own state -----

  class DomainSelector {
    var gmsync: seq<Option<nat>>
    var active: nat
    var manual: int
    const auto: nat

    ghost function Abs(): Domains
      reads this
    {
      Domains(gmsync, active, manual, auto)
    }

    constructor (domains: nat, auto: nat)
      ensures Abs() == Domains(seq(domains, _ => None), 0, -1, auto)
    {
      gmsync, active, manual, this.auto := seq(domains, _ => None), 0, -1, auto;
    }

    method SwitchActive(d: nat) returns (r: int)
      modifies `active
      ensures (Abs(), r) == Switch(old(Abs()), d)
    {
      if active == d {
        return 1;
      }
      active := d;
      return 0;
    }

    method UpdateActive() returns (r: int)
      modifies `active
      ensures (Abs(), r) == Update(old(Abs()))
    {
      if manual >= 0 {
        r := SwitchActive(manual);
        return;
      }
      if auto == 0 {
        return 0;
      }
      var current := active % 256;
      if current >= |gmsync| || gmsync[current].None? {
        return -1;
      }
      if gmsync[current].value == STABLE && auto == 1 {
        return 0;
      }
      var i := 0;
      while i < |gmsync|
        invariant i <= |gmsync| && Abs() == old(Abs())
        invariant Scan(Abs(), 0) == Scan(Abs(), i)
      {
        if gmsync[i].None? {
          return -1;
        }
        if gmsync[i].value == STABLE {
          r := SwitchActive(i);
          return;
        }
        i := i + 1;
      }
      return -1;
    }

    method ChangeState(d: nat, gmstate: U32) returns (r: int)
      modifies `active, `gmsync
      ensures (Abs(), r) == SetGmsync(old(Abs()), d, gmstate)
    {
      if d >= |gmsync| || gmsync[d].None? {
        return -1;
      }
      if gmsync[d].value == gmstate {
        return 0;
      }
      gmsync := gmsync[d := Some(gmstate % 256)];
      var _ := UpdateActive();
      return 0;
    }

    method ActiveDomainSwitch(d: int) returns (r: int)
      modifies `active, `manual
      ensures (Abs(), r) == SetManual(old(Abs()), d)
    {
      manual := d;
      if d < 0 || d >= |gmsync| {
        return 0;
      }
      r := SwitchActive(d);
    }
  }
}
