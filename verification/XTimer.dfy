/** The timer queue (tsn_combase/cb_xtimer.c): a list of running timers sorted by deadline,
    the scheduling pass that fires them, and the timeout it hands to the event loop. */
module XTimer {
  import opened Arith

  const USEC_NS: int := 1000

  /** What an expiry callback does to the timer it is called for. */
  datatype Callback = Ignore | Restart(us: nat) | StopSelf | ClearPeriodic

  /** uint64_t converted to int */
  function ToInt32(x: nat): int {
    var low := x % TWO32;
    if low < TWO31 then low else low - TWO32
  }

  /** The microseconds to sleep until `deadline`, as the int that is returned. */
  function SleepTime(deadline: nat, now: nat): int {
    if deadline <= now then 0 else ToInt32((deadline - now) / USEC_NS)
  }

  /** Sleeping as long as told never passes the deadline, for any distance to it. */
  lemma SleepNeverOverruns(deadline: nat, now: nat)
    requires deadline > now && SleepTime(deadline, now) >= 0
    ensures now + SleepTime(deadline, now) * USEC_NS <= deadline
  {
    var us := (deadline - now) / USEC_NS;
    assert us * USEC_NS <= deadline - now;
    assert us % TWO32 <= us;
  }

  /** And below 2^31 microseconds it ends less than a microsecond before the deadline. */
  lemma SleepNeverFallsShort(deadline: nat, now: nat)
    requires (deadline - now) / USEC_NS < TWO31
    ensures deadline < now + SleepTime(deadline, now) * USEC_NS + USEC_NS
  {
    if deadline > now {
      var us := (deadline - now) / USEC_NS;
      assert SleepTime(deadline, now) == us;
      assert deadline - now < us * USEC_NS + USEC_NS;
    }
  }

  /** The header promises a value >= 0 while a timer is running. The conversion to int keeps
      that promise exactly when the low 32 bits of the distance in us are below 2^31: the first
      distance that breaks it is about 36 minutes. */
  lemma TimeoutIsNonNegativeIff(deadline: nat, now: nat)
    ensures SleepTime(deadline, now) >= 0
            <==> deadline <= now || (deadline - now) / USEC_NS % TWO32 < TWO31
  {
  }

  /** The monotonic clock; it moves on by itself between two readings. */
  class MtClock {
    var now: nat

    constructor ()
    {
      now := 0;
    }

    method Read() returns (t: nat)
      modifies this
      ensures t == now && now >= old(now)
    {
      var elapsed: nat :| elapsed >= 0;
      now := now + elapsed;
      t := now;
    }
  }

  /** The fields of a timer that a call may change. */
  datatype Data = Data(abstime: nat, timeoutUs: nat, isPeriodic: bool, isRunning: bool)

  class Timer {
    const callback: Callback
    var abstime: nat
    var timeoutUs: nat
    var isPeriodic: bool
    var isRunning: bool

    constructor (callback: Callback)
      ensures this.callback == callback && !isRunning && !isPeriodic && abstime == 0
    {
      this.callback := callback;
      abstime, timeoutUs, isPeriodic, isRunning := 0, 0, false, false;
    }

    ghost function Look(): Data
      reads this
    {
      Data(abstime, timeoutUs, isPeriodic, isRunning)
    }
  }

  ghost predicate Sorted(queue: seq<Timer>)
    reads queue
  {
    forall i, j | 0 <= i < j < |queue| :: queue[i].abstime <= queue[j].abstime
  }

  ghost predicate Distinct(queue: seq<Timer>) {
    forall i, j | 0 <= i < j < |queue| :: queue[i] != queue[j]
  }

  /** A timer held `before` when it expired: what it holds after its callback and re-arming.
      The clock read `lo` before and `hi` after. */
  predicate FiredOnce(callback: Callback, before: Data, lo: nat, hi: nat, after: Data) {
    match callback
    case Ignore =>
      if before.isPeriodic
      then after == before.(abstime := before.abstime + before.timeoutUs * USEC_NS, isRunning := true)
      else after == before.(isRunning := false)
    case Restart(us) =>
      after == before.(timeoutUs := us, isRunning := true, abstime := after.abstime)
      && if before.isPeriodic && before.abstime != 0 then after.abstime == before.abstime + us * USEC_NS
         else lo + us * USEC_NS <= after.abstime <= hi + us * USEC_NS
    case StopSelf => after == before.(isPeriodic := false, isRunning := false)
    case ClearPeriodic => after == before.(isPeriodic := false, isRunning := false)
  }

  lemma FiredOnceWidens(callback: Callback, before: Data, lo: nat, hi: nat, after: Data, lo': nat, hi': nat)
    requires FiredOnce(callback, before, lo, hi, after) && lo' <= lo && hi <= hi'
    ensures FiredOnce(callback, before, lo', hi', after)
  {
  }

  class TimerMan {
    const clock: MtClock
    var running: seq<Timer>
    ghost var timers: set<Timer>

    /** The timers whose callbacks have been called, oldest first. */
    ghost var firings: seq<Timer>

    constructor (clock: MtClock)
      ensures this.clock == clock && running == [] && timers == {} && firings == [] && Valid()
    {
      this.clock := clock;
      running := [];
      timers := {};
      firings := [];
    }

    /** `running` is sorted by deadline, no timer is listed twice, and is_running holds exactly
        for the listed ones; `pending` are timers taken off the list but not yet fired. */
    static ghost predicate Listed(timers: set<Timer>, running: seq<Timer>, pending: seq<Timer>)
      reads timers
    {
      && (forall t <- running :: t in timers)
      && (forall t <- pending :: t in timers)
      && Distinct(running + pending)
      && Sorted(running)
      && (forall t <- timers :: t.isRunning <==> t in running || t in pending)
    }

    ghost predicate Consistent(pending: seq<Timer>)
      reads this, timers
    {
      Listed(timers, running, pending)
    }

    /** Sorted by deadline, no timer twice, and is_running exactly for the members. */
    ghost predicate Valid()
      reads this, timers
    {
      Consistent([])
    }

    method Create(callback: Callback) returns (t: Timer)
      requires Valid()
      modifies this`timers
      ensures fresh(t) && t.callback == callback && !t.isRunning && !t.isPeriodic && t.abstime == 0
      ensures Valid() && timers == old(timers) + {t}
    {
      t := new Timer(callback);
      timers := timers + {t};
    }

    /** Where a deadline belongs: after the tail if it is not earlier than the tail, otherwise
        before the first one that is not earlier than it. */
    method Position(abstime: nat) returns (p: nat)
      requires Sorted(running)
      ensures p <= |running|
      ensures forall k | 0 <= k < p :: running[k].abstime <= abstime
      ensures forall k | p <= k < |running| :: abstime <= running[k].abstime
    {
      if running == [] || abstime >= running[|running| - 1].abstime {
        return |running|;
      }
      p := 0;
      while abstime > running[p].abstime
        invariant 0 <= p < |running|
        invariant forall k | 0 <= k < p :: running[k].abstime < abstime
        decreases |running| - p
      {
        p := p + 1;
      }
    }

    /** add_timer_abstime: -2 if the timer is already running. `p` is where it went. */
    method AddTimerAbstime(t: Timer, abstime: nat, ghost pending: seq<Timer>) returns (res: int, ghost p: nat)
      requires Consistent(pending) && t in timers
      modifies this`running, t`isRunning, t`abstime
      ensures Consistent(pending)
      ensures old(t.isRunning) ==> res == -2 && running == old(running) && t.abstime == old(t.abstime)
      ensures !old(t.isRunning) ==>
                res == 0 && t.abstime == abstime && p <= |old(running)|
                && running == old(running)[..p] + [t] + old(running)[p..]
      ensures t.isRunning
    {
      res, p := 0, 0;
      if t.isRunning {
        return -2, p;
      }
      ghost var queue := running;
      var at := Position(abstime);
      p := at;
      t.isRunning := true;
      t.abstime := abstime;
      running := running[..at] + [t] + running[at..];
      InsertedIsSorted(queue, p, t);
      InsertedIsDistinct(queue, p, t, pending);
      InsertedMembers(queue, p, t);
    }

    static lemma InsertedIsSorted(queue: seq<Timer>, p: nat, t: Timer)
      requires p <= |queue| && Sorted(queue)
      requires forall k | 0 <= k < p :: queue[k].abstime <= t.abstime
      requires forall k | p <= k < |queue| :: t.abstime <= queue[k].abstime
      ensures Sorted(queue[..p] + [t] + queue[p..])
    {
    }

    static lemma InsertedMembers(queue: seq<Timer>, p: nat, t: Timer)
      requires p <= |queue|
      ensures forall u :: u in queue[..p] + [t] + queue[p..] <==> u == t || u in queue
    {
      assert queue == queue[..p] + queue[p..];
    }

    static lemma InsertedIsDistinct(queue: seq<Timer>, p: nat, t: Timer, pending: seq<Timer>)
      requires p <= |queue| && Distinct(queue + pending) && t !in queue && t !in pending
      ensures Distinct(queue[..p] + [t] + queue[p..] + pending)
    {
      var all := queue + pending;
      var more := queue[..p] + [t] + queue[p..] + pending;
      forall i, j | 0 <= i < j < |more| ensures more[i] != more[j] {
        var i' := if i <= p then i else i - 1;
        var j' := if j <= p then j else j - 1;
        assert i != p ==> more[i] == all[i'];
        assert j != p ==> more[j] == all[j'];
        if i != p && j != p {
          assert i' < j';
        }
      }
    }

    /** cb_xtimer_start */
    method Start(t: Timer, us: nat, ghost pending: seq<Timer>) returns (res: int)
      requires Consistent(pending) && t in timers
      modifies this`running, t`isRunning, t`abstime, t`timeoutUs, clock
      ensures Consistent(pending) && clock.now >= old(clock.now)
      ensures old(t.isRunning) ==>
                res == -2 && running == old(running)
                && t.abstime == old(t.abstime) && t.timeoutUs == old(t.timeoutUs)
      ensures !old(t.isRunning) ==>
                res == 0 && t.timeoutUs == us
                && if t.isPeriodic && old(t.abstime) != 0
                   then t.abstime == old(t.abstime) + us * USEC_NS
                   else old(clock.now) + us * USEC_NS <= t.abstime <= clock.now + us * USEC_NS
      ensures !old(t.isRunning) ==> forall u :: u in running <==> u == t || u in old(running)
      ensures t.isRunning
    {
      var abstime: nat;
      if t.isPeriodic && t.abstime != 0 {
        abstime := t.abstime + us * USEC_NS;
      } else {
        var now := clock.Read();
        abstime := now + us * USEC_NS;
      }
      ghost var p;
      res, p := AddTimerAbstime(t, abstime, pending);
      if res != 0 {
        return;
      }
      InsertedMembers(old(running), p, t);
      t.timeoutUs := us;
    }

    static lemma WithoutOne(queue: seq<Timer>, i: nat)
      requires i < |queue| && Distinct(queue)
      ensures Distinct(queue[..i] + queue[i + 1..])
      ensures Sorted(queue) ==> Sorted(queue[..i] + queue[i + 1..])
      ensures forall u :: u in queue[..i] + queue[i + 1..] <==> u in queue && u != queue[i]
    {
      assert queue == queue[..i] + [queue[i]] + queue[i + 1..];
    }

    /** Takes a timer off the list. */
    method Unlink(t: Timer)
      requires t in running && Distinct(running) && Sorted(running)
      modifies this`running
      ensures Distinct(running) && Sorted(running)
      ensures forall u :: u in running <==> u in old(running) && u != t
    {
      var i := 0;
      while running[i] != t
        invariant 0 <= i < |running|
        invariant t !in running[..i]
        decreases |running| - i
      {
        i := i + 1;
      }
      WithoutOne(running, i);
      running := running[..i] + running[i + 1..];
    }

    /** cb_xtimer_stop */
    method Stop(t: Timer)
      requires Valid() && t in timers
      modifies this`running, t`isRunning, t`isPeriodic
      ensures Valid() && !t.isRunning && !t.isPeriodic
      ensures forall u :: u in running <==> u in old(running) && u != t
    {
      assert running + [] == running;
      if t.isRunning {
        Unlink(t);
        assert running + [] == running;
        t.isRunning := false;
      }
      t.isPeriodic := false;
    }

    /** cb_xtimer_delete: the other timers go on as they were. */
    method Delete(t: Timer)
      requires Valid() && t in timers
      modifies this`running, this`timers
      ensures Valid() && timers == old(timers) - {t}
      ensures forall u :: u in running <==> u in old(running) && u != t
    {
      assert running + [] == running;
      if t.isRunning {
        Unlink(t);
        assert running + [] == running;
      }
      timers := timers - {t};
    }

    /** cb_xtimer_set_periodic */
    method SetPeriodic(t: Timer)
      requires Valid() && t in timers
      modifies t`isPeriodic
      ensures Valid() && t.isPeriodic
    {
      t.isPeriodic := true;
    }

    /** The part of the second scheduling loop that handles one expired timer. */
    method Fire(t: Timer, ghost pending: seq<Timer>)
      requires Consistent([t] + pending)
      modifies this`running, this`firings, t, clock
      ensures Consistent(pending) && clock.now >= old(clock.now)
      ensures firings == old(firings) + [t]
      ensures FiredOnce(t.callback, old(t.Look()), old(clock.now), clock.now, t.Look())
    {
      assert t in [t] + pending;
      PoppedIsDistinct(running, t, pending);
      t.isRunning := false;
      firings := firings + [t];
      match t.callback {
        case Ignore =>
        case Restart(us) => var _ := Start(t, us, pending);
        case StopSelf => t.isPeriodic := false;
        case ClearPeriodic => t.isPeriodic := false;
      }
      if t.isPeriodic {
        var _, _ := AddTimerAbstime(t, t.timeoutUs * USEC_NS + t.abstime, pending);
      }
    }

    static lemma PoppedIsDistinct(queue: seq<Timer>, t: Timer, pending: seq<Timer>)
      requires Distinct(queue + ([t] + pending))
      ensures Distinct(queue + pending) && t !in queue && t !in pending
    {
      var all := queue + ([t] + pending);
      var k := |queue|;
      assert all[k] == t;
      assert queue + pending == all[..k] + all[k + 1..];
      WithoutOne(all, k);
      assert t !in queue + pending;
    }

    /** cb_xtimer_man_nearest_timeout: -2 when no timer is running. */
    method NearestTimeout() returns (res: int)
      requires Valid()
      modifies clock
      ensures clock.now >= old(clock.now)
      ensures res == if running == [] then -2 else SleepTime(running[0].abstime, clock.now)
    {
      var now := clock.Read();
      if running == [] {
        return -2;
      }
      if running[0].abstime <= now {
        return 0;
      }
      return ToInt32((running[0].abstime - now) / USEC_NS);
    }

    /** Takes the due timers off the list, keeping their order. */
    method TakeExpired(now: nat) returns (expired: seq<Timer>)
      requires Valid()
      modifies this`running
      ensures Consistent(expired)
      ensures |expired| <= |old(running)|
      ensures expired == old(running)[..|expired|] && running == old(running)[|expired|..]
      ensures forall k | 0 <= k < |old(running)| :: old(running)[k].abstime <= now <==> k < |expired|
    {
      expired := [];
      while running != []
        invariant |expired| + |running| == |old(running)|
        invariant expired == old(running)[..|expired|] && running == old(running)[|expired|..]
        invariant forall k | 0 <= k < |expired| :: old(running)[k].abstime <= now
        decreases |running|
      {
        var t := running[0];
        if t.abstime > now {
          break;
        }
        running := running[1..];
        expired := expired + [t];
      }
      assert expired + running == old(running);
      SplitListed(timers, expired, running);
    }

    static lemma SplitListed(timers: set<Timer>, a: seq<Timer>, b: seq<Timer>)
      requires Listed(timers, a + b, [])
      ensures Listed(timers, b, a)
      ensures b != [] ==> forall t <- b :: t.abstime >= b[0].abstime
    {
      assert a + b + [] == a + b;
      SplitIsDistinct(a, b);
      assert forall i | 0 <= i < |b| :: (a + b)[|a| + i] == b[i];
    }

    static lemma SplitIsDistinct(a: seq<Timer>, b: seq<Timer>)
      requires Distinct(a + b)
      ensures Distinct(b + a)
    {
      var ab, ba := a + b, b + a;
      forall i, j | 0 <= i < j < |ba| ensures ba[i] != ba[j] {
        var i' := if i < |b| then |a| + i else i - |b|;
        var j' := if j < |b| then |a| + j else j - |b|;
        assert ba[i] == ab[i'] && ba[j] == ab[j'];
      }
    }

    static ghost function Looks(due: seq<Timer>): (looks: seq<Data>)
      reads due
      ensures |looks| == |due| && forall k | 0 <= k < |due| :: looks[k] == due[k].Look()
    {
      seq(|due|, k requires 0 <= k < |due| reads due => due[k].Look())
    }

    /** Of the due timers, which held `before` and now hold `now`, the first n have been fired
        between the clock readings lo and hi, and the others are as they were. */
    static ghost predicate Fired(
        due: seq<Timer>, n: nat, before: seq<Data>, now: seq<Data>, lo: nat, hi: nat)
      requires n <= |due| == |before| == |now|
    {
      && (forall k | 0 <= k < n :: FiredOnce(due[k].callback, before[k], lo, hi, now[k]))
      && (forall k | n <= k < |due| :: now[k] == before[k])
    }

    /** One more of them is fired. */
    static lemma OneMoreFired(
        due: seq<Timer>, n: nat, before: seq<Data>, now: seq<Data>, after: seq<Data>,
        lo: nat, read: nat, hi: nat)
      requires n < |due| == |before| == |now| == |after| && lo <= read <= hi
      requires Fired(due, n, before, now, lo, read) && after == now[n := after[n]]
      requires FiredOnce(due[n].callback, now[n], read, hi, after[n])
      ensures Fired(due, n + 1, before, after, lo, hi)
    {
      forall k | 0 <= k < n ensures FiredOnce(due[k].callback, before[k], lo, hi, after[k]) {
        FiredOnceWidens(due[k].callback, before[k], lo, read, now[k], lo, hi);
      }
      FiredOnceWidens(due[n].callback, before[n], read, hi, after[n], lo, hi);
    }

    /** The body of the second loop, for the timer number n of those taken off the list. */
    method FireNext(t: Timer, ghost rest: seq<Timer>, ghost due: seq<Timer>, ghost n: nat,
                    ghost before: seq<Data>, ghost lo: nat)
      requires n < |due| == |before| && due[n] == t && Distinct(due)
      requires Consistent([t] + rest) && lo <= clock.now
      requires Fired(due, n, before, Looks(due), lo, clock.now)
      modifies this`running, this`firings, t, clock
      ensures Consistent(rest) && old(clock.now) <= clock.now && firings == old(firings) + [t]
      ensures Fired(due, n + 1, before, Looks(due), lo, clock.now)
    {
      hide Fired, Consistent, FiredOnce;
      ghost var now := Looks(due);
      Fire(t, rest);
      assert Looks(due) == now[n := t.Look()];
      OneMoreFired(due, n, before, now, Looks(due), lo, old(clock.now), clock.now);
    }

    /** The second loop: fires what was taken off the list, each once and in its order. */
    method FireAll(due: seq<Timer>)
      requires Consistent(due)
      modifies this`running, this`firings, due, clock
      ensures Valid() && clock.now >= old(clock.now)
      ensures firings == old(firings) + due
      ensures forall t <- due :: FiredOnce(t.callback, old(t.Look()), old(clock.now), clock.now, t.Look())
    {
      DueIsDistinct(running, due);
      hide FiredOnce, Consistent;
      ghost var before := Looks(due);
      ghost var n := 0;
      var expired := due;
      while expired != []
        invariant n <= |due| && expired == due[n..]
        invariant Consistent(expired)
        invariant old(clock.now) <= clock.now
        invariant firings == old(firings) + due[..n]
        invariant Fired(due, n, before, Looks(due), old(clock.now), clock.now)
        decreases |expired|
      {
        var t := expired[0];
        expired := expired[1..];
        assert due[n..] == [t] + expired && due[..n + 1] == due[..n] + [t];
        FireNext(t, expired, due, n, before, old(clock.now));
        n := n + 1;
      }
    }

    static lemma DueIsDistinct(running: seq<Timer>, due: seq<Timer>)
      requires Distinct(running + due)
      ensures Distinct(due)
    {
      assert forall i | 0 <= i < |due| :: (running + due)[|running| + i] == due[i];
    }

    /** Both loops of the scheduling pass, for clock reading `now`. */
    method FireExpired(now: nat) returns (ghost fired: seq<Timer>)
      requires Valid()
      modifies this`running, this`firings, timers, clock
      ensures Valid() && old(clock.now) <= clock.now
      ensures fired <= old(running) && firings == old(firings) + fired
      ensures forall k | 0 <= k < |old(running)| :: old(running[k].abstime) <= now <==> k < |fired|
      ensures forall t <- fired :: FiredOnce(t.callback, old(t.Look()), old(clock.now), clock.now, t.Look())
      ensures forall t <- timers | t !in fired :: t.Look() == old(t.Look())
    {
      var expired := TakeExpired(now);
      FireAll(expired);
      fired := expired;
    }

    /** cb_xtimer_man_schedule at clock reading `now`: calls back exactly the timers whose
        deadline has come, each once, in the order of the list and so of their deadlines, and
        leaves every other timer alone. A periodic timer that is put back is not fired again. */
    method Schedule() returns (res: int, ghost now: nat, ghost fired: seq<Timer>)
      requires Valid()
      modifies this`running, this`firings, timers, clock
      ensures Valid()
      ensures old(clock.now) <= now <= clock.now
      ensures fired <= old(running) && firings == old(firings) + fired
      ensures Distinct(fired)
      ensures forall k | 0 <= k < |old(running)| :: old(running[k].abstime) <= now <==> k < |fired|
      ensures forall j, k | 0 <= j < k < |fired| :: old(running[j].abstime) <= old(running[k].abstime)
      ensures forall t <- fired :: FiredOnce(t.callback, old(t.Look()), now, clock.now, t.Look())
      ensures forall t <- timers | t !in fired :: t.Look() == old(t.Look())
      ensures res == if running == [] then -2 else SleepTime(running[0].abstime, clock.now)
    {
      assert Distinct(running) by {
        assert running + [] == running;
      }
      var cts := clock.Read();
      now := cts;
      fired := FireExpired(cts);
      ghost var read := clock.now;
      res := NearestTimeout();
      forall t <- fired ensures FiredOnce(t.callback, old(t.Look()), now, clock.now, t.Look()) {
        FiredOnceWidens(t.callback, old(t.Look()), now, read, t.Look(), now, clock.now);
      }
    }

    /** How often a timer occurs in a history of firings. */
    static ghost function Calls(firings: seq<Timer>, t: Timer): nat { multiset(firings)[t] }

    static lemma CallsAdd(a: seq<Timer>, b: seq<Timer>, t: Timer)
      ensures Calls(a + b, t) == Calls(a, t) + Calls(b, t)
    {
    }

    static lemma CallsNone(a: seq<Timer>, t: Timer)
      requires t !in a
      ensures Calls(a, t) == 0
    {
    }

    static lemma CallsOnce(fired: seq<Timer>, t: Timer)
      requires Distinct(fired)
      ensures Calls(fired, t) == if t in fired then 1 else 0
    {
      if t !in fired {
        CallsNone(fired, t);
      } else {
        var k :| 0 <= k < |fired| && fired[k] == t;
        var a, b := fired[..k], fired[k + 1..];
        assert Calls([t], t) == 1;
        assert fired == a + [t] + b;
        hide Calls;
        CallsNone(a, t);
        CallsNone(b, t);
        CallsAdd(a, [t], t);
        CallsAdd(a + [t], b, t);
      }
    }

    static lemma OneMoreRound(all: seq<Timer>, n: nat, fired: seq<Timer>, t: Timer)
      requires n <= |all|
      ensures (all + fired)[n..] == all[n..] + fired
      ensures Calls((all + fired)[n..], t) == Calls(all[n..], t) + Calls(fired, t)
    {
      CallsAdd(all[n..], fired, t);
      assert (all + fired)[n..] == all[n..] + fired;
    }

    /** One turn of the event loop as a periodic timer sees it. */
    method Turn(t: Timer) returns (ghost fired: seq<Timer>)
      requires Valid() && t in timers && t.callback == Ignore && t.isPeriodic && t.isRunning
      modifies this`running, this`firings, timers, clock
      ensures Valid() && firings == old(firings) + fired && Calls(fired, t) <= 1 && old(clock.now) <= clock.now
      ensures Calls(fired, t) == 0 ==> t.Look() == old(t.Look())
      ensures Calls(fired, t) == 1 ==>
                && old(t.abstime) <= clock.now
                && t.Look() == old(t.Look()).(abstime := old(t.abstime) + t.timeoutUs * USEC_NS)
    {
      var _, _, all := Schedule();
      fired := all;
      CallsOnce(fired, t);
    }

    /** The event loop of the header: schedule again and again, however late each pass is. A
        periodic timer whose callback leaves it alone does not drift: after n firings its
        deadline is the first one plus n periods, and it never fired before its time. */
    method EventLoop(rounds: nat, t: Timer) returns (ghost times: nat)
      requires Valid() && t in timers && t.callback == Ignore && t.isPeriodic && t.isRunning
      modifies this`running, this`firings, timers, clock
      ensures Valid()
      ensures t.Look() == old(t.Look()).(abstime := old(t.abstime) + times * (t.timeoutUs * USEC_NS))
      ensures times > 0 ==> t.abstime <= clock.now + t.timeoutUs * USEC_NS
      ensures old(firings) <= firings && times == Calls(firings[|old(firings)|..], t)
    {
      hide Calls, Valid;
      times := 0;
      ghost var period := t.timeoutUs * USEC_NS;
      ghost var n := |firings|;
      CallsOnce([], t);
      assert firings[n..] == [];
      for i := 0 to rounds
        invariant Valid()
        invariant |firings| >= n && old(firings) <= firings && times == Calls(firings[n..], t)
        invariant t.Look() == old(t.Look()).(abstime := old(t.abstime) + times * period)
        invariant times > 0 ==> t.abstime <= clock.now + period
      {
        ghost var before := firings;
        var fired := Turn(t);
        OneMoreRound(before, n, fired, t);
        assert (times + 1) * period == times * period + period;
        times := times + Calls(fired, t);
      }
    }
  }
}
