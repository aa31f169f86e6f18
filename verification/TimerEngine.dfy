/**
 The timer half of the engine: one kernel timer, armed for the earliest entry of
 the timer index, whose expiry queues that entry's event.
 */
module TimerEngines {
  import opened Basics
  import opened TimerIndex

  /** `timerEvent` was armed at `armedAt` to expire after `delay`; `queue` is the event queue. */
  datatype Armed = Armed(pending: Pending, timerEvent: Option<Key>, armedAt: int, delay: int, queue: seq<Key>)

  datatype Op =
    | Set(key: Key, alive: bool, now: int, timeout: int, later: int)
    | Cancel(key: Key, alive: bool, now: int)
    | CancelAll(owner: nat, now: int)
    | Expire(now: int)

  const NOTHING_ARMED := Armed(map[], None, 0, 0, [])

  function Perform(s: Armed, arm: ArmCall, now: int): Armed {
    match arm
    case Keep => s
    case Disarm => s.(timerEvent := None)
    case Arm(key, delay) => s.(timerEvent := Some(key), armedAt := now, delay := delay)
  }

  /** `setTimer` on a date that another timer has. */
  ghost predicate Traps(s: Armed, op: Op) {
    op.Set? && op.alive && Clash(s.pending, op.key, op.now + op.timeout)
  }

  ghost function Apply(s: Armed, op: Op): Armed
    requires op.Expire? && s.timerEvent.Some? ==> s.pending != map[]
  {
    match op
    case Set(key, alive, now, timeout, later) =>
      if alive then
        var p := s.pending[key := now + timeout];
        Perform(s.(pending := p), Rearm(s.pending, p, later), later)
      else s
    case Cancel(key, alive, now) =>
      if alive then
        var p := s.pending - {key};
        Perform(s.(pending := p), Rearm(s.pending, p, now), now)
      else s
    case CancelAll(owner, now) =>
      var p := Without(s.pending, owner);
      Perform(s.(pending := p), Rearm(s.pending, p, now), now)
    case Expire(now) =>
      if s.timerEvent.Some? then
        var p := s.pending - {Head(s.pending).value};
        Perform(s.(pending := p, timerEvent := None, queue := s.queue + [s.timerEvent.value]), ArmHead(p, now), now)
      else s
  }

  /** The armed event is the earliest timer, and no two timers share a date. */
  ghost predicate Coupled(s: Armed) {
    Distinct(s.pending) && s.timerEvent == Head(s.pending)
  }

  lemma PerformKeepsCoupled(s: Armed, p: Pending, now: int)
    requires Coupled(s) && Distinct(p)
    ensures Coupled(Perform(s.(pending := p), Rearm(s.pending, p, now), now))
  {
  }

  lemma SetKeepsDistinct(p: Pending, key: Key, date: int)
    requires Distinct(p) && !Clash(p, key, date)
    ensures Distinct(p[key := date])
  {
  }

  lemma ExpireKeepsCoupled(s: Armed, now: int)
    requires Coupled(s)
    ensures Coupled(Apply(s, Expire(now)))
  {
  }

  lemma ApplyKeepsCoupled(s: Armed, op: Op)
    requires Coupled(s) && !Traps(s, op)
    ensures Coupled(Apply(s, op))
  {
    match op
    case Set(key, alive, now, timeout, later) =>
      if alive {
        SetKeepsDistinct(s.pending, key, now + timeout);
        PerformKeepsCoupled(s, s.pending[key := now + timeout], later);
      }
    case Cancel(key, alive, now) =>
      if alive {
        PerformKeepsCoupled(s, s.pending - {key}, now);
      }
    case CancelAll(owner, now) => PerformKeepsCoupled(s, Without(s.pending, owner), now);
    case Expire(now) => ExpireKeepsCoupled(s, now);
  }

  ghost predicate Possible(s: Armed, ops: seq<Op>)
    requires Coupled(s)
    decreases |ops|
  {
    ops == [] || (!Traps(s, ops[0]) && (ApplyKeepsCoupled(s, ops[0]); Possible(Apply(s, ops[0]), ops[1..])))
  }

  ghost function Run(s: Armed, ops: seq<Op>): (z: Armed)
    requires Coupled(s) && Possible(s, ops)
    ensures Coupled(z)
    decreases |ops|
  {
    if ops == [] then s
    else
      ApplyKeepsCoupled(s, ops[0]);
      Run(Apply(s, ops[0]), ops[1..])
  }

  /**
   Over every run that does not trap, an event is armed exactly when a timer is
   pending, it is the earliest one, and an expiry queues exactly the event that
   it then takes out of the index.
   */
  lemma ArmedIsEarliest(ops: seq<Op>, now: int)
    requires Possible(NOTHING_ARMED, ops)
    ensures var z := Run(NOTHING_ARMED, ops);
            && Distinct(z.pending)
            && (z.timerEvent.None? <==> z.pending == map[])
            && (z.timerEvent.Some? ==>
                  var k := z.timerEvent.value;
                  && Earliest(z.pending, k)
                  && Apply(z, Expire(now)).pending == z.pending - {k}
                  && Apply(z, Expire(now)).queue == z.queue + [k])
  {
  }

  // ----------------------------------------------------- how late it is

  function ArmedFor(s: Armed): int {
    s.armedAt + s.delay
  }

  /** The kernel timer expires by the earliest deadline, or 1 ns after it was set. */
  ghost predicate OnTime(s: Armed) {
    s.timerEvent.Some? ==> s.timerEvent.value in s.pending &&
                           s.delay >= 1 &&
                           ArmedFor(s) <= Max(s.pending[s.timerEvent.value], s.armedAt + 1)
  }

  /** A re-set of the earliest timer does not bring it forward. */
  ghost predicate Postpones(s: Armed, op: Op) {
    op.Set? && op.alive && s.timerEvent == Some(op.key) && op.key in s.pending ==> op.now + op.timeout >= s.pending[op.key]
  }

  ghost predicate AllPostpone(s: Armed, ops: seq<Op>)
    requires Coupled(s) && Possible(s, ops)
    decreases |ops|
  {
    ops == [] || (Postpones(s, ops[0]) && (ApplyKeepsCoupled(s, ops[0]); AllPostpone(Apply(s, ops[0]), ops[1..])))
  }

  lemma ApplyKeepsOnTime(s: Armed, op: Op)
    requires Coupled(s) && OnTime(s) && !Traps(s, op) && Postpones(s, op)
    ensures OnTime(Apply(s, op))
  {
    match op
    case Set(key, alive, now, timeout, later) =>
      if alive {
        RearmKeepsOnTime(s, s.pending[key := now + timeout], later);
      }
    case Cancel(key, alive, now) =>
      if alive {
        RearmKeepsOnTime(s, s.pending - {key}, now);
      }
    case CancelAll(owner, now) => RearmKeepsOnTime(s, Without(s.pending, owner), now);
    case Expire(now) =>
  }

  /** Arming for a new head is on time, and the old head is so if it is not earlier than before. */
  lemma RearmKeepsOnTime(s: Armed, p: Pending, now: int)
    requires Coupled(s) && OnTime(s)
    requires Head(p).Some? && Head(p) == Head(s.pending) ==> p[Head(p).value] >= s.pending[Head(p).value]
    ensures OnTime(Perform(s.(pending := p), Rearm(s.pending, p, now), now))
  {
  }

  lemma {:induction false} NeverArmedLate(s: Armed, ops: seq<Op>)
    requires Coupled(s) && OnTime(s) && Possible(s, ops) && AllPostpone(s, ops)
    ensures OnTime(Run(s, ops))
    decreases |ops|
  {
    if ops != [] {
      ApplyKeepsCoupled(s, ops[0]);
      ApplyKeepsOnTime(s, ops[0]);
      NeverArmedLate(Apply(s, ops[0]), ops[1..]);
    }
  }

  lemma HeadIsUnique(p: Pending, k: Key)
    requires Distinct(p) && Earliest(p, k)
    ensures Head(p) == Some(k)
  {
  }

  /** Another timer than `key` is earlier than `date`. */
  ghost predicate Overtaken(p: Pending, key: Key, date: int) {
    exists j :: j in p && j != key && p[j] < date
  }

  /** A re-set of the earliest timer lets another one come first, or is not earlier than what the kernel timer is set for. */
  ghost predicate InTime(s: Armed, op: Op) {
    op.Set? && op.alive && s.timerEvent == Some(op.key) ==>
      Overtaken(s.pending, op.key, op.now + op.timeout) || ArmedFor(s) <= Max(op.now + op.timeout, s.armedAt + 1)
  }

  /**
   Exactly when a re-set of the earliest timer leaves the kernel timer late, from
   any state, however often it was re-set before: when it stays the earliest, so
   that nothing is armed, and its new deadline is before the time armed for.
   */
  lemma OnTimeIffInTime(s: Armed, op: Op)
    requires Coupled(s) && !Traps(s, op) && s.delay >= 1
    requires op.Set? && op.alive && s.timerEvent == Some(op.key)
    ensures OnTime(Apply(s, op)) <==> InTime(s, op)
  {
    var p := s.pending[op.key := op.now + op.timeout];
    SetKeepsDistinct(s.pending, op.key, op.now + op.timeout);
    if Overtaken(s.pending, op.key, op.now + op.timeout) {
      var j :| j in s.pending && j != op.key && s.pending[j] < op.now + op.timeout;
      assert p[j] < p[op.key];
    } else {
      HeadIsUnique(p, op.key);
    }
  }

  lemma StepOnTimeIff(s: Armed, op: Op)
    requires Coupled(s) && OnTime(s) && !Traps(s, op)
    ensures OnTime(Apply(s, op)) <==> InTime(s, op)
  {
    if op.Set? && op.alive && s.timerEvent == Some(op.key) {
      OnTimeIffInTime(s, op);
    } else {
      ApplyKeepsOnTime(s, op);
    }
  }

  ghost predicate AllInTime(s: Armed, ops: seq<Op>)
    requires Coupled(s) && Possible(s, ops)
    decreases |ops|
  {
    ops == [] || (InTime(s, ops[0]) && (ApplyKeepsCoupled(s, ops[0]); AllInTime(Apply(s, ops[0]), ops[1..])))
  }

  ghost predicate OnTimeThroughout(s: Armed, ops: seq<Op>)
    requires Coupled(s) && Possible(s, ops)
    decreases |ops|
  {
    OnTime(s) && (ops == [] || (ApplyKeepsCoupled(s, ops[0]); OnTimeThroughout(Apply(s, ops[0]), ops[1..])))
  }

  /** The kernel timer is on time all through a run exactly when every re-set of the earliest timer is in time. */
  lemma {:induction false} NeverLateIffInTime(s: Armed, ops: seq<Op>)
    requires Coupled(s) && OnTime(s) && Possible(s, ops)
    ensures OnTimeThroughout(s, ops) <==> AllInTime(s, ops)
    decreases |ops|
  {
    if ops != [] {
      ApplyKeepsCoupled(s, ops[0]);
      StepOnTimeIff(s, ops[0]);
      if InTime(s, ops[0]) {
        NeverLateIffInTime(Apply(s, ops[0]), ops[1..]);
      }
    }
  }

  /** A timer of 10 ns that is brought forward to 5 ns is late, and one that was postponed to 20 ns first is not late at 15 ns. */
  lemma LateAndNotLate(k: Key)
    ensures var s := Apply(NOTHING_ARMED, Set(k, true, 0, 10, 0));
            && !OnTime(Apply(s, Set(k, true, 1, 4, 1)))
            && OnTime(Apply(Apply(s, Set(k, true, 1, 19, 1)), Set(k, true, 5, 10, 5)))
  {
    var s := Apply(NOTHING_ARMED, Set(k, true, 0, 10, 0));
    HeadIsUnique(map[k := 10], k);
    assert s.pending == map[k := 10] && ArmedFor(s) == 10;
    OnTimeIffInTime(s, Set(k, true, 1, 4, 1));
    var t := Apply(s, Set(k, true, 1, 19, 1));
    HeadIsUnique(map[k := 20], k);
    assert t.pending == map[k := 20] && ArmedFor(t) == 10;
    OnTimeIffInTime(t, Set(k, true, 5, 10, 5));
  }

  // ---------------------------------------------------- what it is set for

  /** The clock reading at which an operation arms. */
  function ArmTime(op: Op): int {
    if op.Set? then op.later else op.now
  }

  /** From `s` to `z` the kernel timer was left alone, or was set at `now` for the deadline of a new earliest timer. */
  ghost predicate SetForDeadline(s: Armed, z: Armed, now: int) {
    if z.timerEvent == s.timerEvent then z.armedAt == s.armedAt && z.delay == s.delay
    else z.timerEvent.Some? ==>
           && z.timerEvent.value in z.pending && z.armedAt == now
           && z.delay == Max(1, z.pending[z.timerEvent.value] - now)
  }

  lemma RearmSetsForDeadline(s: Armed, p: Pending, now: int)
    requires s.timerEvent == Head(s.pending)
    ensures SetForDeadline(s, Perform(s.(pending := p), Rearm(s.pending, p, now), now), now)
  {
  }

  lemma ExpireSetsForDeadline(s: Armed, now: int)
    requires Coupled(s)
    ensures SetForDeadline(s, Apply(s, Expire(now)), now)
  {
  }

  /**
   Whenever the earliest timer changes, the kernel timer is set for the whole time
   that remains to its deadline, and at least 1 ns; otherwise it is left alone.
   */
  lemma ArmedForDeadline(s: Armed, op: Op)
    requires Coupled(s) && !Traps(s, op)
    ensures SetForDeadline(s, Apply(s, op), ArmTime(op))
  {
    match op
    case Set(key, alive, now, timeout, later) =>
      if alive {
        RearmSetsForDeadline(s, s.pending[key := now + timeout], later);
      }
    case Cancel(key, alive, now) =>
      if alive {
        RearmSetsForDeadline(s, s.pending - {key}, now);
      }
    case CancelAll(owner, now) => RearmSetsForDeadline(s, Without(s.pending, owner), now);
    case Expire(now) => ExpireSetsForDeadline(s, now);
  }

  /** The kernel timer is set for the very deadline of the earliest timer, or for 1 ns if that had passed. */
  ghost predicate OnDate(s: Armed) {
    s.timerEvent.Some? ==> s.timerEvent.value in s.pending && s.delay >= 1 &&
                           ArmedFor(s) == Max(s.pending[s.timerEvent.value], s.armedAt + 1)
  }

  ghost predicate LeavesHead(s: Armed, op: Op) {
    !(op.Set? && op.alive && s.timerEvent == Some(op.key))
  }

  ghost predicate AllLeaveHead(s: Armed, ops: seq<Op>)
    requires Coupled(s) && Possible(s, ops)
    decreases |ops|
  {
    ops == [] || (LeavesHead(s, ops[0]) && (ApplyKeepsCoupled(s, ops[0]); AllLeaveHead(Apply(s, ops[0]), ops[1..])))
  }

  lemma StepKeepsOnDate(s: Armed, op: Op)
    requires Coupled(s) && OnDate(s) && !Traps(s, op) && LeavesHead(s, op)
    ensures OnDate(Apply(s, op))
  {
    ApplyKeepsCoupled(s, op);
    ArmedForDeadline(s, op);
  }

  /** Neither late nor early: on runs that never re-set the earliest timer the kernel timer is always set for its deadline. */
  lemma {:induction false} ArmedOnDate(s: Armed, ops: seq<Op>)
    requires Coupled(s) && OnDate(s) && Possible(s, ops) && AllLeaveHead(s, ops)
    ensures OnDate(Run(s, ops))
    decreases |ops|
  {
    if ops != [] {
      ApplyKeepsCoupled(s, ops[0]);
      StepKeepsOnDate(s, ops[0]);
      ArmedOnDate(Apply(s, ops[0]), ops[1..]);
    }
  }

  // --------------------------------------------------- the fate of a timer

  /** The operation sets or cancels this very timer, or cancels all of its owner. */
  predicate Touches(op: Op, key: Key) {
    match op
    case Set(k, alive, _, _, _) => alive && k == key
    case Cancel(k, alive, _) => alive && k == key
    case CancelAll(owner, _) => owner == key.owner
    case Expire(_) => false
  }

  predicate AllSpare(ops: seq<Op>, key: Key) {
    forall i | 0 <= i < |ops| :: !Touches(ops[i], key)
  }

  function Queued(s: Armed, key: Key): nat {
    multiset(s.queue)[key]
  }

  /** Between `s` and `z` the timer stayed as it was, or it went off once. */
  ghost predicate Fate(s: Armed, z: Armed, key: Key) {
    if key !in s.pending then key !in z.pending && Queued(z, key) == Queued(s, key)
    else if key in z.pending then z.pending[key] == s.pending[key] && Queued(z, key) == Queued(s, key)
    else Queued(z, key) == Queued(s, key) + 1
  }

  lemma QuietFate(s: Armed, p: Pending, now: int, key: Key)
    requires key in p <==> key in s.pending
    requires key in p ==> p[key] == s.pending[key]
    ensures Fate(s, Perform(s.(pending := p), Rearm(s.pending, p, now), now), key)
  {
  }

  lemma ExpireFate(s: Armed, now: int, key: Key)
    requires Coupled(s)
    ensures Fate(s, Apply(s, Expire(now)), key)
  {
    if s.timerEvent.Some? {
      ExpiryTakesEarliest(s, now);
    }
  }

  lemma StepFate(s: Armed, op: Op, key: Key)
    requires Coupled(s) && !Traps(s, op) && !Touches(op, key)
    ensures Fate(s, Apply(s, op), key)
  {
    match op
    case Set(k, alive, now, timeout, later) =>
      if alive {
        QuietFate(s, s.pending[k := now + timeout], later, key);
      }
    case Cancel(k, alive, now) =>
      if alive {
        QuietFate(s, s.pending - {k}, now, key);
      }
    case CancelAll(owner, now) => QuietFate(s, Without(s.pending, owner), now, key);
    case Expire(now) => ExpireFate(s, now, key);
  }

  /**
   No timer is lost and none goes off unasked: while nothing sets or cancels it, a
   pending timer keeps its deadline until it is queued, once, and a timer that is
   not pending is never queued, whatever happens to all the others.
   */
  lemma {:induction false} TimerFate(s: Armed, ops: seq<Op>, key: Key)
    requires Coupled(s) && Possible(s, ops) && AllSpare(ops, key)
    ensures Fate(s, Run(s, ops), key)
    decreases |ops|
  {
    if ops != [] {
      ApplyKeepsCoupled(s, ops[0]);
      StepFate(s, ops[0], key);
      TimerFate(Apply(s, ops[0]), ops[1..], key);
    }
  }

  /**
   What is cancelled never goes off, and what is set is pending with its deadline:
   from there on `TimerFate` tells what becomes of it.
   */
  lemma TouchedFate(s: Armed, op: Op, ops: seq<Op>, key: Key)
    requires Coupled(s) && !Traps(s, op) && Touches(op, key)
    requires Coupled(Apply(s, op)) && Possible(Apply(s, op), ops) && AllSpare(ops, key)
    ensures op.Set? ==> key in Apply(s, op).pending && Apply(s, op).pending[key] == op.now + op.timeout
    ensures !op.Set? ==> key !in Run(Apply(s, op), ops).pending && Queued(Run(Apply(s, op), ops), key) == Queued(s, key)
  {
    TimerFate(Apply(s, op), ops, key);
  }

  // ------------------------------------------------------- draining order

  function Expiries(n: nat, now: int): seq<Op> {
    seq(n, _ => Expire(now))
  }

  /** Every event pending in `s` was queued once, in the order of the deadlines. */
  ghost predicate Drained(s: Armed, z: Armed) {
    && z.pending == map[] && z.timerEvent.None?
    && |z.queue| == |s.queue| + |s.pending| && z.queue[..|s.queue|] == s.queue
    && (forall i | |s.queue| <= i < |z.queue| :: z.queue[i] in s.pending)
    && (forall i, j | |s.queue| <= i < j < |z.queue| :: s.pending[z.queue[i]] < s.pending[z.queue[j]])
  }

  /**
   With nothing set or cancelled in between, as many expiries as there are timers
   queue every pending event once, in the order of the deadlines.
   */
  lemma {:induction false} DrainsInOrder(s: Armed, now: int)
    requires Coupled(s)
    ensures Possible(s, Expiries(|s.pending|, now))
    ensures Drained(s, Run(s, Expiries(|s.pending|, now)))
    decreases |s.pending|
  {
    if s.pending != map[] {
      var t, ops := Apply(s, Expire(now)), Expiries(|s.pending|, now);
      ExpiryTakesEarliest(s, now);
      DrainsInOrder(t, now);
      assert ops[0] == Expire(now) && ops[1..] == Expiries(|t.pending|, now);
      DrainsOneMore(s, t, Run(t, ops[1..]), s.timerEvent.value);
    }
  }

  lemma DrainsOneMore(s: Armed, t: Armed, z: Armed, k: Key)
    requires k in s.pending && t.queue == s.queue + [k] && t.pending == s.pending - {k} && |t.pending| == |s.pending| - 1
    requires forall j | j in t.pending :: s.pending[k] < t.pending[j]
    requires Drained(t, z)
    ensures Drained(s, z)
  {
    Spliced(z.queue, t.queue, s.queue, k);
  }

  lemma Spliced(z: seq<Key>, t: seq<Key>, s: seq<Key>, k: Key)
    requires t == s + [k] && |z| >= |t| && z[..|t|] == t
    ensures z[..|s|] == s && z[|s|] == k
  {
    assert z[|s|] == z[..|t|][|s|];
    assert z[..|s|] == z[..|t|][..|s|];
  }

  lemma ExpiryTakesEarliest(s: Armed, now: int)
    requires Coupled(s) && s.pending != map[]
    ensures var k, t := s.timerEvent.value, Apply(s, Expire(now));
            && Coupled(t) && t.queue == s.queue + [k]
            && k in s.pending && t.pending == s.pending - {k} && |t.pending| == |s.pending| - 1
            && (forall j | j in t.pending :: s.pending[k] < t.pending[j])
  {
    var t := Apply(s, Expire(now));
    assert s.pending.Keys == t.pending.Keys + {s.timerEvent.value};
  }

  // ------------------------------------------------------------ the class

  /** The fields of `itimerspec` for a delay. */
  function Seconds(delay: int): int {
    delay / ONE_SEC_IN_NS
  }

  function NanoSeconds(delay: int): int {
    delay % ONE_SEC_IN_NS
  }

  /** A delay of at least 1 ns is never programmed as the pair (0, 0), which would disarm the timer. */
  lemma ProgrammedPair(delay: int)
    requires delay >= 1
    ensures Seconds(delay) >= 0 && 0 <= NanoSeconds(delay) < ONE_SEC_IN_NS
    ensures Seconds(delay) * ONE_SEC_IN_NS + NanoSeconds(delay) == delay
    ensures (Seconds(delay), NanoSeconds(delay)) != (0, 0)
  {
  }

  lemma SetIsApplied(s: Armed, op: Op, p: Pending, arm: ArmCall)
    requires Coupled(s) && op.Set? && !Traps(s, op)
    requires if op.alive then p == s.pending[op.key := op.now + op.timeout] && arm == Rearm(s.pending, p, op.later)
             else p == s.pending && arm == Keep
    ensures Perform(s.(pending := p), arm, op.later) == Apply(s, op) && Coupled(Apply(s, op))
  {
    ApplyKeepsCoupled(s, op);
  }

  class TimerEngine {
    const timers: Timers
    var timerEvent: Option<Key>
    var eventQueue: seq<Key>
    var itValue: (int, int)
    ghost var armedAt: int
    ghost var delay: int

    ghost function View(): Armed
      reads this, timers
    {
      Armed(timers.pending, timerEvent, armedAt, delay, eventQueue)
    }

    ghost predicate Valid()
      reads this, timers
    {
      && timers.Valid() && Coupled(View())
      && (timerEvent.Some? ==>
            && 0 <= itValue.0 && 0 <= itValue.1 < ONE_SEC_IN_NS && itValue != (0, 0)
            && itValue.0 * ONE_SEC_IN_NS + itValue.1 == delay)
    }

    constructor ()
      ensures Valid() && View() == NOTHING_ARMED && fresh(timers)
    {
      timers := new Timers();
      timerEvent, eventQueue, itValue, armedAt, delay := None, [], (0, 0), 0, 0;
    }

    method SetTimerTrigger(arm: ArmCall, now: int)
      requires arm.Arm? ==> arm.delay >= 1
      modifies this
      ensures View() == Perform(old(View()), arm, now)
      ensures arm.Keep? ==> unchanged(this)
      ensures arm.Arm? ==> 0 <= itValue.0 && 0 <= itValue.1 < ONE_SEC_IN_NS && itValue != (0, 0)
                           && itValue.0 * ONE_SEC_IN_NS + itValue.1 == delay
    {
      match arm
      case Keep =>
      case Disarm =>
        timerEvent := None;
      case Arm(what, when) =>
        ProgrammedPair(when);
        timerEvent := Some(what);
        itValue := (when / ONE_SEC_IN_NS, when % ONE_SEC_IN_NS);
        armedAt, delay := now, when;
    }

    method DoSetTimer(key: Key, alive: bool, now: int, timeout: int, later: int) returns (ok: bool, left: int)
      requires Valid()
      modifies this, timers
      ensures ok <==> !Traps(old(View()), Set(key, alive, now, timeout, later))
      ensures ok ==> Valid() && View() == Apply(old(View()), Set(key, alive, now, timeout, later))
      ensures left == if alive && key in old(View()).pending then old(View()).pending[key] - later else 0
    {
      ghost var s := View();
      var arm;
      ok, left, arm := timers.SetTimer(key, alive, now, timeout, later);
      if ok {
        SetIsApplied(s, Set(key, alive, now, timeout, later), timers.pending, arm);
        SetTimerTrigger(arm, later);
      }
    }

    method DoCancelTimer(key: Key, alive: bool, now: int) returns (left: int)
      requires Valid()
      modifies this, timers
      ensures Valid() && View() == Apply(old(View()), Cancel(key, alive, now))
      ensures left == if alive && key in old(View()).pending then old(View()).pending[key] - now else 0
    {
      var arm;
      left, arm := timers.CancelTimer(key, alive, now);
      SetTimerTrigger(arm, now);
    }

    /** The timer part of `doRemove`. */
    method DoCancelAllTimers(owner: nat, now: int)
      requires Valid()
      modifies this, timers
      ensures Valid() && View() == Apply(old(View()), CancelAll(owner, now))
    {
      var arm := timers.CancelAllTimers(owner, now);
      SetTimerTrigger(arm, now);
    }

    /** "Expired timer not found" cannot happen: an armed event implies a pending timer. */
    method HandleTimerExpired(now: int) returns (queued: bool)
      requires Valid()
      modifies this, timers
      ensures Valid() && View() == Apply(old(View()), Expire(now))
      ensures queued <==> old(timerEvent).Some?
    {
      queued := false;
      if timerEvent.Some? {
        eventQueue := eventQueue + [timerEvent.value];
        queued := true;
        timerEvent := None;
        var arm, key := timers.HandleTimerExpired(now);
        SetTimerTrigger(arm, now);
      }
    }
  }
}
