/**
 The hand-off of events from any number of producers to any number of workers:
 a queue, a counting semaphore over a condition variable, and the worker loop.
 Every step of the state machine is what one thread does under one lock.
 */
module HandOff {
  import opened Basics

  datatype Ev = Io(evId: nat, events: nat) | Async(owner: nat, id: nat)

  /** The event a worker takes, and the queue it leaves. */
  function Taken(queue: seq<Ev>): (r: (Option<Ev>, seq<Ev>))
    ensures queue == (if r.0.Some? then [r.0.value] else []) + r.1
    ensures r.0.None? ==> queue == []
  {
    if |queue| != 0 then (Some(queue[0]), queue[1..]) else (None, queue)
  }

  // ------------------------------------------------------ the interleavings

  /**
   A worker is at the head of its loop, about to look at the semaphore, asleep on
   the condition variable, notified, past the semaphore, running an event, or has
   left its loop.
   */
  datatype Worker = Checking | Entering | Asleep | Woken | Holding | Running | Gone

  /**
   `pending` producers have pushed but not signalled; `extras` counts signals
   without a push, which only `stopWorkers` sends, and `idle` the pops that met an
   empty queue. `pushed` and `popped` are all events so far.
   */
  datatype Pool = Pool(
    queue: seq<Ev>,
    count: nat,
    pending: nat,
    workers: seq<Worker>,
    stopping: bool,
    pushed: seq<Ev>,
    popped: seq<Ev>,
    extras: nat,
    idle: nat)

  datatype Step =
    | Push(ev: Ev)                      // newEvent, doRunAsync or handleTimerExpired, under the queue lock
    | Signal(wakes: Option<nat>)        // the same producer's sem.signal
    | ExtraSignal(wakes: Option<nat>)   // stopWorkers
    | Spurious(w: nat)                  // the condition variable wakes a worker for no reason
    | Stop
    | Begin(w: nat)
    | TryWait(w: nat)
    | Pop(w: nat)
    | Finish(w: nat, exits: bool)

  function Start(n: nat): Pool {
    Pool([], 0, 0, seq(n, _ => Checking), false, [], [], 0, 0)
  }

  predicate Is(y: Pool, w: nat, state: Worker) {
    w < |y.workers| && y.workers[w] == state
  }

  /** `notify_one` wakes one of the sleepers, if there is one. */
  predicate Notifies(y: Pool, wakes: Option<nat>) {
    if wakes.Some? then Is(y, wakes.value, Asleep) else Asleep !in y.workers
  }

  predicate Enabled(y: Pool, step: Step) {
    match step
    case Push(_) => true
    case Signal(wakes) => y.pending > 0 && Notifies(y, wakes)
    case ExtraSignal(wakes) => Notifies(y, wakes)
    case Spurious(w) => Is(y, w, Asleep)
    case Stop => true
    case Begin(w) => Is(y, w, Checking)
    case TryWait(w) => Is(y, w, Entering) || Is(y, w, Woken)
    case Pop(w) => Is(y, w, Holding)
    case Finish(w, _) => Is(y, w, Running)
  }

  function Move(y: Pool, w: nat, state: Worker): Pool
    requires w < |y.workers|
  {
    y.(workers := y.workers[w := state])
  }

  function Signalled(y: Pool, wakes: Option<nat>): Pool
    requires Notifies(y, wakes)
  {
    (if wakes.Some? then Move(y, wakes.value, Woken) else y).(count := y.count + 1)
  }

  function Apply(y: Pool, step: Step): Pool
    requires Enabled(y, step)
  {
    match step
    case Push(ev) => y.(queue := y.queue + [ev], pushed := y.pushed + [ev], pending := y.pending + 1)
    case Signal(wakes) => Signalled(y.(pending := y.pending - 1), wakes)
    case ExtraSignal(wakes) => Signalled(y.(extras := y.extras + 1), wakes)
    case Spurious(w) => Move(y, w, Woken)
    case Stop => y.(stopping := true)
    case Begin(w) => Move(y, w, if y.stopping then Gone else Entering)
    case TryWait(w) => if y.count > 0 then Move(y.(count := y.count - 1), w, Holding) else Move(y, w, Asleep)
    case Pop(w) =>
      var (event, rest) := Taken(y.queue);
      match event {
        case Some(ev) => Move(y.(queue := rest, popped := y.popped + [ev]), w, Running)
        case None => Move(y.(idle := y.idle + 1), w, Running)
      }
    case Finish(w, exits) => Move(y, w, if exits then Gone else Checking)
  }

  predicate Possible(y: Pool, steps: seq<Step>)
    decreases |steps|
  {
    steps == [] || (Enabled(y, steps[0]) && Possible(Apply(y, steps[0]), steps[1..]))
  }

  function Run(y: Pool, steps: seq<Step>): Pool
    requires Possible(y, steps)
    decreases |steps|
  {
    if steps == [] then y else Run(Apply(y, steps[0]), steps[1..])
  }

  // ------------------------------------------------------------ the classes

  /** `asleep` holds the threads that wait on the condition variable. */
  class Semaphore {
    var count: int
    var asleep: set<nat>

    constructor (count: int)
      ensures this.count == count && asleep == {}
    {
      this.count, asleep := count, {};
    }

    /** Wakes one of the sleepers, if there is one. */
    method Signal() returns (wakes: Option<nat>)
      modifies this
      ensures count == old(count) + 1
      ensures wakes.None? <==> old(asleep) == {}
      ensures wakes.Some? ==> wakes.value in old(asleep) && asleep == old(asleep) - {wakes.value}
      ensures wakes.None? ==> asleep == {}
    {
      count := count + 1;
      wakes := None;
      if asleep != {} {
        var w :| w in asleep;
        asleep := asleep - {w};
        wakes := Some(w);
      }
    }

    /** One look of thread `w` at the condition of `wait`, on entry or when woken. */
    method TryWait(w: nat) returns (passed: bool)
      modifies this
      ensures passed <==> old(count) > 0
      ensures count == old(count) - if passed then 1 else 0
      ensures asleep == if passed then old(asleep) else old(asleep) + {w}
    {
      passed := count > 0;
      if passed {
        count := count - 1;
      } else {
        asleep := asleep + {w};
      }
    }
  }

  /** The part of the engine that hands events over; `pool` is the state of all threads that the steps below describe. */
  class EventQueue {
    const sem: Semaphore
    var eventQueue: seq<Ev>
    var eventHash: set<nat>
    ghost var pool: Pool

    ghost predicate Valid()
      reads this, sem
    {
      && eventQueue == pool.queue && sem.count == pool.count
      && forall w: nat :: w in sem.asleep <==> Is(pool, w, Asleep)
    }

    constructor (workers: nat)
      ensures Valid() && pool == Start(workers) && eventHash == {} && fresh(sem)
    {
      sem := new Semaphore(0);
      eventQueue, eventHash, pool := [], {}, Start(workers);
    }

    /** Pushes under the queue lock. */
    method PushBack(event: Ev)
      requires Valid()
      modifies this`eventQueue, this`pool
      ensures Valid() && pool == Apply(old(pool), Push(event))
    {
      eventQueue := eventQueue + [event];
      pool := Apply(pool, Push(event));
    }

    /** Signals under the lock of the semaphore. */
    method SignalSem() returns (wakes: Option<nat>)
      requires Valid() && pool.pending > 0
      modifies this`pool, sem
      ensures Enabled(old(pool), Signal(wakes))
      ensures Valid() && pool == Apply(old(pool), Signal(wakes))
    {
      wakes := sem.Signal();
      if wakes.None? {
        NobodyAsleep(pool);
      }
      pool := Apply(pool, Signal(wakes));
    }

    /** An event for a descriptor that is not registered is ignored. */
    method NewEvent(evId: nat, events: nat) returns (queued: bool, wakes: Option<nat>)
      requires Valid()
      modifies this`eventQueue, this`pool, sem
      ensures Valid() && (queued <==> evId in eventHash)
      ensures !queued ==> pool == old(pool)
      ensures queued ==> Possible(old(pool), [Push(Io(evId, events)), Signal(wakes)])
                         && pool == Run(old(pool), [Push(Io(evId, events)), Signal(wakes)])
    {
      queued, wakes := evId in eventHash, None;
      if queued {
        wakes := DoRunAsync(Io(evId, events));
      }
    }

    method DoRunAsync(event: Ev) returns (wakes: Option<nat>)
      requires Valid()
      modifies this`eventQueue, this`pool, sem
      ensures Valid() && Possible(old(pool), [Push(event), Signal(wakes)])
      ensures pool == Run(old(pool), [Push(event), Signal(wakes)])
    {
      PushBack(event);
      wakes := SignalSem();
      RunTwo(old(pool), Push(event), Signal(wakes));
    }

    /** A worker looks at the semaphore; if it does not pass it sleeps. */
    method Wait(w: nat) returns (passed: bool)
      requires Valid() && Enabled(pool, TryWait(w))
      modifies this`pool, sem
      ensures Valid() && pool == Apply(old(pool), TryWait(w))
      ensures passed <==> Is(pool, w, Holding)
    {
      passed := sem.TryWait(w);
      pool := Apply(pool, TryWait(w));
    }

    /** What a worker does once it has passed the semaphore; it runs nothing if the queue is empty. */
    method Take(w: nat) returns (event: Option<Ev>)
      requires Valid() && Enabled(pool, Pop(w))
      modifies this`eventQueue, this`pool
      ensures Valid() && pool == Apply(old(pool), Pop(w))
      ensures pool.popped == old(pool).popped + if event.Some? then [event.value] else []
      ensures event.None? <==> old(eventQueue) == []
    {
      event := None;
      if |eventQueue| != 0 {
        event := Some(eventQueue[0]);
        eventQueue := eventQueue[1..];
      }
      assert pool.popped + [] == pool.popped;
      pool := Apply(pool, Pop(w));
    }
  }

  lemma NobodyAsleep(y: Pool)
    requires forall w: nat :: !Is(y, w, Asleep)
    ensures Asleep !in y.workers
  {
    forall w | 0 <= w < |y.workers| ensures y.workers[w] != Asleep {
      assert !Is(y, w, Asleep);
    }
  }

  lemma RunTwo(y: Pool, a: Step, b: Step)
    requires Enabled(y, a) && Enabled(Apply(y, a), b)
    ensures Possible(y, [a, b]) && Run(y, [a, b]) == Apply(Apply(y, a), b)
  {
    var z := Apply(y, a);
    assert [a, b][1..] == [b] && [b][1..] == [];
    assert Possible(Apply(z, b), []);
    assert Possible(z, [b]) && Run(z, [b]) == Run(Apply(z, b), []);
  }

  // ------------------------------------------------------------- accounting

  function Count(workers: seq<Worker>, state: Worker): nat {
    if workers == [] then 0 else (if workers[0] == state then 1 else 0) + Count(workers[1..], state)
  }

  lemma {:induction false} CountMoves(workers: seq<Worker>, w: nat, to: Worker, state: Worker)
    requires w < |workers|
    ensures Count(workers[w := to], state) + (if workers[w] == state then 1 else 0)
         == Count(workers, state) + (if to == state then 1 else 0)
  {
    var moved := workers[w := to];
    if w == 0 {
      assert moved[1..] == workers[1..];
    } else {
      assert moved[1..] == workers[1..][w - 1 := to];
      CountMoves(workers[1..], w - 1, to, state);
    }
  }

  lemma {:induction false} SomeCounted(workers: seq<Worker>, w: nat)
    requires w < |workers|
    ensures Count(workers, workers[w]) > 0
  {
    if w > 0 {
      SomeCounted(workers[1..], w - 1);
    }
  }

  /** Every event is accounted for by a signal, and while anyone sleeps every signal by a worker that was woken. */
  ghost predicate Accounted(y: Pool) {
    && y.pushed == y.popped + y.queue
    && |y.queue| + y.extras == y.count + y.pending + Count(y.workers, Holding) + y.idle
    && y.idle <= y.extras
    && (Asleep in y.workers ==> y.count <= Count(y.workers, Woken))
  }

  lemma MoveCounts(y: Pool, w: nat, to: Worker)
    requires w < |y.workers|
    ensures var before, after := y.workers, Move(y, w, to).workers;
            && Count(after, Holding) == Count(before, Holding) - (if before[w].Holding? then 1 else 0) + (if to.Holding? then 1 else 0)
            && Count(after, Woken) == Count(before, Woken) - (if before[w].Woken? then 1 else 0) + (if to.Woken? then 1 else 0)
    ensures to != Asleep && Asleep in Move(y, w, to).workers ==> Asleep in y.workers
  {
    CountMoves(y.workers, w, to, Holding);
    CountMoves(y.workers, w, to, Woken);
  }

  lemma PopKeepsAccounted(y: Pool, w: nat)
    requires Accounted(y) && Is(y, w, Holding)
    ensures Accounted(Apply(y, Pop(w)))
  {
    MoveCounts(y, w, Running);
    SomeCounted(y.workers, w);
    if y.queue != [] {
      assert y.popped + y.queue == (y.popped + [y.queue[0]]) + y.queue[1..];
    }
  }

  lemma StepKeepsAccounted(y: Pool, step: Step)
    requires Accounted(y) && Enabled(y, step)
    ensures Accounted(Apply(y, step))
  {
    match step
    case Push(ev) => assert y.pushed + [ev] == y.popped + (y.queue + [ev]);
    case Signal(wakes) => if wakes.Some? { MoveCounts(y, wakes.value, Woken); }
    case ExtraSignal(wakes) => if wakes.Some? { MoveCounts(y, wakes.value, Woken); }
    case Spurious(w) => MoveCounts(y, w, Woken);
    case Stop =>
    case Begin(w) => MoveCounts(y, w, if y.stopping then Gone else Entering);
    case TryWait(w) => MoveCounts(y, w, if y.count > 0 then Holding else Asleep);
    case Pop(w) => PopKeepsAccounted(y, w);
    case Finish(w, exits) => MoveCounts(y, w, if exits then Gone else Checking);
  }

  lemma {:induction false} RunKeepsAccounted(y: Pool, steps: seq<Step>)
    requires Accounted(y) && Possible(y, steps)
    ensures Accounted(Run(y, steps))
    decreases |steps|
  {
    if steps != [] {
      StepKeepsAccounted(y, steps[0]);
      RunKeepsAccounted(Apply(y, steps[0]), steps[1..]);
    }
  }

  lemma {:induction false} NoneYet(workers: seq<Worker>, state: Worker)
    requires state !in workers
    ensures Count(workers, state) == 0
  {
    if workers != [] {
      NoneYet(workers[1..], state);
    }
  }

  lemma StartIsAccounted(n: nat)
    ensures Accounted(Start(n))
  {
    NoneYet(Start(n).workers, Holding);
  }

  /**
   Whatever the interleaving: events are popped in the order they were pushed, no
   one twice; the queue is never longer than the semaphore's count, the producers
   that have yet to signal and the workers that have yet to pop together; and,
   until `stopWorkers` sends its first signal, it is exactly that long, so no
   worker ever meets an empty queue.
   */
  lemma NoEventStranded(n: nat, steps: seq<Step>)
    requires Possible(Start(n), steps)
    ensures var z := Run(Start(n), steps);
            && z.pushed == z.popped + z.queue
            && |z.queue| <= z.count + z.pending + Count(z.workers, Holding)
            && (z.extras == 0 ==> |z.queue| == z.count + z.pending + Count(z.workers, Holding) && z.idle == 0)
  {
    StartIsAccounted(n);
    RunKeepsAccounted(Start(n), steps);
  }

  /** A worker stays asleep only while every unit of the semaphore has a woken worker coming for it. */
  lemma NoSleeperMissed(n: nat, steps: seq<Step>)
    requires Possible(Start(n), steps)
    ensures var z := Run(Start(n), steps);
            Asleep in z.workers ==> z.count <= Count(z.workers, Woken)
  {
    StartIsAccounted(n);
    RunKeepsAccounted(Start(n), steps);
  }

  // --------------------------------------------------------------- progress

  /** Steps that the threads take by themselves, with no new event and no stop. */
  predicate Internal(step: Step) {
    step.Signal? || step.Begin? || step.TryWait? || step.Pop? || step.Finish?
  }

  predicate AllInternal(steps: seq<Step>) {
    forall i | 0 <= i < |steps| :: Internal(steps[i])
  }

  function Weight(w: Worker): nat {
    match w
    case Holding => 4
    case Running => 3
    case Checking => 2
    case Entering => 1
    case Woken => 1
    case Asleep => 0
    case Gone => 0
  }

  function Load(workers: seq<Worker>): nat {
    if workers == [] then 0 else Weight(workers[0]) + Load(workers[1..])
  }

  lemma {:induction false} LoadMoves(workers: seq<Worker>, w: nat, to: Worker)
    requires w < |workers|
    ensures Load(workers[w := to]) + Weight(workers[w]) == Load(workers) + Weight(to)
  {
    var moved := workers[w := to];
    if w == 0 {
      assert moved[1..] == workers[1..];
    } else {
      assert moved[1..] == workers[1..][w - 1 := to];
      LoadMoves(workers[1..], w - 1, to);
    }
  }

  /** How much the threads can still do by themselves. */
  function Rank(y: Pool): nat {
    6 * y.pending + 4 * y.count + Load(y.workers)
  }

  lemma InternalStepsRank(y: Pool, step: Step)
    requires Enabled(y, step) && Internal(step)
    ensures Rank(Apply(y, step)) < Rank(y)
  {
    match step
    case Signal(wakes) => if wakes.Some? { LoadMoves(y.workers, wakes.value, Woken); }
    case Begin(w) => LoadMoves(y.workers, w, if y.stopping then Gone else Entering);
    case TryWait(w) => LoadMoves(y.workers, w, if y.count > 0 then Holding else Asleep);
    case Pop(w) => LoadMoves(y.workers, w, Running);
    case Finish(w, exits) => LoadMoves(y.workers, w, if exits then Gone else Checking);
  }

  lemma {:induction false} InternalRunsEnd(y: Pool, more: seq<Step>)
    requires Possible(y, more) && AllInternal(more)
    ensures |more| + Rank(Run(y, more)) <= Rank(y) && Run(y, more).pushed == y.pushed
    decreases |more|
  {
    if more != [] {
      InternalStepsRank(y, more[0]);
      InternalRunsEnd(Apply(y, more[0]), more[1..]);
    }
  }

  /** No thread can take a step by itself. */
  ghost predicate Quiescent(y: Pool) {
    forall step | Internal(step) :: !Enabled(y, step)
  }

  predicate AllGone(y: Pool) {
    forall w | 0 <= w < |y.workers| :: y.workers[w].Gone?
  }

  lemma NobodyCanSignal(y: Pool)
    requires Quiescent(y)
    ensures y.pending == 0
  {
    if Asleep in y.workers {
      var w :| 0 <= w < |y.workers| && y.workers[w] == Asleep;
      assert !Enabled(y, Signal(Some(w)));
    } else {
      assert !Enabled(y, Signal(None));
    }
  }

  lemma QuietWorker(y: Pool, w: nat)
    requires Quiescent(y) && w < |y.workers|
    ensures y.workers[w].Asleep? || y.workers[w].Gone?
  {
    assert !Enabled(y, Begin(w)) && !Enabled(y, TryWait(w)) && !Enabled(y, Pop(w)) && !Enabled(y, Finish(w, false));
  }

  /** With every thread at rest, the queue is empty unless every worker has left. */
  lemma QuiescentIsDrained(y: Pool)
    requires Accounted(y) && Quiescent(y)
    ensures y.queue == [] || AllGone(y)
  {
    forall w | 0 <= w < |y.workers| ensures y.workers[w].Asleep? || y.workers[w].Gone? {
      QuietWorker(y, w);
    }
    NobodyCanSignal(y);
    NoneYet(y.workers, Holding);
    NoneYet(y.workers, Woken);
  }

  // ------------------------------------------------------- who leaves, and when

  /** Nobody stops the engine, and no event ends its worker. */
  predicate NobodyLeaves(steps: seq<Step>) {
    forall i | 0 <= i < |steps| :: !steps[i].Stop? && !(steps[i].Finish? && steps[i].exits)
  }

  ghost predicate AllStay(y: Pool) {
    !y.stopping && forall w | 0 <= w < |y.workers| :: !y.workers[w].Gone?
  }

  /** Workers stay in their loop as long as nobody stops the engine and no event ends one. */
  lemma {:induction false} WorkersStay(y: Pool, steps: seq<Step>)
    requires AllStay(y) && Possible(y, steps) && NobodyLeaves(steps)
    ensures AllStay(Run(y, steps)) && |Run(y, steps).workers| == |y.workers|
    decreases |steps|
  {
    if steps != [] {
      assert !steps[0].Stop? && !(steps[0].Finish? && steps[0].exits);
      WorkersStay(Apply(y, steps[0]), steps[1..]);
    }
  }

  /**
   Every event is taken: from any reachable state, however the threads are
   scheduled, they can take at most `Rank` steps before they all rest, and then
   every event pushed so far was popped, in order, unless every worker has left;
   and while nobody stops the engine and no event ends its worker, none leaves.
   */
  lemma EveryEventIsTaken(n: nat, steps: seq<Step>, more: seq<Step>)
    requires Possible(Start(n), steps) && Possible(Run(Start(n), steps), more) && AllInternal(more)
    ensures var y := Run(Start(n), steps);
            var z := Run(y, more);
            && |more| <= Rank(y)
            && (Quiescent(z) && !AllGone(z) ==> z.popped == y.pushed)
            && (n > 0 && NobodyLeaves(steps) && NobodyLeaves(more) && Quiescent(z) ==> z.popped == y.pushed)
  {
    var y := Run(Start(n), steps);
    var z := Run(y, more);
    StartIsAccounted(n);
    RunKeepsAccounted(Start(n), steps);
    RunKeepsAccounted(y, more);
    InternalRunsEnd(y, more);
    if Quiescent(z) {
      QuiescentIsDrained(z);
    }
    if n > 0 && NobodyLeaves(steps) && NobodyLeaves(more) {
      WorkersStay(Start(n), steps);
      WorkersStay(y, more);
      assert !z.workers[0].Gone?;
    }
  }

  /** Workers that are on their way into the semaphore or wait in it. */
  function Waiters(workers: seq<Worker>): nat {
    Count(workers, Entering) + Count(workers, Asleep) + Count(workers, Woken)
  }

  function Signals(steps: seq<Step>): nat {
    if steps == [] then 0 else (if steps[0].Signal? || steps[0].ExtraSignal? then 1 else 0) + Signals(steps[1..])
  }

  predicate Waits(w: Worker) {
    w.Entering? || w.Asleep? || w.Woken?
  }

  lemma WaitersMove(workers: seq<Worker>, w: nat, to: Worker)
    requires w < |workers|
    ensures Waiters(workers[w := to]) + (if Waits(workers[w]) then 1 else 0) == Waiters(workers) + (if Waits(to) then 1 else 0)
  {
    CountMoves(workers, w, to, Entering);
    CountMoves(workers, w, to, Asleep);
    CountMoves(workers, w, to, Woken);
  }

  /** Once stopping, the count gains on the waiting workers by one with every signal, and never loses. */
  lemma StopStep(y: Pool, step: Step)
    requires y.stopping && Enabled(y, step)
    ensures var z := Apply(y, step);
            && z.stopping && |z.workers| == |y.workers|
            && z.count - Waiters(z.workers) == y.count - Waiters(y.workers) + Signals([step])
  {
    assert Signals([step][1..]) == 0;
    match step
    case Signal(wakes) => if wakes.Some? { WaitersMove(y.workers, wakes.value, Woken); }
    case ExtraSignal(wakes) => if wakes.Some? { WaitersMove(y.workers, wakes.value, Woken); }
    case Spurious(w) => WaitersMove(y.workers, w, Woken);
    case Begin(w) => WaitersMove(y.workers, w, Gone);
    case TryWait(w) => WaitersMove(y.workers, w, if y.count > 0 then Holding else Asleep);
    case Pop(w) => WaitersMove(y.workers, w, Running);
    case Finish(w, exits) => WaitersMove(y.workers, w, if exits then Gone else Checking);
    case _ =>
  }

  lemma {:induction false} StopRun(y: Pool, steps: seq<Step>)
    requires y.stopping && Possible(y, steps)
    ensures var z := Run(y, steps);
            z.stopping && z.count - Waiters(z.workers) == y.count - Waiters(y.workers) + Signals(steps)
    decreases |steps|
  {
    if steps != [] {
      StopStep(y, steps[0]);
      assert Signals([steps[0]][1..]) == 0;
      StopRun(Apply(y, steps[0]), steps[1..]);
    }
  }

  lemma {:induction false} WaitersAreLive(workers: seq<Worker>)
    ensures Waiters(workers) + Count(workers, Gone) <= |workers|
  {
    if workers != [] {
      WaitersAreLive(workers[1..]);
    }
  }

  /**
   One round of `stopWorkers` lets every worker leave: once the engine is stopping,
   with one signal for each worker that has not left, from `stopWorkers` or anyone
   else, all have left by the time every thread rests.
   */
  lemma OneRoundStopsAll(n: nat, steps: seq<Step>, more: seq<Step>)
    requires Possible(Start(n), steps) && Possible(Run(Start(n), steps), more)
    requires var y := Run(Start(n), steps);
             y.stopping && Signals(more) >= |y.workers| - Count(y.workers, Gone)
    ensures Quiescent(Run(Run(Start(n), steps), more)) ==> AllGone(Run(Run(Start(n), steps), more))
  {
    var y := Run(Start(n), steps);
    var z := Run(y, more);
    StartIsAccounted(n);
    RunKeepsAccounted(Start(n), steps);
    RunKeepsAccounted(y, more);
    WaitersAreLive(y.workers);
    StopRun(y, more);
    if Quiescent(z) && !AllGone(z) {
      forall w | 0 <= w < |z.workers| ensures z.workers[w].Asleep? || z.workers[w].Gone? {
        QuietWorker(z, w);
      }
      var w :| 0 <= w < |z.workers| && !z.workers[w].Gone?;
      SomeCounted(z.workers, w);
      NoneYet(z.workers, Woken);
      assert false;
    }
  }
}
