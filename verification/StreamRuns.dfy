/**
 One TCP stream together with the part of the engine that wakes it, as a state
 machine: every step is one critical section of the program, taken in any order
 that the tokens allow.
 */
module StreamRuns {
  import opened Basics
  import opened TcpStreams

  /** Before `Engine::add`, in the event hash, and after `Engine::remove`. */
  datatype Phase = New | Added | Removed

  /** What one burst took out of the queue: bytes for the kernel, then the chunk a hard error dropped. */
  datatype Fate = Fate(sent: Bytes, dropped: Bytes)

  /**
   `triggers` counts queued EPOLLOUT events that have not reached `handleWrite`,
   `egress` is the pending egress timer with its deadline, `fired` counts expired
   egress events still to run, and `asked` tells whether `waitingOutEvent` ever
   answered true when the descriptor was (re-)registered. `due` is the last deadline
   given to the egress timer, kept after a cancellation. `offered` is all that
   was given to `queueWrite`; `fate` is all that left the queue.
   */
  datatype System = System(
    s: Stream,
    phase: Phase,
    triggers: nat,
    egress: Option<nat>,
    fired: nat,
    asked: bool,
    now: nat,
    due: nat,
    bursts: nat,
    offered: Bytes,
    fate: seq<Fate>)

  datatype Step =
    | Add
    | Queue(data: Bytes)
    | Trigger(k: Kernel)    // a worker runs a queued EPOLLOUT event
    | SkipTrigger           // the same, after the stream left the event hash
    | EpollOut(k: Kernel)   // epoll reports the descriptor writable
    | Poll                  // the end of Engine::run, which re-registers the descriptor
    | Fire                  // the egress timer expires and queues its event
    | Egress                // a worker runs the egress event
    | Disconnect
    | Tick(d: nat)

  function Start(s: Stream): System {
    System(s, New, 0, None, 0, false, 0, 0, 0, [], [])
  }

  /** An accepted connection; the program always takes the rate of `NewAccepted`. */
  function Limited(rate: nat): System {
    Start(NewAccepted().(rate := rate))
  }

  /** An outgoing connection whose `connect` completed at once or is in progress. */
  function Outgoing(connected: bool): System {
    Start(NewOutgoing(connected))
  }

  predicate Initial(y: System) {
    (y.s.rate > 0 && y == Limited(y.s.rate)) || y == Outgoing(y.s.connected)
  }

  predicate Enabled(y: System, step: Step) {
    match step
    case Add => y.phase.New?
    case Queue(_) => true
    case Trigger(_) => y.triggers > 0
    case SkipTrigger => y.triggers > 0 && y.phase.Removed?
    case EpollOut(_) => y.asked
    case Poll => y.phase.Added?
    case Fire => y.egress.Some? && y.egress.value <= y.now
    case Egress => y.fired > 0
    case Disconnect => true
    case Tick(_) => true
  }

  /** What the engine does with the calls of an operation; an unregistered stream gets no event. */
  function Deliver(y: System, calls: Calls): System {
    y.(triggers := y.triggers + if calls.trigger && y.phase.Added? then 1 else 0,
       egress := if calls.egress.Some? then Some(y.now + calls.egress.value) else y.egress,
       due := if calls.egress.Some? then y.now + calls.egress.value else y.due)
  }

  function RunHandleWrite(y: System, k: Kernel): System
    requires NonEmptyChunks(y.s.queue)
  {
    var w := AfterHandleWrite(y.s, k);
    Deliver(y.(s := w.s, now := y.now + w.burst.elapsed + k.lag, bursts := y.bursts + 1,
               fate := y.fate + [Fate(w.burst.sent, w.burst.dropped)]),
            w.calls)
  }

  function Apply(y: System, step: Step): System
    requires NonEmptyChunks(y.s.queue) && Enabled(y, step)
  {
    match step
    case Add => y.(phase := Added, asked := WaitingOut(y.s))
    case Queue(data) =>
      var (s, calls) := AfterQueueWrite(y.s, data);
      Deliver(y.(s := s, offered := y.offered + data), calls)
    case Trigger(k) => RunHandleWrite(y.(triggers := y.triggers - 1), k)
    case SkipTrigger => y.(triggers := y.triggers - 1)
    case EpollOut(k) => RunHandleWrite(y, k)
    case Poll => y.(asked := y.asked || WaitingOut(y.s))
    case Fire => y.(egress := None, fired := y.fired + 1)
    case Egress => Deliver(y.(fired := y.fired - 1), NO_CALLS.(trigger := true))
    case Disconnect =>
      var (s, remove) := AfterDisconnect(y.s);
      if remove && y.phase.Added? then y.(s := s, phase := Removed, egress := None) else y.(s := s)
    case Tick(d) => y.(now := y.now + d)
  }

  /** Steps other than `queueWrite` and `handleWrite` touch no byte. */
  lemma QuietStep(y: System, step: Step)
    requires NonEmptyChunks(y.s.queue) && Enabled(y, step)
    requires !step.Queue? && !step.Trigger? && !step.EpollOut?
    ensures var z := Apply(y, step);
            && z.s.queue == y.s.queue && z.fate == y.fate && z.offered == y.offered
            && z.s.rate == y.s.rate && z.bursts == y.bursts && z.now >= y.now && z.due == y.due
  {
  }

  lemma ApplyKeepsChunks(y: System, step: Step)
    requires NonEmptyChunks(y.s.queue) && Enabled(y, step)
    ensures NonEmptyChunks(Apply(y, step).s.queue)
  {
    match step
    case Queue(data) =>
    case Trigger(k) =>
    case EpollOut(k) =>
    case _ => QuietStep(y, step);
  }

  /** `steps` can be taken one after the other from `y`. */
  predicate Possible(y: System, steps: seq<Step>)
    requires NonEmptyChunks(y.s.queue)
    decreases |steps|
  {
    steps == [] || (Enabled(y, steps[0]) && (ApplyKeepsChunks(y, steps[0]); Possible(Apply(y, steps[0]), steps[1..])))
  }

  function Run(y: System, steps: seq<Step>): (z: System)
    requires NonEmptyChunks(y.s.queue) && Possible(y, steps)
    ensures NonEmptyChunks(z.s.queue)
    decreases |steps|
  {
    if steps == [] then y
    else
      ApplyKeepsChunks(y, steps[0]);
      Run(Apply(y, steps[0]), steps[1..])
  }

  // ---------------------------------------------------------------- bytes

  /** All bytes that left the queue, in order. */
  function Departed(fate: seq<Fate>): Bytes {
    if fate == [] then [] else Departed(fate[..|fate| - 1]) + fate[|fate| - 1].sent + fate[|fate| - 1].dropped
  }

  /** The bytes that `write` accepted, in order. */
  function Wire(fate: seq<Fate>): Bytes {
    if fate == [] then [] else Wire(fate[..|fate| - 1]) + fate[|fate| - 1].sent
  }

  predicate NoHardError(fate: seq<Fate>) {
    forall i | 0 <= i < |fate| :: fate[i].dropped == []
  }

  /** The bytes that a burst sent, dropped and left are those of the queue; it drops some only on a hard error. */
  ghost predicate MovesBytes(b: Burst, queue: seq<Bytes>, total: nat) {
    && b.sent + (b.dropped + Concat(b.queue)) == Concat(queue)
    && b.total == total + |b.sent|
    && (b.dropped == [] <==> !b.end.Broken?)
  }

  lemma TurnMovesBytes(queue: seq<Bytes>, n: nat, t: Burst, b: Burst, total: nat)
    requires queue != [] && NonEmptyChunks(queue) && 1 <= n <= |queue[0]|
    requires MovesBytes(t, Consume(queue, n), total + n)
    requires SameEnd(b, t) && b.sent == queue[0][..n] + t.sent && b.dropped == t.dropped
    ensures MovesBytes(b, queue, total)
  {
    ConsumeTakesBytes(queue, n);
    Associate(queue[0][..n], t.sent, t.dropped + Concat(t.queue));
  }

  lemma LimitedMovesBytes(queue: seq<Bytes>, n: nat, b: Burst, total: nat)
    requires queue != [] && NonEmptyChunks(queue) && 1 <= n <= |queue[0]|
    requires b.queue == Consume(queue, n) && b.sent == queue[0][..n] && b.dropped == []
    requires b.total == total + n && b.end.RateLimited?
    ensures MovesBytes(b, queue, total)
  {
    ConsumeTakesBytes(queue, n);
    assert [] + Concat(b.queue) == Concat(b.queue);
  }

  /** A burst moves bytes from the front of the queue to the kernel, in order, and may drop one chunk at its end. */
  lemma {:induction false} BurstMovesBytes(queue: seq<Bytes>, rate: nat, replies: seq<Reply>, total: nat, elapsed: nat, writes: nat)
    requires NonEmptyChunks(queue)
    ensures MovesBytes(RunBurst(queue, rate, replies, total, elapsed, writes), queue, total)
    decreases |Concat(queue)|
  {
    if queue != [] && Next(replies).Room? {
      var n, now := Taken(replies[0].bytes, |queue[0]|), elapsed + replies[0].ns;
      ConsumeTakesBytes(queue, n);
      if OverRate(rate, total + n, now) {
        LastTurnMovesBytes(queue, rate, replies, total, elapsed, writes);
      } else {
        BurstMovesBytes(Consume(queue, n), rate, replies[1..], total + n, now, writes + 1);
        FirstTurnMovesBytes(queue, rate, replies, total, elapsed, writes, n, now,
                            RunBurst(Consume(queue, n), rate, replies[1..], total + n, now, writes + 1));
      }
    } else {
      StoppedBurst(queue, rate, replies, total, elapsed, writes);
    }
  }

  /** A turn that wrote something and is the last one. */
  lemma LastTurnMovesBytes(queue: seq<Bytes>, rate: nat, replies: seq<Reply>, total: nat, elapsed: nat, writes: nat)
    requires NonEmptyChunks(queue) && queue != [] && Next(replies).Room?
    requires OverRate(rate, total + Taken(replies[0].bytes, |queue[0]|), elapsed + replies[0].ns)
    ensures MovesBytes(RunBurst(queue, rate, replies, total, elapsed, writes), queue, total)
  {
    BurstRoom(queue, rate, replies, total, elapsed, writes);
    BurstSent(queue, rate, replies, total, elapsed, writes);
    LimitedMovesBytes(queue, Taken(replies[0].bytes, |queue[0]|), RunBurst(queue, rate, replies, total, elapsed, writes), total);
  }

  /** A turn that wrote something and leaves the rest to the next ones. */
  lemma FirstTurnMovesBytes(queue: seq<Bytes>, rate: nat, replies: seq<Reply>, total: nat, elapsed: nat, writes: nat,
                            n: nat, now: nat, t: Burst)
    requires NonEmptyChunks(queue) && queue != [] && Next(replies).Room?
    requires n == Taken(replies[0].bytes, |queue[0]|) && now == elapsed + replies[0].ns && !OverRate(rate, total + n, now)
    requires t == RunBurst(Consume(queue, n), rate, replies[1..], total + n, now, writes + 1)
    requires MovesBytes(t, Consume(queue, n), total + n)
    ensures MovesBytes(RunBurst(queue, rate, replies, total, elapsed, writes), queue, total)
  {
    BurstRoom(queue, rate, replies, total, elapsed, writes);
    BurstSent(queue, rate, replies, total, elapsed, writes);
    TurnMovesBytes(queue, n, t, RunBurst(queue, rate, replies, total, elapsed, writes), total);
  }

  lemma StoppedBurst(queue: seq<Bytes>, rate: nat, replies: seq<Reply>, total: nat, elapsed: nat, writes: nat)
    requires NonEmptyChunks(queue) && (queue != [] ==> !Next(replies).Room?)
    ensures MovesBytes(RunBurst(queue, rate, replies, total, elapsed, writes), queue, total)
  {
    var b := RunBurst(queue, rate, replies, total, elapsed, writes);
    assert [] + (b.dropped + Concat(b.queue)) == Concat(queue);
  }

  ghost predicate BytesKept(y: System) {
    && NonEmptyChunks(y.s.queue)
    && Departed(y.fate) + Concat(y.s.queue) == y.offered
  }

  lemma StepKeepsBytes(y: System, step: Step)
    requires BytesKept(y) && Enabled(y, step)
    ensures BytesKept(Apply(y, step))
  {
    if step.Queue? {
      QueueKeepsBytes(y, step.data);
    } else if step.Trigger? {
      WrittenKeepsBytes(y.(triggers := y.triggers - 1), step.k);
    } else if step.EpollOut? {
      WrittenKeepsBytes(y, step.k);
    } else {
      QuietStep(y, step);
    }
  }

  lemma QueueKeepsBytes(y: System, data: Bytes)
    requires BytesKept(y)
    ensures BytesKept(Apply(y, Queue(data)))
  {
    if data != [] {
      ConcatAppend(y.s.queue, [data]);
      assert Concat([data]) == data;
      Associate(Departed(y.fate), Concat(y.s.queue), data);
    } else {
      assert y.offered + data == y.offered;
    }
  }

  lemma WrittenKeepsBytes(y: System, k: Kernel)
    requires BytesKept(y)
    ensures BytesKept(RunHandleWrite(y, k))
  {
    var b := AfterHandleWrite(y.s, k).burst;
    assert b.sent + (b.dropped + Concat(b.queue)) == Concat(y.s.queue) by {
      if y.s.connected {
        BurstMovesBytes(y.s.queue, y.s.rate, k.replies, 0, 0, 0);
      }
    }
    var z := RunHandleWrite(y, k);
    assert z.fate[..|z.fate| - 1] == y.fate;
    Associate(Departed(y.fate), b.sent, b.dropped + Concat(b.queue));
    Associate(Departed(y.fate) + b.sent, b.dropped, Concat(b.queue));
  }

  lemma {:induction false} RunKeepsBytes(y: System, steps: seq<Step>)
    requires BytesKept(y) && Possible(y, steps)
    ensures BytesKept(Run(y, steps))
    decreases |steps|
  {
    if steps != [] {
      StepKeepsBytes(y, steps[0]);
      RunKeepsBytes(Apply(y, steps[0]), steps[1..]);
    }
  }

  function Lost(fate: seq<Fate>): nat {
    if fate == [] then 0 else Lost(fate[..|fate| - 1]) + |fate[|fate| - 1].dropped|
  }

  lemma {:induction false} WireLength(fate: seq<Fate>)
    ensures |Wire(fate)| + Lost(fate) == |Departed(fate)|
  {
    if fate != [] {
      WireLength(fate[..|fate| - 1]);
    }
  }

  lemma {:induction false} LostNothing(fate: seq<Fate>)
    ensures NoHardError(fate) <==> Lost(fate) == 0
  {
    if fate != [] {
      var before, last := fate[..|fate| - 1], fate[|fate| - 1];
      LostNothing(before);
      assert NoHardError(fate) <==> NoHardError(before) && last.dropped == [];
    }
  }

  lemma {:induction false} WireComplete(fate: seq<Fate>)
    requires NoHardError(fate)
    ensures Wire(fate) == Departed(fate)
  {
    if fate != [] {
      WireComplete(fate[..|fate| - 1]);
    }
  }

  /**
   Conservation: whatever happens, what left the queue followed by what is in it
   is what was offered; and what the kernel accepted followed by what is queued
   is what was offered exactly on the runs that saw no hard error.
   */
  lemma Conservation(y: System, steps: seq<Step>)
    requires Initial(y) && Possible(y, steps)
    ensures var z := Run(y, steps);
            && NonEmptyChunks(z.s.queue)
            && Departed(z.fate) + Concat(z.s.queue) == z.offered
            && |Wire(z.fate)| + Lost(z.fate) + |Concat(z.s.queue)| == |z.offered|
            && (Wire(z.fate) + Concat(z.s.queue) == z.offered <==> NoHardError(z.fate))
  {
    RunKeepsBytes(y, steps);
    var fate := Run(y, steps).fate;
    WireLength(fate);
    LostNothing(fate);
    if NoHardError(fate) {
      WireComplete(fate);
    }
  }

  // ---------------------------------------------------- reports and removal

  /**
   When a burst reports `writeComplete`, exactly: for its first report, when it
   emptied a queue that was not empty, or when the connection is made with nothing
   to write. So but for the first report the queue is empty.
   */
  lemma ReportsIff(s: Stream, k: Kernel)
    requires NonEmptyChunks(s.queue)
    ensures var w := AfterHandleWrite(s, k);
            && (w.calls.notify <==>
                  if s.connected then !s.once || (s.queue != [] && w.s.queue == []) else s.queue == [])
            && (w.calls.notify && s.once ==> w.s.queue == [])
            && (s.once ==> w.s.once)
  {
  }

  /**
   Epoll is only asked for a reason: an unlimited stream waits for it before its
   first report and after that exactly when a write would block, a limited one
   never once it is connected.
   */
  lemma PollsIffBlocked(s: Stream, k: Kernel)
    requires NonEmptyChunks(s.queue) && s.connected
    ensures s.rate == 0 ==>
              (WaitingOut(AfterHandleWrite(s, k).s) <==> !s.disconnecting && AfterHandleWrite(s, k).burst.end.Blocked?)
    ensures s.rate == 0 && !s.once && !s.disconnecting ==> WaitingOut(s)
    ensures s.rate != 0 ==> !WaitingOut(s)
  {
  }

  lemma {:induction false} StaysDisconnecting(y: System, steps: seq<Step>)
    requires NonEmptyChunks(y.s.queue) && Possible(y, steps) && y.s.disconnecting
    ensures Run(y, steps).s.disconnecting
    decreases |steps|
  {
    if steps != [] {
      ApplyKeepsChunks(y, steps[0]);
      StaysDisconnecting(Apply(y, steps[0]), steps[1..]);
    }
  }

  /** The engine is asked to forget a stream by its first disconnect, and never again, whatever comes in between. */
  lemma RemovedOnce(y: System, steps: seq<Step>)
    requires NonEmptyChunks(y.s.queue) && !y.s.disconnecting && Possible(Apply(y, Disconnect), steps)
    ensures AfterDisconnect(y.s).1 && !AfterDisconnect(Run(Apply(y, Disconnect), steps).s).1
  {
    StaysDisconnecting(Apply(y, Disconnect), steps);
  }
}
