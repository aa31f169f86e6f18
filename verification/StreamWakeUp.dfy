/**
 Who wakes the writer: a queued EPOLLOUT event, an egress timer, or epoll because
 `waitingOutEvent` answered true. Streams without a rate limit never lose that
 wake-up; rate-limited ones hold at most one, and lose it exactly when a write
 would block.
 */
module StreamWakeUp {
  import opened Basics
  import opened TcpStreams
  import opened StreamRuns

  function Tokens(y: System): nat {
    y.triggers + (if y.egress.Some? then 1 else 0) + y.fired
  }

  /** The assertion at the head of `asyncEgress`. */
  predicate AssertionHolds(y: System, step: Step) {
    step.Egress? ==> y.s.writeTriggered
  }

  // ------------------------------------------------------- no rate limit

  ghost predicate Free(y: System) {
    && NonEmptyChunks(y.s.queue)
    && y.s.rate == 0 && y.egress.None? && y.fired == 0
    && (y.phase.New? ==> !y.s.once && !y.asked && y.triggers == 0)
    && (y.phase.Removed? ==> y.s.disconnecting)
    && (NoHardError(y.fate) ==>
          && (y.s.writeTriggered ==> y.triggers > 0 || !y.s.once || y.s.disconnecting)
          && (y.s.queue != [] ==> y.triggers > 0 || y.s.blocked || !y.s.once || !y.s.connected || y.s.disconnecting))
  }

  lemma WrittenKeepsFree(y: System, k: Kernel)
    requires NonEmptyChunks(y.s.queue) && y.s.rate == 0 && y.egress.None? && y.fired == 0
    requires !y.phase.New? && (y.phase.Removed? ==> y.s.disconnecting)
    ensures Free(RunHandleWrite(y, k))
  {
    var w := AfterHandleWrite(y.s, k);
    if y.s.connected && NoHardError(RunHandleWrite(y, k).fate) {
      BurstMovesBytes(y.s.queue, y.s.rate, k.replies, 0, 0, 0);
      assert RunHandleWrite(y, k).fate[|y.fate|].dropped == w.burst.dropped;
    }
  }

  lemma QueueKeepsFree(y: System, data: Bytes)
    requires Free(y)
    ensures Free(Apply(y, Queue(data)))
  {
  }

  lemma StepKeepsFree(y: System, step: Step)
    requires Free(y) && Enabled(y, step)
    ensures Free(Apply(y, step))
  {
    match step
    case Trigger(k) => WrittenKeepsFree(y.(triggers := y.triggers - 1), k);
    case EpollOut(k) => WrittenKeepsFree(y, k);
    case Queue(data) => QueueKeepsFree(y, data);
    case _ =>
  }

  lemma {:induction false} RunKeepsFree(y: System, steps: seq<Step>)
    requires Free(y) && Possible(y, steps)
    ensures Free(Run(y, steps))
    decreases |steps|
  {
    if steps != [] {
      StepKeepsFree(y, steps[0]);
      RunKeepsFree(Apply(y, steps[0]), steps[1..]);
    }
  }

  /**
   No lost wake-up: on an outgoing stream, whatever the interleaving and even for
   data queued before `Engine::add`, a non-empty queue always has an EPOLLOUT
   event on its way or a `waitingOutEvent` that answers true, until a hard error
   or a disconnect.
   */
  lemma NoLostWakeUp(connected: bool, steps: seq<Step>)
    requires Possible(Outgoing(connected), steps)
    ensures var z := Run(Outgoing(connected), steps);
            NoHardError(z.fate) && !z.s.disconnecting && z.s.queue != [] ==> z.triggers > 0 || WaitingOut(z.s)
  {
    RunKeepsFree(Outgoing(connected), steps);
  }

  // ---------------------------------------------------------- rate limit

  ghost predicate OneToken(y: System) {
    && NonEmptyChunks(y.s.queue)
    && y.s.rate > 0 && y.s.connected && !y.asked
    && (y.phase.New? ==> Tokens(y) == 0)
    && Tokens(y) <= 1
    && (Tokens(y) == 1 ==> y.s.writeTriggered)
  }

  lemma WrittenKeepsOneToken(y: System, k: Kernel)
    requires NonEmptyChunks(y.s.queue) && y.s.rate > 0 && y.s.connected && !y.asked && !y.phase.New? && Tokens(y) == 0
    ensures OneToken(RunHandleWrite(y, k))
    ensures Tokens(RunHandleWrite(y, k)) == if AfterHandleWrite(y.s, k).burst.end.RateLimited? then 1 else 0
  {
  }

  lemma StepKeepsOneToken(y: System, step: Step)
    requires OneToken(y) && Enabled(y, step)
    ensures OneToken(Apply(y, step)) && AssertionHolds(y, step)
  {
    match step
    case Trigger(k) => WrittenKeepsOneToken(y.(triggers := y.triggers - 1), k);
    case _ =>
  }

  lemma {:induction false} RunKeepsOneToken(y: System, steps: seq<Step>)
    requires OneToken(y) && Possible(y, steps)
    ensures OneToken(Run(y, steps))
    decreases |steps|
  {
    if steps != [] {
      StepKeepsOneToken(y, steps[0]);
      RunKeepsOneToken(Apply(y, steps[0]), steps[1..]);
    }
  }

  /**
   One wake-up token: an accepted stream never has more than one of {queued
   event, egress timer, fired egress event}, having one means `writeTriggered`,
   and so the assertion of `asyncEgress` holds whenever it is run, before or
   after a disconnect, for accepted and for outgoing streams.
   */
  lemma OneWakeUpToken(rate: nat, steps: seq<Step>)
    requires rate > 0 && Possible(Limited(rate), steps)
    ensures var z := Run(Limited(rate), steps);
            && Tokens(z) <= 1
            && (Tokens(z) == 1 ==> z.s.writeTriggered)
  {
    RunKeepsOneToken(Limited(rate), steps);
  }

  lemma EgressAssertionHolds(y: System, steps: seq<Step>, next: Step)
    requires Initial(y) && Possible(y, steps) && Enabled(Run(y, steps), next)
    ensures AssertionHolds(Run(y, steps), next)
  {
    if y.s.rate > 0 {
      RunKeepsOneToken(y, steps);
    } else {
      RunKeepsFree(y, steps);
    }
  }

  // ------------------------------------- where the rate limiter loses it

  /** No token, epoll not asked, and `queueWrite` will not trigger: nothing can call `handleWrite` again. */
  ghost predicate Stalled(y: System) {
    && NonEmptyChunks(y.s.queue)
    && y.s.rate > 0 && y.s.connected && !y.asked && !y.phase.New?
    && Tokens(y) == 0
    && (y.s.blocked || y.s.writeTriggered)
  }

  /** A stalled stream never writes again, whatever is queued on it and however long one waits. */
  lemma {:induction false} StalledForever(y: System, steps: seq<Step>)
    requires Stalled(y) && Possible(y, steps)
    ensures Stalled(Run(y, steps)) && Run(y, steps).fate == y.fate
    decreases |steps|
  {
    if steps != [] {
      assert Stalled(Apply(y, steps[0]));
      StalledForever(Apply(y, steps[0]), steps[1..]);
    }
  }

  /** Data that is queued has a token, or one of the flags that keep `queueWrite` from making one. */
  ghost predicate Marked(y: System) {
    && OneToken(y)
    && (y.s.queue != [] && NoHardError(y.fate) ==> Tokens(y) == 1 || y.s.blocked || y.s.writeTriggered)
    && (y.phase.New? ==>
          !y.s.blocked && y.fate == [] && (y.s.writeTriggered <==> y.offered != []) && (y.s.queue != [] <==> y.offered != []))
  }

  lemma WrittenKeepsMarked(y: System, k: Kernel)
    requires NonEmptyChunks(y.s.queue) && y.s.rate > 0 && y.s.connected && !y.asked && !y.phase.New? && Tokens(y) == 0
    ensures Marked(RunHandleWrite(y, k))
  {
    WrittenKeepsOneToken(y, k);
    var z, b := RunHandleWrite(y, k), AfterHandleWrite(y.s, k).burst;
    BurstMovesBytes(y.s.queue, y.s.rate, k.replies, 0, 0, 0);
    assert z.fate[|y.fate|].dropped == b.dropped;
  }

  lemma StepKeepsMarked(y: System, step: Step)
    requires Marked(y) && Enabled(y, step)
    ensures Marked(Apply(y, step))
  {
    StepKeepsOneToken(y, step);
    match step
    case Trigger(k) => WrittenKeepsMarked(y.(triggers := y.triggers - 1), k);
    case _ =>
  }

  lemma {:induction false} RunKeepsMarked(y: System, steps: seq<Step>)
    requires Marked(y) && Possible(y, steps)
    ensures Marked(Run(y, steps))
    decreases |steps|
  {
    if steps != [] {
      StepKeepsMarked(y, steps[0]);
      RunKeepsMarked(Apply(y, steps[0]), steps[1..]);
    }
  }

  /**
   On every run of a rate-limited stream, with data queued before `Engine::add` or
   after it, queued data has no wake-up exactly in the stalled states.
   */
  lemma WakeUpLostIffStalled(rate: nat, steps: seq<Step>)
    requires rate > 0 && Possible(Limited(rate), steps)
    ensures var z := Run(Limited(rate), steps);
            !z.phase.New? && NoHardError(z.fate) && z.s.queue != [] ==>
              (Tokens(z) == 0 && !WaitingOut(z.s) <==> Stalled(z))
  {
    RunKeepsMarked(Limited(rate), steps);
  }

  /** The step leaves the stream without a wake-up: it is registered with data queued already, or a write would block. */
  predicate Stalls(y: System, step: Step)
    requires NonEmptyChunks(y.s.queue)
  {
    (step.Add? && y.offered != []) || (step.Trigger? && AfterHandleWrite(y.s, step.k).burst.end.Blocked?)
  }

  /** Which steps stall a stream: a disconnect aside, exactly these two kinds. */
  lemma StepStallsIff(y: System, step: Step)
    requires Marked(y) && !y.phase.Removed? && !Stalled(y) && Enabled(y, step) && !step.Disconnect?
    ensures Stalled(Apply(y, step)) <==> Stalls(y, step)
  {
    match step
    case Trigger(k) => WrittenKeepsOneToken(y.(triggers := y.triggers - 1), k);
    case _ =>
  }

  predicate SomeStalls(y: System, steps: seq<Step>)
    requires NonEmptyChunks(y.s.queue) && Possible(y, steps)
    decreases |steps|
  {
    steps != [] && (Stalls(y, steps[0]) || (ApplyKeepsChunks(y, steps[0]); SomeStalls(Apply(y, steps[0]), steps[1..])))
  }

  predicate NoDisconnect(steps: seq<Step>) {
    forall i | 0 <= i < |steps| :: !steps[i].Disconnect?
  }

  lemma {:induction false} RunStallsIff(y: System, steps: seq<Step>)
    requires Marked(y) && !y.phase.Removed? && !Stalled(y) && Possible(y, steps) && NoDisconnect(steps)
    ensures Stalled(Run(y, steps)) <==> SomeStalls(y, steps)
    decreases |steps|
  {
    if steps != [] {
      var z := Apply(y, steps[0]);
      StepKeepsMarked(y, steps[0]);
      StepStallsIff(y, steps[0]);
      if Stalled(z) {
        StalledForever(z, steps[1..]);
      } else {
        RunStallsIff(z, steps[1..]);
      }
    }
  }

  /**
   Which runs of a rate-limited stream end stalled, while nobody disconnects it:
   exactly those on which data had been queued when it was added, or a burst met a
   write that would block.
   */
  lemma StalledIffBlockedOrEarly(rate: nat, steps: seq<Step>)
    requires rate > 0 && Possible(Limited(rate), steps) && NoDisconnect(steps)
    ensures Stalled(Run(Limited(rate), steps)) <==> SomeStalls(Limited(rate), steps)
  {
    RunStallsIff(Limited(rate), steps);
  }

  /**
   A burst of an unlimited stream, started by a queued event or by epoll, leaves
   data queued without a wake-up exactly when a hard error cut it short.
   */
  lemma HardErrorStrands(y: System, step: Step)
    requires NonEmptyChunks(y.s.queue) && y.s.rate == 0 && !y.s.disconnecting && y.phase.Added? && Enabled(y, step)
    requires (step.Trigger? && y.triggers == 1) || (step.EpollOut? && y.triggers == 0)
    ensures var z := Apply(y, step);
            z.s.queue != [] && z.triggers == 0 && !WaitingOut(z.s) <==>
            AfterHandleWrite(y.s, step.k).burst.end.Broken? && z.s.queue != []
  {
  }

  // ------------------------------------------------------------ witnesses

  /** Two runs that stall: a write that would block, and data queued too early. */
  lemma StallingRuns(rate: nat, data: Bytes)
    requires rate > 0 && data != []
    ensures var blocked := [Add, Queue(data), Trigger(Kernel([], 0))];
            && Possible(Limited(rate), blocked)
            && Stalled(Run(Limited(rate), blocked)) && Run(Limited(rate), blocked).s.queue == [data]
    ensures var early := [Queue(data), Add];
            && Possible(Limited(rate), early)
            && Stalled(Run(Limited(rate), early)) && Run(Limited(rate), early).s.queue == [data]
  {
    var y := Limited(rate);
    RunTwo(y, Queue(data), Add);
    var added := Apply(y, Add);
    RunTwo(added, Queue(data), Trigger(Kernel([], 0)));
    assert [Add, Queue(data), Trigger(Kernel([], 0))][1..] == [Queue(data), Trigger(Kernel([], 0))];
  }

  lemma RunTwo(y: System, a: Step, b: Step)
    requires NonEmptyChunks(y.s.queue) && Enabled(y, a) && NonEmptyChunks(Apply(y, a).s.queue) && Enabled(Apply(y, a), b)
    ensures Possible(y, [a, b]) && Run(y, [a, b]) == Apply(Apply(y, a), b)
  {
    var z := Apply(y, a);
    assert [a, b][1..] == [b] && [b][1..] == [];
    ApplyKeepsChunks(z, b);
    assert Possible(Apply(z, b), []);
    assert Possible(z, [b]) && Run(z, [b]) == Run(Apply(z, b), []);
  }
}
