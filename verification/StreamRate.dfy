/**
 The egress rate limiter over whole runs: what an accepted stream has put on the
 wire never exceeds the rate times the time, however bursts, timers and
 `queueWrite` interleave.
 */
module StreamRate {
  import opened Basics
  import opened TcpStreams
  import opened StreamRuns
  import opened StreamWakeUp

  predicate ChunksUpTo(queue: seq<Bytes>, size: nat) {
    forall i | 0 <= i < |queue| :: |queue[i]| <= size
  }

  /** Small enough that the limiter's 64-bit product does not wrap (about 18 GB queued at once). */
  predicate Fits(backlog: nat) {
    backlog * ONE_SEC_IN_NS < UINT64_SIZE
  }

  function AtLeastOne(e: nat): nat {
    if e == 0 then 1 else e
  }

  /** A total that passes the rate test is below (rate + 1) times the time. */
  lemma UnderRate(rate: nat, total: nat, e: nat)
    requires rate != 0 && Fits(total) && !OverRate(rate, total, e)
    ensures total * ONE_SEC_IN_NS < (rate + 1) * AtLeastOne(e)
  {
    var t, d := total * ONE_SEC_IN_NS, AtLeastOne(e);
    assert t % UINT64_SIZE == t;
    assert t / d <= rate;
    assert t == d * (t / d) + t % d;
    assert d * (t / d) <= d * rate by {
      MulMono(d, t / d, rate);
    }
    assert (rate + 1) * d == d * rate + d;
  }

  lemma MulMono(a: nat, b: int, c: int)
    requires b <= c
    ensures a * b <= a * c
  {
  }

  /** The clock after `turns` writes of a burst. */
  function ClockAt(replies: seq<Reply>, elapsed: nat, turns: nat): nat
    requires turns <= |replies|
    decreases turns
  {
    if turns == 0 then elapsed
    else ClockAt(replies[1..], elapsed + if replies[0].Room? then replies[0].ns else 0, turns - 1)
  }

  /** All that a burst sent but the last write of a limited one, `kept` bytes, passed the rate test after `turns` writes. */
  ghost predicate StopsAfter(b: Burst, rate: nat, replies: seq<Reply>, total: nat, elapsed: nat, writes: nat, chunk: nat,
                             kept: nat, turns: nat)
  {
    && kept <= b.total <= kept + (if b.end.RateLimited? then chunk else 0)
    && turns <= |replies| && turns <= b.writes - writes && ClockAt(replies, elapsed, turns) <= b.elapsed
    && (if turns == 0 then kept == total else !OverRate(rate, kept, ClockAt(replies, elapsed, turns)))
  }

  lemma TurnStopsAfter(queue: seq<Bytes>, rate: nat, replies: seq<Reply>, total: nat, elapsed: nat, writes: nat, chunk: nat,
                       kept: nat, turns: nat)
    requires NonEmptyChunks(queue) && queue != [] && Next(replies).Room?
    requires var n, now := Taken(replies[0].bytes, |queue[0]|), elapsed + replies[0].ns;
             && !OverRate(rate, total + n, now)
             && StopsAfter(RunBurst(Consume(queue, n), rate, replies[1..], total + n, now, writes + 1),
                           rate, replies[1..], total + n, now, writes + 1, chunk, kept, turns)
    ensures StopsAfter(RunBurst(queue, rate, replies, total, elapsed, writes),
                       rate, replies, total, elapsed, writes, chunk, kept, turns + 1)
  {
    BurstRoom(queue, rate, replies, total, elapsed, writes);
    assert ClockAt(replies, elapsed, turns + 1) == ClockAt(replies[1..], elapsed + replies[0].ns, turns);
  }

  /**
   Where the loop of a burst stops: all it sent but the last write of a limited
   burst passed the rate test at a clock reading of the burst, the one after
   `turns` of its writes.
   */
  lemma {:induction false} BurstStops(queue: seq<Bytes>, rate: nat, replies: seq<Reply>, total: nat, elapsed: nat,
                                      writes: nat, chunk: nat)
      returns (kept: nat, turns: nat)
    requires NonEmptyChunks(queue) && ChunksUpTo(queue, chunk) && rate != 0
    ensures StopsAfter(RunBurst(queue, rate, replies, total, elapsed, writes),
                       rate, replies, total, elapsed, writes, chunk, kept, turns)
    decreases |Concat(queue)|
  {
    kept, turns := total, 0;
    if queue != [] && Next(replies).Room? {
      var n, now := Taken(replies[0].bytes, |queue[0]|), elapsed + replies[0].ns;
      ConsumeTakesBytes(queue, n);
      if !OverRate(rate, total + n, now) {
        kept, turns := BurstStops(Consume(queue, n), rate, replies[1..], total + n, now, writes + 1, chunk);
        TurnStopsAfter(queue, rate, replies, total, elapsed, writes, chunk, kept, turns);
        turns := turns + 1;
      }
    }
  }

  /** Why a burst that met `replies` from here on ended as it did. */
  ghost predicate EndExplained(b: Burst, rate: nat, replies: seq<Reply>, elapsed: nat, writes: nat) {
    && 0 <= b.writes - writes <= |replies|
    && (forall i | 0 <= i < b.writes - writes :: replies[i].Room?)
    && b.elapsed == ClockAt(replies, elapsed, b.writes - writes)
    && match b.end
       case Drained => b.queue == []
       case RateLimited => b.writes > writes && OverRate(rate, b.total, b.elapsed)
       case Blocked => b.queue != [] && Next(replies[b.writes - writes..]).WouldBlock?
       case Broken => Next(replies[b.writes - writes..]).Failed?
  }

  lemma TurnExplained(b: Burst, t: Burst, rate: nat, replies: seq<Reply>, elapsed: nat, writes: nat)
    requires replies != [] && replies[0].Room? && SameEnd(b, t)
    requires EndExplained(t, rate, replies[1..], elapsed + replies[0].ns, writes + 1)
    ensures EndExplained(b, rate, replies, elapsed, writes)
  {
    var w := b.writes - writes;
    assert replies[w..] == replies[1..][w - 1..];
    assert ClockAt(replies, elapsed, w) == ClockAt(replies[1..], elapsed + replies[0].ns, w - 1);
    forall i | 0 <= i < w ensures replies[i].Room? {
      assert i > 0 ==> replies[i] == replies[1..][i - 1];
    }
  }

  lemma OverExplained(b: Burst, rate: nat, replies: seq<Reply>, elapsed: nat, writes: nat)
    requires replies != [] && replies[0].Room? && b.end.RateLimited? && b.writes == writes + 1
    requires b.elapsed == elapsed + replies[0].ns && OverRate(rate, b.total, b.elapsed)
    ensures EndExplained(b, rate, replies, elapsed, writes)
  {
    assert ClockAt(replies, elapsed, 1) == ClockAt(replies[1..], elapsed + replies[0].ns, 0);
  }

  lemma StopExplained(queue: seq<Bytes>, rate: nat, replies: seq<Reply>, total: nat, elapsed: nat, writes: nat)
    requires NonEmptyChunks(queue) && (queue != [] ==> !Next(replies).Room?)
    ensures EndExplained(RunBurst(queue, rate, replies, total, elapsed, writes), rate, replies, elapsed, writes)
  {
    BurstEnds(queue, rate, replies, total, elapsed, writes);
    assert replies[0..] == replies;
  }

  lemma RoomExplained(queue: seq<Bytes>, rate: nat, replies: seq<Reply>, total: nat, elapsed: nat, writes: nat, t: Burst)
    requires NonEmptyChunks(queue) && queue != [] && Next(replies).Room?
    requires var n, now := Taken(replies[0].bytes, |queue[0]|), elapsed + replies[0].ns;
             !OverRate(rate, total + n, now) ==>
               && t == RunBurst(Consume(queue, n), rate, replies[1..], total + n, now, writes + 1)
               && EndExplained(t, rate, replies[1..], now, writes + 1)
    ensures EndExplained(RunBurst(queue, rate, replies, total, elapsed, writes), rate, replies, elapsed, writes)
  {
    var n, now := Taken(replies[0].bytes, |queue[0]|), elapsed + replies[0].ns;
    var b := RunBurst(queue, rate, replies, total, elapsed, writes);
    BurstRoom(queue, rate, replies, total, elapsed, writes);
    if OverRate(rate, total + n, now) {
      OverExplained(b, rate, replies, elapsed, writes);
    } else {
      TurnExplained(b, t, rate, replies, elapsed, writes);
    }
  }

  /**
   A burst ends for a reason: it writes again and again until the queue is empty,
   the rate test fails on all it wrote in all its time, the socket has no room, or
   there is a hard error.
   */
  lemma {:induction false} BurstEndsForAReason(queue: seq<Bytes>, rate: nat, replies: seq<Reply>, total: nat, elapsed: nat, writes: nat)
    requires NonEmptyChunks(queue)
    ensures EndExplained(RunBurst(queue, rate, replies, total, elapsed, writes), rate, replies, elapsed, writes)
    decreases |Concat(queue)|
  {
    if queue != [] && Next(replies).Room? {
      var n, now := Taken(replies[0].bytes, |queue[0]|), elapsed + replies[0].ns;
      ConsumeTakesBytes(queue, n);
      var t := RunBurst(Consume(queue, n), rate, replies[1..], total + n, now, writes + 1);
      BurstEndsForAReason(Consume(queue, n), rate, replies[1..], total + n, now, writes + 1);
      RoomExplained(queue, rate, replies, total, elapsed, writes, t);
    } else {
      StopExplained(queue, rate, replies, total, elapsed, writes);
    }
  }

  /** A total that fails the rate test has reached (rate + 1) times the time. */
  lemma OverIsOver(rate: nat, total: nat, e: nat)
    requires Fits(total) && OverRate(rate, total, e)
    ensures total * ONE_SEC_IN_NS >= (rate + 1) * AtLeastOne(e)
  {
    var t, d := total * ONE_SEC_IN_NS, AtLeastOne(e);
    assert t % UINT64_SIZE == t;
    assert t == d * (t / d) + t % d;
    MulMono(d, rate + 1, t / d);
    assert (rate + 1) * d == d * (rate + 1);
  }

  lemma DelayIsShort(rate: nat)
    requires rate != 0
    ensures rate * EgressDelay(rate) <= MAX_PACKET_SIZE * ONE_SEC_IN_NS
  {
    var m, d := MAX_PACKET_SIZE * ONE_SEC_IN_NS, EgressDelay(rate);
    assert m == rate * d + m % rate;
  }

  /**
   The limiter is no stricter than it says: it delays a stream only after a burst
   whose bytes times 10^9 reached (rate + 1) times its time, and for no longer than
   one packet of MAX_PACKET_SIZE takes at the rate.
   */
  lemma DelayedOnlyWhenOver(s: Stream, k: Kernel)
    requires NonEmptyChunks(s.queue) && Fits(|Concat(s.queue)|)
    ensures var w := AfterHandleWrite(s, k);
            w.calls.egress.Some? ==>
              && s.rate * w.calls.egress.value <= MAX_PACKET_SIZE * ONE_SEC_IN_NS
              && |w.burst.sent| * ONE_SEC_IN_NS >= (s.rate + 1) * AtLeastOne(w.burst.elapsed)
  {
    var w := AfterHandleWrite(s, k);
    if w.calls.egress.Some? {
      DelayIsShort(s.rate);
      BurstEndsForAReason(s.queue, s.rate, k.replies, 0, 0, 0);
      BurstMovesBytes(s.queue, s.rate, k.replies, 0, 0, 0);
      OverIsOver(s.rate, w.burst.total, w.burst.elapsed);
    }
  }

  // ------------------------------------------------------------ over runs

  /** The time up to which the stream has paid: now, or the end of the delay after the last limited burst. */
  function Horizon(y: System): nat {
    if y.due > y.now then y.due else y.now
  }

  /** Nothing can start a burst before the delay of the previous one is over. */
  ghost predicate DelayRespected(y: System) {
    && (y.egress.Some? ==> y.egress.value == y.due)
    && (y.egress.None? && (!y.phase.Removed? || y.triggers > 0 || y.fired > 0) ==> y.due <= y.now)
  }

  function Excess(chunk: nat): nat {
    if chunk > MAX_PACKET_SIZE then chunk - MAX_PACKET_SIZE else 0
  }

  /** Clients queue chunks of at most `chunk` bytes and never have more queued than fits. */
  predicate Modest(y: System, step: Step, chunk: nat) {
    step.Queue? ==> |step.data| <= chunk && Fits(|Concat(y.s.queue)| + |step.data|)
  }

  predicate AllModest(y: System, steps: seq<Step>, chunk: nat)
    requires NonEmptyChunks(y.s.queue) && Possible(y, steps)
    decreases |steps|
  {
    steps == [] || (Modest(y, steps[0], chunk) &&
                    (ApplyKeepsChunks(y, steps[0]); AllModest(Apply(y, steps[0]), steps[1..], chunk)))
  }

  /** (rate + 1) for each nanosecond, and what oversized chunks add for each burst. */
  function Allowance(rate: nat, ns: nat, bursts: nat, chunk: nat): nat {
    (rate + 1) * ns + bursts * (Excess(chunk) * ONE_SEC_IN_NS)
  }

  /** A point of a run that the rate is counted from. */
  datatype Mark = Mark(wire: nat, horizon: nat, bursts: nat)

  function MarkOf(y: System): Mark {
    Mark(|Wire(y.fate)|, Horizon(y), y.bursts)
  }

  ghost predicate WithinRate(y: System, from: Mark, chunk: nat) {
    && from.wire <= |Wire(y.fate)| && from.horizon <= Horizon(y) && from.bursts <= y.bursts
    && (|Wire(y.fate)| - from.wire) * ONE_SEC_IN_NS
       <= Allowance(y.s.rate, Horizon(y) - from.horizon + 2 * (y.bursts - from.bursts), y.bursts - from.bursts, chunk)
  }

  ghost predicate RateKept(y: System, from: Mark, chunk: nat) {
    && OneToken(y) && DelayRespected(y)
    && ChunksUpTo(y.s.queue, chunk) && Fits(|Concat(y.s.queue)|)
    && WithinRate(y, from, chunk)
  }

  lemma AllowanceGrows(rate: nat, ns: nat, more: nat, bursts: nat, chunk: nat)
    requires ns <= more
    ensures Allowance(rate, ns, bursts, chunk) <= Allowance(rate, more, bursts, chunk)
  {
    MulMono(rate + 1, ns, more);
  }

  lemma AllowanceAdds(rate: nat, ns: nat, d: nat, bursts: nat, chunk: nat)
    ensures Allowance(rate, ns, bursts, chunk) + (rate + 1) * d + Excess(chunk) * ONE_SEC_IN_NS
         == Allowance(rate, ns + d, bursts + 1, chunk)
  {
    var x := Excess(chunk) * ONE_SEC_IN_NS;
    Distribute(rate + 1, ns, d);
    Distribute(x, bursts, 1);
  }

  /** The nanoseconds that a burst accounts for: its own, and the delay that pays for an overshooting chunk. */
  function Paid(rate: nat, b: Burst): nat
    requires rate != 0
  {
    AtLeastOne(b.elapsed) + if b.end.RateLimited? then EgressDelay(rate) + 1 else 0
  }

  /** The chunk that overshot is paid for by the egress delay. */
  lemma DelayPays(rate: nat, chunk: nat)
    requires rate != 0
    ensures chunk * ONE_SEC_IN_NS <= (rate + 1) * (EgressDelay(rate) + 1) + Excess(chunk) * ONE_SEC_IN_NS
  {
    var m, d := MAX_PACKET_SIZE * ONE_SEC_IN_NS, EgressDelay(rate);
    assert m == rate * d + m % rate;
    assert m <= rate * d + rate;
    assert (rate + 1) * (d + 1) == rate * d + rate + d + 1;
  }

  lemma BurstIsPaid(queue: seq<Bytes>, rate: nat, replies: seq<Reply>, chunk: nat)
    requires NonEmptyChunks(queue) && ChunksUpTo(queue, chunk) && rate != 0 && Fits(|Concat(queue)|)
    ensures var b := RunBurst(queue, rate, replies, 0, 0, 0);
            b.total * ONE_SEC_IN_NS <= (rate + 1) * Paid(rate, b) + Excess(chunk) * ONE_SEC_IN_NS
  {
    var b := RunBurst(queue, rate, replies, 0, 0, 0);
    var kept, turns := BurstStops(queue, rate, replies, 0, 0, 0, chunk);
    BurstMovesBytes(queue, rate, replies, 0, 0, 0);
    var e := AtLeastOne(b.elapsed);
    assert kept * ONE_SEC_IN_NS <= (rate + 1) * e by {
      if kept != 0 {
        var at := ClockAt(replies, 0, turns);
        UnderRate(rate, kept, at);
        MulMono(rate + 1, AtLeastOne(at), e);
      }
    }
    DelayPays(rate, chunk);
    Distribute(rate + 1, e, EgressDelay(rate) + 1);
  }

  lemma Distribute(a: nat, b: nat, c: nat)
    ensures a * (b + c) == a * b + a * c
  {
  }

  /** What a burst does to the bytes on the wire and to the clock. */
  lemma BurstEffect(y: System, k: Kernel)
    requires NonEmptyChunks(y.s.queue) && y.s.rate > 0 && y.s.connected && y.due <= y.now
    ensures var z, b := RunHandleWrite(y, k), RunBurst(y.s.queue, y.s.rate, k.replies, 0, 0, 0);
            && z.s.rate == y.s.rate && z.bursts == y.bursts + 1
            && |Wire(z.fate)| == |Wire(y.fate)| + b.total
            && Horizon(y) + Paid(y.s.rate, b) <= Horizon(z) + 2
            && |Concat(z.s.queue)| <= |Concat(y.s.queue)| && z.s.queue == b.queue
  {
    BurstMovesBytes(y.s.queue, y.s.rate, k.replies, 0, 0, 0);
    assert RunHandleWrite(y, k).fate[..|y.fate|] == y.fate;
  }

  lemma BurstKeepsRate(y: System, k: Kernel, from: Mark, chunk: nat)
    requires NonEmptyChunks(y.s.queue) && y.s.rate > 0 && y.s.connected && y.due <= y.now
    requires ChunksUpTo(y.s.queue, chunk) && Fits(|Concat(y.s.queue)|)
    requires WithinRate(y, from, chunk)
    ensures var z := RunHandleWrite(y, k);
            WithinRate(z, from, chunk) && ChunksUpTo(z.s.queue, chunk) && Fits(|Concat(z.s.queue)|)
    ensures y.egress.None? && y.triggers == 0 && y.fired == 0 ==> DelayRespected(RunHandleWrite(y, k))
  {
    var z, rate := RunHandleWrite(y, k), y.s.rate;
    BurstEffect(y, k);
    BurstKeepsSizes(y.s.queue, rate, k.replies, 0, 0, 0, chunk);
    BurstIsPaid(y.s.queue, rate, k.replies, chunk);
    var paid := Paid(rate, RunBurst(y.s.queue, rate, k.replies, 0, 0, 0));
    var ns, bursts := Horizon(y) - from.horizon + 2 * (y.bursts - from.bursts), y.bursts - from.bursts;
    var more := Horizon(z) - from.horizon + 2 * (z.bursts - from.bursts);
    assert ns + paid <= more && z.bursts - from.bursts == bursts + 1;
    AllowanceAdds(rate, ns, paid, bursts, chunk);
    AllowanceGrows(rate, ns + paid, more, bursts + 1, chunk);
  }

  lemma {:induction false} BurstKeepsSizes(queue: seq<Bytes>, rate: nat, replies: seq<Reply>, total: nat, elapsed: nat,
                                           writes: nat, chunk: nat)
    requires NonEmptyChunks(queue) && ChunksUpTo(queue, chunk)
    ensures ChunksUpTo(RunBurst(queue, rate, replies, total, elapsed, writes).queue, chunk)
    decreases |Concat(queue)|
  {
    if queue != [] && Next(replies).Room? {
      var n, now := Taken(replies[0].bytes, |queue[0]|), elapsed + replies[0].ns;
      ConsumeTakesBytes(queue, n);
      if !OverRate(rate, total + n, now) {
        BurstKeepsSizes(Consume(queue, n), rate, replies[1..], total + n, now, writes + 1, chunk);
      }
    }
  }

  lemma QueueKeepsRate(y: System, data: Bytes, from: Mark, chunk: nat)
    requires RateKept(y, from, chunk) && Modest(y, Queue(data), chunk)
    ensures var z := Apply(y, Queue(data));
            && WithinRate(z, from, chunk) && DelayRespected(z)
            && ChunksUpTo(z.s.queue, chunk) && Fits(|Concat(z.s.queue)|)
  {
    ConcatAppend(y.s.queue, [data]);
    assert Concat([data]) == data;
  }

  lemma StepKeepsRate(y: System, step: Step, from: Mark, chunk: nat)
    requires RateKept(y, from, chunk) && Enabled(y, step) && Modest(y, step, chunk)
    ensures RateKept(Apply(y, step), from, chunk) && Apply(y, step).s.rate == y.s.rate
  {
    StepKeepsOneToken(y, step);
    if step.Queue? {
      QueueKeepsRate(y, step.data, from, chunk);
    } else if step.Trigger? {
      BurstKeepsRate(y.(triggers := y.triggers - 1), step.k, from, chunk);
    } else {
      var z, spent := Apply(y, step), y.bursts - from.bursts;
      QuietStep(y, step);
      AllowanceGrows(y.s.rate, Horizon(y) - from.horizon + 2 * spent, Horizon(z) - from.horizon + 2 * spent, spent, chunk);
    }
  }

  lemma {:induction false} RunKeepsRate(y: System, steps: seq<Step>, from: Mark, chunk: nat)
    requires RateKept(y, from, chunk) && Possible(y, steps) && AllModest(y, steps, chunk)
    ensures RateKept(Run(y, steps), from, chunk) && Run(y, steps).s.rate == y.s.rate
    decreases |steps|
  {
    if steps != [] {
      StepKeepsRate(y, steps[0], from, chunk);
      RunKeepsRate(Apply(y, steps[0]), steps[1..], from, chunk);
    }
  }

  lemma StartKeepsRate(y: System, chunk: nat)
    requires OneToken(y) && DelayRespected(y) && ChunksUpTo(y.s.queue, chunk) && Fits(|Concat(y.s.queue)|)
    ensures RateKept(y, MarkOf(y), chunk)
  {
  }

  /**
   Long-run rate bound: between any two points of any run of an accepted stream,
   whatever came before, the bytes put on the wire times 10^9 are at most
   (rate + 1) times the nanoseconds between them, each point counted at the end of
   its pending egress delay, with 2 ns of rounding for each burst in between, plus
   what chunks exceed MAX_PACKET_SIZE by, once for each of these bursts.
   */
  lemma LongRunRate(rate: nat, before: seq<Step>, steps: seq<Step>, chunk: nat)
    requires rate > 0 && Possible(Limited(rate), before) && AllModest(Limited(rate), before, chunk)
    requires Possible(Run(Limited(rate), before), steps) && AllModest(Run(Limited(rate), before), steps, chunk)
    ensures var y := Run(Limited(rate), before);
            var z := Run(y, steps);
            && Horizon(y) <= Horizon(z) && y.bursts <= z.bursts
            && (|Wire(z.fate)| - |Wire(y.fate)|) * ONE_SEC_IN_NS
               <= (rate + 1) * (Horizon(z) - Horizon(y) + 2 * (z.bursts - y.bursts))
                  + (z.bursts - y.bursts) * (Excess(chunk) * ONE_SEC_IN_NS)
  {
    var start := Limited(rate);
    StartKeepsRate(start, chunk);
    RunKeepsRate(start, before, MarkOf(start), chunk);
    var y := Run(start, before);
    StartKeepsRate(y, chunk);
    RunKeepsRate(y, steps, MarkOf(y), chunk);
  }

  ghost predicate DelayBounded(y: System) {
    OneToken(y) && y.s.rate * (Horizon(y) - y.now) <= MAX_PACKET_SIZE * ONE_SEC_IN_NS
  }

  lemma StepKeepsDelayBounded(y: System, step: Step)
    requires DelayBounded(y) && Enabled(y, step)
    ensures DelayBounded(Apply(y, step)) && Apply(y, step).s.rate == y.s.rate
  {
    var z := Apply(y, step);
    StepKeepsOneToken(y, step);
    if z.due == y.due {
      MulMono(y.s.rate, Horizon(z) - z.now, Horizon(y) - y.now);
    } else {
      DelayIsShort(y.s.rate);
    }
  }

  lemma {:induction false} RunKeepsDelayBounded(y: System, steps: seq<Step>)
    requires DelayBounded(y) && Possible(y, steps)
    ensures DelayBounded(Run(y, steps)) && Run(y, steps).s.rate == y.s.rate
    decreases |steps|
  {
    if steps != [] {
      StepKeepsDelayBounded(y, steps[0]);
      RunKeepsDelayBounded(Apply(y, steps[0]), steps[1..]);
    }
  }

  /** On every run the limiter never holds a stream back for longer than one packet takes at its rate. */
  lemma NeverDelayedLonger(rate: nat, steps: seq<Step>)
    requires rate > 0 && Possible(Limited(rate), steps)
    ensures var z := Run(Limited(rate), steps);
            rate * (Horizon(z) - z.now) <= MAX_PACKET_SIZE * ONE_SEC_IN_NS
  {
    RunKeepsDelayBounded(Limited(rate), steps);
  }
}
