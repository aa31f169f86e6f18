/**
 The write side of a TCP stream: a deque of chunks, the flags that decide who
 wakes the writer next, and the egress rate limiter.

 `AfterQueueWrite`, `AfterHandleWrite` and `AfterDisconnect` say what one call
 does to the stream; the class at the end works in place and is proved to do
 just that.
 */
module TcpStreams {
  import opened Basics

  const MAX_PACKET_SIZE: nat := 4096
  const UINT64_SIZE: nat := 0x1_0000_0000_0000_0000

  type Positive = x: int | x >= 1 witness 1

  /**
   What one `write` meets: room in the socket for some bytes, none, or a hard
   error. `ns` is the time from the previous clock reading to the next one.
   */
  datatype Reply = Room(bytes: Positive, ns: nat) | WouldBlock | Failed

  /**
   Everything a burst of writes learns from outside, one reply for each write;
   once they are used up there is no more room. `lag` is the time from the last
   clock reading to the end of the burst.
   */
  datatype Kernel = Kernel(replies: seq<Reply>, lag: nat)

  /** The fields of the stream; `rate` is `egressRate` (0 for no limit). */
  datatype Stream = Stream(
    queue: seq<Bytes>,
    blocked: bool,
    once: bool,
    writeTriggered: bool,
    connected: bool,
    disconnecting: bool,
    rate: nat)

  /** The calls that one operation makes to the engine. */
  datatype Calls = Calls(activity: nat, trigger: bool, egress: Option<nat>, notify: bool)

  const NO_CALLS := Calls(0, false, None, false)

  datatype Ending = Drained | RateLimited | Blocked | Broken

  /** `elapsed` is the last clock reading, `sent` what the kernel took, `dropped` the chunk that a hard error lost. */
  datatype Burst = Burst(queue: seq<Bytes>, total: nat, elapsed: nat, writes: nat, end: Ending, sent: Bytes, dropped: Bytes)

  datatype WriteResult = WriteResult(s: Stream, calls: Calls, burst: Burst)

  predicate NonEmptyChunks(queue: seq<Bytes>) {
    forall i | 0 <= i < |queue| :: queue[i] != []
  }

  /** Bytes per second, in 64-bit unsigned arithmetic; an elapsed time of 0 counts as 1 ns. */
  function CurrentRate(total: nat, elapsed: nat): nat {
    (total * ONE_SEC_IN_NS % UINT64_SIZE) / (if elapsed == 0 then 1 else elapsed)
  }

  predicate OverRate(rate: nat, total: nat, elapsed: nat) {
    rate != 0 && CurrentRate(total, elapsed) > rate
  }

  function EgressDelay(rate: nat): nat
    requires rate != 0
  {
    MAX_PACKET_SIZE * ONE_SEC_IN_NS / rate
  }

  ghost predicate SameEnd(a: Burst, b: Burst) {
    a.queue == b.queue && a.total == b.total && a.elapsed == b.elapsed && a.writes == b.writes && a.end == b.end
  }

  /** The queue once the kernel took `n` bytes of its first chunk. */
  function Consume(queue: seq<Bytes>, n: nat): (rest: seq<Bytes>)
    requires queue != [] && NonEmptyChunks(queue) && 1 <= n <= |queue[0]|
    ensures NonEmptyChunks(rest)
  {
    if n < |queue[0]| then [queue[0][n..]] + queue[1..] else queue[1..]
  }

  lemma ConsumeTakesBytes(queue: seq<Bytes>, n: nat)
    requires queue != [] && NonEmptyChunks(queue) && 1 <= n <= |queue[0]|
    ensures queue[0][..n] + Concat(Consume(queue, n)) == Concat(queue)
    ensures |Concat(Consume(queue, n))| == |Concat(queue)| - n
  {
    var data, rest := queue[0], Concat(queue[1..]);
    assert Concat(queue) == data + rest;
    if n < |data| {
      var left := data[n..];
      assert ([left] + queue[1..])[1..] == queue[1..];
      assert Concat(Consume(queue, n)) == left + rest;
      assert data[..n] + left == data;
      Associate(data[..n], left, rest);
    } else {
      assert data[..n] == data && Consume(queue, n) == queue[1..];
    }
  }

  /** What `write` returns when there is room for some bytes. */
  function Taken(room: Positive, size: nat): nat {
    if room < size then room else size
  }

  function Next(replies: seq<Reply>): Reply {
    if replies == [] then WouldBlock else replies[0]
  }

  /** The write loop, from the point where `writes` writes sent `total` bytes in `elapsed` ns. */
  function RunBurst(queue: seq<Bytes>, rate: nat, replies: seq<Reply>, total: nat, elapsed: nat, writes: nat): (b: Burst)
    requires NonEmptyChunks(queue)
    ensures NonEmptyChunks(b.queue) && b.elapsed >= elapsed
    ensures b.end.RateLimited? ==> rate != 0
    ensures b.end.Drained? <==> b.queue == [] && !b.end.RateLimited? && !b.end.Broken?
    decreases |Concat(queue)|
  {
    if queue == [] then Burst([], total, elapsed, writes, Drained, [], [])
    else match Next(replies)
      case Room(bytes, ns) =>
        var n := Taken(bytes, |queue[0]|);
        var rest := Consume(queue, n);
        ConsumeTakesBytes(queue, n);
        if OverRate(rate, total + n, elapsed + ns) then
          Burst(rest, total + n, elapsed + ns, writes + 1, RateLimited, queue[0][..n], [])
        else
          var b := RunBurst(rest, rate, replies[1..], total + n, elapsed + ns, writes + 1);
          b.(sent := queue[0][..n] + b.sent)
      case WouldBlock => Burst(queue, total, elapsed, writes, Blocked, [], [])
      case Failed => Burst(queue[1..], total, elapsed, writes, Broken, [], queue[0])
  }

  /** One turn of the write loop with room in the socket, in the terms of what remains to be done. */
  lemma BurstRoom(queue: seq<Bytes>, rate: nat, replies: seq<Reply>, total: nat, elapsed: nat, writes: nat)
    requires NonEmptyChunks(queue) && queue != [] && Next(replies).Room?
    ensures var n, now := Taken(Next(replies).bytes, |queue[0]|), elapsed + Next(replies).ns;
            && |Concat(Consume(queue, n))| == |Concat(queue)| - n
            && SameEnd(RunBurst(queue, rate, replies, total, elapsed, writes),
                       if OverRate(rate, total + n, now) then
                         Burst(Consume(queue, n), total + n, now, writes + 1, RateLimited, [], [])
                       else
                         RunBurst(Consume(queue, n), rate, replies[1..], total + n, now, writes + 1))
  {
    ConsumeTakesBytes(queue, Taken(Next(replies).bytes, |queue[0]|));
  }

  /** What a burst sent, of which its first turn is a part. */
  lemma BurstSent(queue: seq<Bytes>, rate: nat, replies: seq<Reply>, total: nat, elapsed: nat, writes: nat)
    requires NonEmptyChunks(queue) && queue != [] && Next(replies).Room?
    ensures var n, now := Taken(Next(replies).bytes, |queue[0]|), elapsed + Next(replies).ns;
            var b, t := RunBurst(queue, rate, replies, total, elapsed, writes),
                        RunBurst(Consume(queue, n), rate, replies[1..], total + n, now, writes + 1);
            if OverRate(rate, total + n, now) then b.sent == queue[0][..n] && b.dropped == []
            else b.sent == queue[0][..n] + t.sent && b.dropped == t.dropped
  {
  }

  /** The turn that ends the loop because nothing was written. */
  lemma BurstEnds(queue: seq<Bytes>, rate: nat, replies: seq<Reply>, total: nat, elapsed: nat, writes: nat)
    requires NonEmptyChunks(queue) && (queue != [] ==> !Next(replies).Room?)
    ensures SameEnd(RunBurst(queue, rate, replies, total, elapsed, writes),
                    if queue == [] then Burst(queue, total, elapsed, writes, Drained, [], [])
                    else if Next(replies).WouldBlock? then Burst(queue, total, elapsed, writes, Blocked, [], [])
                    else Burst(queue[1..], total, elapsed, writes, Broken, [], []))
  {
  }

  function AfterHandleWrite(s: Stream, k: Kernel): WriteResult
    requires NonEmptyChunks(s.queue)
  {
    if s.connected then
      var b := RunBurst(s.queue, s.rate, k.replies, 0, 0, 0);
      var notify := !s.once || (s.queue != [] && b.queue == []);
      WriteResult(s.(queue := b.queue, writeTriggered := b.end.RateLimited?, blocked := b.end.RateLimited? || b.end.Blocked?,
                 once := s.once || notify),
              Calls(b.writes, false, if b.end.RateLimited? then Some(EgressDelay(s.rate)) else None, notify),
              b)
    else
      WriteResult(s.(writeTriggered := s.queue != [], blocked := false, connected := true),
              Calls(1, s.queue != [], None, s.queue == []),
              Burst(s.queue, 0, 0, 0, Drained, [], []))
  }

  function AfterQueueWrite(s: Stream, data: Bytes): (Stream, Calls) {
    if data == [] then (s, NO_CALLS)
    else
      var wake := s.connected && !s.blocked && !s.writeTriggered;
      (s.(queue := s.queue + [data], writeTriggered := s.writeTriggered || wake), NO_CALLS.(trigger := wake))
  }

  function AfterDisconnect(s: Stream): (Stream, bool) {
    (s.(disconnecting := true), !s.disconnecting)
  }

  predicate WaitingOut(s: Stream) {
    (s.blocked || !s.once || !s.connected) && !s.disconnecting && (!s.connected || s.rate == 0)
  }

  function NewAccepted(): Stream {
    Stream([], false, false, false, true, false, 4096 * 1024)
  }

  function NewOutgoing(connected: bool): Stream {
    Stream([], false, false, false, connected, false, 0)
  }

  class TcpStream {
    var writeQueue: seq<Bytes>
    var blocked: bool
    var once: bool
    var writeTriggered: bool
    var connected: bool
    var disconnecting: bool
    var egressRate: nat

    predicate Valid()
      reads this
    {
      NonEmptyChunks(writeQueue)
    }

    function View(): Stream
      reads this
    {
      Stream(writeQueue, blocked, once, writeTriggered, connected, disconnecting, egressRate)
    }

    constructor Accept()
      ensures Valid() && View() == NewAccepted()
    {
      writeQueue, blocked, once, writeTriggered, disconnecting := [], false, false, false, false;
      connected, egressRate := true, 4096 * 1024;
    }

    /** `err` is what `connect` answered; below -1 the stream is never given to the engine. */
    constructor Connect(err: int)
      ensures Valid() && View() == NewOutgoing(err >= 0)
    {
      writeQueue, blocked, once, writeTriggered, disconnecting := [], false, false, false, false;
      connected, egressRate := err >= 0, 0;
    }

    method QueueWrite(data: Bytes) returns (calls: Calls)
      requires Valid()
      modifies this
      ensures Valid() && (View(), calls) == AfterQueueWrite(old(View()), data)
    {
      calls := NO_CALLS;
      if |data| == 0 {
        return;
      }
      writeQueue := writeQueue + [data];
      if connected && !blocked && !writeTriggered {
        writeTriggered := true;
        calls := calls.(trigger := true);
      }
    }

    method HandleWrite(k: Kernel) returns (calls: Calls)
      requires Valid()
      modifies this
      ensures Valid() && View() == AfterHandleWrite(old(View()), k).s
      ensures calls == AfterHandleWrite(old(View()), k).calls
    {
      writeTriggered := false;
      blocked := false;
      if connected {
        var wasEmpty := |writeQueue| == 0;
        calls := WriteBurst(k);
        var isEmpty := |writeQueue| == 0;
        if !once || (!wasEmpty && isEmpty) {
          once := true;
          calls := calls.(notify := true);
        }
      } else {
        connected := true;
        calls := NO_CALLS.(activity := 1);
        if |writeQueue| > 0 {
          writeTriggered := true;
          calls := calls.(trigger := true);
        } else {
          calls := calls.(notify := true);
        }
      }
    }

    /** The flags and the engine calls tell how the burst ended, and the queue is what it left. */
    ghost predicate Shows(b: Burst, calls: Calls)
      reads this
    {
      && writeQueue == b.queue && writeTriggered == b.end.RateLimited?
      && blocked == (b.end.RateLimited? || b.end.Blocked?)
      && calls == Calls(b.writes, false, if b.end.RateLimited? && egressRate != 0 then Some(EgressDelay(egressRate)) else None, false)
    }

    /** The loop of `HandleWrite`. */
    method WriteBurst(k: Kernel) returns (calls: Calls)
      requires Valid() && !writeTriggered && !blocked
      modifies this`writeQueue, this`writeTriggered, this`blocked
      ensures Valid() && Shows(RunBurst(old(writeQueue), egressRate, k.replies, 0, 0, 0), calls)
    {
      var replies := k.replies;
      var totalWritten: nat, elapsedNs: nat := 0, 0;
      ghost var whole := RunBurst(writeQueue, egressRate, replies, 0, 0, 0);
      calls := NO_CALLS;
      while |writeQueue| != 0
        invariant Valid() && !blocked && !writeTriggered
        invariant calls == Calls(calls.activity, false, None, false)
        invariant SameEnd(whole, RunBurst(writeQueue, egressRate, replies, totalWritten, elapsedNs, calls.activity))
        decreases |Concat(writeQueue)|
      {
        var more;
        totalWritten, elapsedNs, calls, more := WriteTurn(replies, totalWritten, elapsedNs, calls);
        if !more {
          return;
        }
        replies := replies[1..];
      }
      BurstEnds(writeQueue, egressRate, replies, totalWritten, elapsedNs, calls.activity);
    }

    /** The body of the loop; `more` tells whether it goes round again. */
    method WriteTurn(replies: seq<Reply>, total: nat, elapsed: nat, before: Calls)
        returns (totalWritten: nat, elapsedNs: nat, calls: Calls, more: bool)
      requires Valid() && writeQueue != [] && !writeTriggered && !blocked
      requires before == Calls(before.activity, false, None, false)
      modifies this`writeQueue, this`writeTriggered, this`blocked
      ensures Valid()
      ensures !more ==> Shows(RunBurst(old(writeQueue), egressRate, replies, total, elapsed, before.activity), calls)
      ensures more ==> replies != [] && !blocked && !writeTriggered && calls == Calls(before.activity + 1, false, None, false)
      ensures more ==> |Concat(writeQueue)| < |Concat(old(writeQueue))|
      ensures more ==> SameEnd(RunBurst(old(writeQueue), egressRate, replies, total, elapsed, before.activity),
                               RunBurst(writeQueue, egressRate, replies[1..], totalWritten, elapsedNs, calls.activity))
    {
      var reply := Next(replies);
      if reply.Room? {
        BurstRoom(writeQueue, egressRate, replies, total, elapsed, before.activity);
      } else {
        BurstEnds(writeQueue, egressRate, replies, total, elapsed, before.activity);
      }
      totalWritten, elapsedNs, calls, more := total, elapsed, before, false;
      var actuallySent := WriteFront(reply);
      if actuallySent >= 0 {
        calls := calls.(activity := calls.activity + 1);
        totalWritten, elapsedNs := totalWritten + actuallySent, elapsedNs + reply.ns;
        var currentRate := CurrentRate(totalWritten, elapsedNs);
        if egressRate != 0 && currentRate > egressRate {
          writeTriggered := true;
          blocked := true;
          calls := calls.(egress := Some(EgressDelay(egressRate)));
        } else {
          more := true;
        }
      } else if actuallySent == -1 {
        blocked := true;
      }
    }

    /** Pops the first chunk, writes it and puts back what was not taken; the answer is that of `Socket::write`. */
    method WriteFront(reply: Reply) returns (actuallySent: int)
      requires Valid() && writeQueue != []
      modifies this`writeQueue
      ensures Valid()
      ensures match reply
              case Room(bytes, _) =>
                && actuallySent == Taken(bytes, |old(writeQueue)[0]|)
                && writeQueue == Consume(old(writeQueue), actuallySent)
              case WouldBlock => actuallySent == -1 && writeQueue == old(writeQueue)
              case Failed => actuallySent == -2 && writeQueue == old(writeQueue)[1..]
    {
      var data := writeQueue[0];
      writeQueue := writeQueue[1..];
      match reply
      case Room(bytes, _) =>
        actuallySent := Taken(bytes, |data|);
        if |data| - actuallySent != 0 {
          writeQueue := [data[actuallySent..]] + writeQueue;
        }
      case WouldBlock =>
        actuallySent := -1;
        writeQueue := [data] + writeQueue;
      case Failed =>
        actuallySent := -2;
    }

    method WaitingOutEvent() returns (waiting: bool)
      ensures waiting == WaitingOut(View())
    {
      waiting := (blocked || !once || !connected) && !disconnecting && (!connected || egressRate == 0);
    }

    method AsyncEgress() returns (calls: Calls)
      requires writeTriggered
      ensures calls == NO_CALLS.(trigger := true)
    {
      calls := NO_CALLS.(trigger := true);
    }

    /** Answers whether the engine is asked to forget the stream. */
    method Disconnect() returns (remove: bool)
      requires Valid()
      modifies this
      ensures Valid() && (View(), remove) == AfterDisconnect(old(View()))
    {
      remove := !disconnecting;
      if !disconnecting {
        disconnecting := true;
      }
    }

    method WriteQueueEmpty() returns (empty: bool)
      ensures empty <==> writeQueue == []
    {
      empty := |writeQueue| == 0;
    }
  }
}
