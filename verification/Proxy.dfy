/**
 The remote side of the proxy: bytes that arrive before there is a stream wait in
 `initWrite`; the others go straight to the stream. Composed with the stream
 itself this gives the order of the bytes from the client to the wire.
 */
module Proxy {
  import opened Basics
  import opened Patterns
  import opened TcpStreams
  import S = StreamRuns
  import W = StreamWakeUp

  /** The new `initWrite`, and the chunks given to `queueWrite`. */
  datatype Offer = Offer(initWrite: Bytes, chunks: seq<Bytes>)

  /** `attached` tells whether the weak pointer to the stream can be locked. */
  function DoWriteOffer(initWrite: Bytes, x: Bytes, attached: bool): Offer {
    if !attached then Offer(initWrite + x, [])
    else Offer([], if initWrite != [] then [initWrite, x] else [x])
  }

  function WriteCompleteOffer(initWrite: Bytes, attached: bool): Offer {
    if attached && initWrite != [] then Offer([], [initWrite]) else Offer(initWrite, [])
  }

  function QueueAll(s: Stream, chunks: seq<Bytes>): Stream
    decreases |chunks|
  {
    if chunks == [] then s else QueueAll(AfterQueueWrite(s, chunks[0]).0, chunks[1..])
  }

  lemma QueueTwo(s: Stream, a: Bytes, b: Bytes)
    ensures QueueAll(s, [a]) == AfterQueueWrite(s, a).0
    ensures QueueAll(s, [a, b]) == AfterQueueWrite(AfterQueueWrite(s, a).0, b).0
  {
    var s1 := AfterQueueWrite(s, a).0;
    assert [a][1..] == [] && [a, b][1..] == [b] && [b][1..] == [];
    assert QueueAll(s1, [b]) == QueueAll(AfterQueueWrite(s1, b).0, []);
  }

  // ------------------------------------------------------------ the classes

  class Remote {
    var initWrite: Bytes
    var epDisconnected: bool
    var tcpStream: TcpStream?

    ghost predicate Valid()
      reads this, tcpStream
    {
      tcpStream != null ==> tcpStream.Valid()
    }

    constructor (initWrite: Bytes)
      ensures Valid() && this.initWrite == initWrite && !epDisconnected && tcpStream == null
    {
      this.initWrite, epDisconnected, tcpStream := initWrite, false, null;
    }

    method DoWrite(x: Bytes)
      requires Valid()
      modifies this`initWrite, tcpStream
      ensures Valid() && initWrite == DoWriteOffer(old(initWrite), x, tcpStream != null).initWrite
      ensures tcpStream != null ==>
                tcpStream.View() == QueueAll(old(tcpStream.View()), DoWriteOffer(old(initWrite), x, true).chunks)
    {
      if tcpStream != null {
        QueueTwo(tcpStream.View(), initWrite, x);
        QueueTwo(tcpStream.View(), x, []);
        var calls;
        if |initWrite| > 0 {
          calls := tcpStream.QueueWrite(initWrite);
          initWrite := [];
        }
        calls := tcpStream.QueueWrite(x);
      } else {
        initWrite := initWrite + x;
      }
    }

    /** Answers whether the engine is asked to forget the stream. */
    method WriteComplete() returns (remove: bool)
      requires Valid()
      modifies this`initWrite, tcpStream
      ensures Valid() && initWrite == WriteCompleteOffer(old(initWrite), tcpStream != null).initWrite
      ensures tcpStream != null && old(initWrite) != [] ==>
                !remove && tcpStream.View() == QueueAll(old(tcpStream.View()), [old(initWrite)])
      ensures tcpStream != null && old(initWrite) == [] ==>
                (tcpStream.View(), remove) == if epDisconnected then AfterDisconnect(old(tcpStream.View()))
                                              else (old(tcpStream.View()), false)
      ensures tcpStream == null ==> !remove
    {
      remove := false;
      if tcpStream != null {
        QueueTwo(tcpStream.View(), initWrite, []);
        if |initWrite| > 0 {
          var calls := tcpStream.QueueWrite(initWrite);
          initWrite := [];
        } else if epDisconnected {
          remove := tcpStream.Disconnect();
        }
      }
    }

    /** The client is gone: the stream is closed at once if it has nothing left to write. */
    method Disconnect() returns (remove: bool)
      requires Valid() && !epDisconnected
      modifies this`epDisconnected, tcpStream
      ensures Valid() && epDisconnected
      ensures tcpStream != null ==>
                (tcpStream.View(), remove) == if old(tcpStream.View()).queue == [] then AfterDisconnect(old(tcpStream.View()))
                                              else (old(tcpStream.View()), false)
      ensures tcpStream == null ==> !remove
    {
      epDisconnected, remove := true, false;
      if tcpStream != null {
        var empty := tcpStream.WriteQueueEmpty();
        if empty && epDisconnected {
          remove := tcpStream.Disconnect();
        }
      }
    }
  }

  /** What `received` did with the bytes of the client. */
  datatype Outcome = Forwarded | Kept | Refused | Opened(connect: bool)

  /** The header so far, and whether there is a remote side that still lives. */
  datatype Front = Front(header: Bytes, live: bool)

  function AfterReceived(f: Front, x: Bytes): (Front, Outcome) {
    if f.live then (f, Forwarded)
    else
      match Judge(f.header + x)
      case TooShort => (Front(f.header + x, false), Kept)
      case NoBlankLine => (Front(f.header + x, false), Refused)
      case Open(initial, connect) => (Front(initial, true), Opened(connect))
  }

  /** `ep` is null before there is a remote side, and again once that is destroyed. */
  class HttpProxy {
    var header: Bytes
    var ep: Remote?

    function View(): Front
      reads this
    {
      Front(header, ep != null)
    }

    constructor ()
      ensures View() == Front([], false)
    {
      header, ep := [], null;
    }

    method Received(x: Bytes) returns (outcome: Outcome)
      requires ep != null ==> ep.Valid()
      modifies this, ep, if ep != null then {ep.tcpStream} else {}
      ensures (View(), outcome) == AfterReceived(old(View()), x)
      ensures outcome.Forwarded? ==>
                && ep == old(ep) && ep.Valid() && ep.tcpStream == old(ep.tcpStream)
                && ep.initWrite == DoWriteOffer(old(ep.initWrite), x, ep.tcpStream != null).initWrite
                && (ep.tcpStream != null ==>
                      ep.tcpStream.View() == QueueAll(old(ep.tcpStream.View()), DoWriteOffer(old(ep.initWrite), x, true).chunks))
      ensures outcome.Opened? ==> fresh(ep) && ep.Valid() && ep.initWrite == header && ep.tcpStream == null
    {
      if ep != null {
        ep.DoWrite(x);
        return Forwarded;
      }
      header := header + x;
      if |header| < 4 {
        return Kept;
      }
      var first, second := FindFirstPattern(header, BLANK_LINE);
      FoundIsOccurrence(header, BLANK_LINE);
      if first == second {
        return Refused;
      }
      var connectFirst, connectSecond := FindFirstPattern(header, CONNECT);
      var connect := connectFirst != connectSecond;
      if connect {
        header := header[second + 1..];
      }
      ep := new Remote(header);
      outcome := Opened(connect);
    }
  }

  // ---------------------------------------------------------------- the runs

  /**
   The remote side with its stream, once there is one; `gone` when the stream was
   destroyed. `notes` counts the queued `writeComplete` events, `given` is the
   initial header bytes and all that was written since, `handed` all that was given
   to `queueWrite`.
   */
  datatype Relay = Relay(
    initWrite: Bytes,
    epDisconnected: bool,
    net: Option<S.System>,
    gone: bool,
    notes: nat,
    given: Bytes,
    handed: Bytes)

  datatype Step =
    | Attach(connected: bool)   // TcpStream::create for the outgoing connection
    | Expire
    | DoWrite(x: Bytes)
    | WriteComplete
    | Disconnect
    | Net(step: S.Step)         // any step of the stream but a queueWrite

  function Start(initial: Bytes): Relay {
    Relay(initial, false, None, false, 0, initial, [])
  }

  predicate Attached(r: Relay) {
    r.net.Some? && !r.gone
  }

  predicate ChunksKept(r: Relay) {
    r.net.Some? ==> NonEmptyChunks(r.net.value.s.queue)
  }

  predicate Enabled(r: Relay, step: Step) {
    match step
    case Attach(_) => r.net.None?
    case Expire => Attached(r)
    case DoWrite(_) => true
    case WriteComplete => Attached(r) && r.notes > 0
    case Disconnect => !r.epDisconnected
    case Net(s) => Attached(r) && !s.Queue? && S.Enabled(r.net.value, s)
  }

  function OfferAll(y: S.System, chunks: seq<Bytes>): (z: S.System)
    requires NonEmptyChunks(y.s.queue)
    ensures NonEmptyChunks(z.s.queue) && z.s == QueueAll(y.s, chunks)
    decreases |chunks|
  {
    if chunks == [] then y
    else
      S.ApplyKeepsChunks(y, S.Queue(chunks[0]));
      OfferAll(S.Apply(y, S.Queue(chunks[0])), chunks[1..])
  }

  function Give(r: Relay, offer: Offer, x: Bytes): Relay
    requires ChunksKept(r)
  {
    r.(initWrite := offer.initWrite, given := r.given + x, handed := r.handed + Concat(offer.chunks),
       net := if r.net.Some? then Some(OfferAll(r.net.value, offer.chunks)) else None)
  }

  function Close(r: Relay, when: bool): Relay
    requires ChunksKept(r)
  {
    if Attached(r) && when then r.(net := Some(S.Apply(r.net.value, S.Disconnect))) else r
  }

  /** The step queues a `writeComplete` event. */
  predicate Notifies(y: S.System, s: S.Step)
    requires NonEmptyChunks(y.s.queue)
  {
    (s.Trigger? || s.EpollOut?) && AfterHandleWrite(y.s, s.k).calls.notify
  }

  function Apply(r: Relay, step: Step): Relay
    requires ChunksKept(r) && Enabled(r, step)
  {
    match step
    case Attach(connected) => r.(net := Some(S.Outgoing(connected)))
    case Expire => r.(gone := true)
    case DoWrite(x) => Give(r, DoWriteOffer(r.initWrite, x, Attached(r)), x)
    case WriteComplete =>
      var after := r.(notes := r.notes - 1);
      if r.initWrite != [] then Give(after, WriteCompleteOffer(r.initWrite, Attached(r)), [])
      else Close(after, r.epDisconnected)
    case Disconnect => Close(r.(epDisconnected := true), r.net.Some? && r.net.value.s.queue == [])
    case Net(s) => r.(net := Some(S.Apply(r.net.value, s)), notes := r.notes + if Notifies(r.net.value, s) then 1 else 0)
  }

  lemma ApplyKeepsChunks(r: Relay, step: Step)
    requires ChunksKept(r) && Enabled(r, step)
    ensures ChunksKept(Apply(r, step))
  {
    if step.Net? {
      S.ApplyKeepsChunks(r.net.value, step.step);
    }
  }

  predicate Possible(r: Relay, steps: seq<Step>)
    requires ChunksKept(r)
    decreases |steps|
  {
    steps == [] || (Enabled(r, steps[0]) && (ApplyKeepsChunks(r, steps[0]); Possible(Apply(r, steps[0]), steps[1..])))
  }

  function Run(r: Relay, steps: seq<Step>): (z: Relay)
    requires ChunksKept(r) && Possible(r, steps)
    ensures ChunksKept(z)
    decreases |steps|
  {
    if steps == [] then r
    else
      ApplyKeepsChunks(r, steps[0]);
      Run(Apply(r, steps[0]), steps[1..])
  }

  // ------------------------------------------------------------------ order

  ghost predicate InOrder(r: Relay) {
    && r.handed + r.initWrite == r.given
    && (r.net.None? ==> r.handed == [] && !r.gone)
    && (r.net.Some? ==> S.BytesKept(r.net.value) && W.Free(r.net.value) && r.net.value.offered == r.handed)
  }

  /** Either offer keeps the order: the chunks first, then what still waits. */
  lemma OffersKeepOrder(initWrite: Bytes, x: Bytes, attached: bool)
    ensures var o := DoWriteOffer(initWrite, x, attached); Concat(o.chunks) + o.initWrite == initWrite + x
    ensures var o := WriteCompleteOffer(initWrite, attached); Concat(o.chunks) + o.initWrite == initWrite
    ensures !attached ==> DoWriteOffer(initWrite, x, attached).chunks == []
  {
    assert Concat([x]) == x + Concat([]);
    assert Concat([initWrite]) == initWrite + Concat([]);
    assert [initWrite, x][1..] == [x];
    assert Concat([initWrite, x]) == initWrite + Concat([x]);
  }

  lemma {:induction false} OfferAllKeeps(y: S.System, chunks: seq<Bytes>)
    requires S.BytesKept(y) && W.Free(y)
    ensures var z := OfferAll(y, chunks);
            S.BytesKept(z) && W.Free(z) && z.offered == y.offered + Concat(chunks)
    decreases |chunks|
  {
    if chunks != [] {
      var step := S.Queue(chunks[0]);
      S.StepKeepsBytes(y, step);
      W.QueueKeepsFree(y, chunks[0]);
      OfferAllKeeps(S.Apply(y, step), chunks[1..]);
      Associate(y.offered, chunks[0], Concat(chunks[1..]));
    }
  }

  lemma GiveKeepsOrder(r: Relay, o: Offer, x: Bytes)
    requires InOrder(r) && Concat(o.chunks) + o.initWrite == r.initWrite + x
    requires r.net.None? ==> o.chunks == []
    ensures InOrder(Give(r, o, x))
  {
    Associate(r.handed, Concat(o.chunks), o.initWrite);
    Associate(r.handed, r.initWrite, x);
    if r.net.Some? {
      OfferAllKeeps(r.net.value, o.chunks);
    }
  }

  lemma NetKeepsOrder(r: Relay, s: S.Step)
    requires InOrder(r) && r.net.Some? && !s.Queue? && S.Enabled(r.net.value, s)
    ensures InOrder(r.(net := Some(S.Apply(r.net.value, s))))
  {
    S.StepKeepsBytes(r.net.value, s);
    W.StepKeepsFree(r.net.value, s);
  }

  lemma StepKeepsOrder(r: Relay, step: Step)
    requires InOrder(r) && Enabled(r, step)
    ensures InOrder(Apply(r, step))
    ensures Apply(r, step).given == r.given + if step.DoWrite? then step.x else []
  {
    assert r.given + [] == r.given;
    match step
    case Attach(connected) => assert S.Outgoing(connected).offered == [];
    case Expire =>
    case DoWrite(x) =>
      OffersKeepOrder(r.initWrite, x, Attached(r));
      GiveKeepsOrder(r, DoWriteOffer(r.initWrite, x, Attached(r)), x);
    case WriteComplete =>
      if r.initWrite != [] {
        OffersKeepOrder(r.initWrite, [], true);
        GiveKeepsOrder(r.(notes := r.notes - 1), WriteCompleteOffer(r.initWrite, true), []);
      } else {
        NetKeepsOrder(r.(notes := r.notes - 1), S.Disconnect);
      }
    case Disconnect =>
      if Attached(r) {
        NetKeepsOrder(r.(epDisconnected := true), S.Disconnect);
      }
    case Net(s) => NetKeepsOrder(r, s);
  }

  /** Bytes that still wait although there is a stream: it has yet to report that it can be written to. */
  ghost predicate FlushComing(r: Relay) {
    Attached(r) && r.initWrite != [] ==>
      r.net.value.s.queue == [] && (r.notes > 0 || !r.net.value.s.once || !r.net.value.s.connected)
  }

  /** A stream whose client left: it is closed, has data queued, or has yet to report that it has none. */
  ghost predicate CloseComing(r: Relay) {
    Attached(r) && r.epDisconnected && !r.net.value.s.disconnecting ==>
      r.net.value.s.queue != [] || r.notes > 0 || !r.net.value.s.once || !r.net.value.s.connected
  }

  ghost predicate ReportsComing(r: Relay) {
    FlushComing(r) && CloseComing(r)
  }

  lemma StepKeepsReports(r: Relay, step: Step)
    requires ChunksKept(r) && ReportsComing(r) && Enabled(r, step)
    ensures ReportsComing(Apply(r, step))
  {
    match step
    case DoWrite(x) =>
      if r.net.Some? {
        QueueAllKeepsReports(r.net.value.s, DoWriteOffer(r.initWrite, x, Attached(r)).chunks);
      }
    case WriteComplete => QueueTwo(r.net.value.s, r.initWrite, []);
    case Net(s) => NetKeepsReports(r, s);
    case _ =>
  }

  lemma {:induction false} QueueAllKeepsReports(s: Stream, chunks: seq<Bytes>)
    ensures var z := QueueAll(s, chunks);
            && z.once == s.once && z.connected == s.connected && z.disconnecting == s.disconnecting
            && (s.queue != [] ==> z.queue != [])
    decreases |chunks|
  {
    if chunks != [] {
      QueueAllKeepsReports(AfterQueueWrite(s, chunks[0]).0, chunks[1..]);
    }
  }

  lemma NetKeepsReports(r: Relay, s: S.Step)
    requires ChunksKept(r) && ReportsComing(r) && Enabled(r, Net(s))
    ensures ReportsComing(Apply(r, Net(s)))
  {
    var y := r.net.value;
    if s.Trigger? || s.EpollOut? {
      assert y.s.queue == [] ==> RunBurst(y.s.queue, y.s.rate, s.k.replies, 0, 0, 0).queue == [];
    } else {
      S.QuietStep(y, s);
    }
  }

  /** All bytes given to `doWrite`, in order. */
  function Written(steps: seq<Step>): Bytes {
    if steps == [] then [] else (if steps[0].DoWrite? then steps[0].x else []) + Written(steps[1..])
  }

  lemma {:induction false} RunKeepsOrder(r: Relay, steps: seq<Step>)
    requires InOrder(r) && ReportsComing(r) && Possible(r, steps)
    ensures InOrder(Run(r, steps)) && ReportsComing(Run(r, steps))
    ensures Run(r, steps).given == r.given + Written(steps)
    decreases |steps|
  {
    if steps != [] {
      StepKeepsOrder(r, steps[0]);
      StepKeepsReports(r, steps[0]);
      RunKeepsOrder(Apply(r, steps[0]), steps[1..]);
      Associate(r.given, if steps[0].DoWrite? then steps[0].x else [], Written(steps[1..]));
    } else {
      assert r.given + [] == r.given;
    }
  }

  /**
   End to end: whatever the order of writes, completions, disconnects and steps of
   the stream and the engine, what was handed over and what still waits is the
   initial bytes followed by all that was written; and until a hard error the wire
   carries the beginning of that, the stream's queue comes next and `initWrite`
   last, with a wake-up under way for a queue that is not empty. Bytes that still
   wait once there is a stream have a `writeComplete` or a writable report coming,
   and so has an open stream whose client left, unless it still has data queued.
   */
  lemma EndToEnd(initial: Bytes, steps: seq<Step>)
    requires Possible(Start(initial), steps)
    ensures var z := Run(Start(initial), steps);
            && z.handed + z.initWrite == initial + Written(steps)
            && (z.net.Some? && S.NoHardError(z.net.value.fate) ==>
                  var y := z.net.value;
                  && S.Wire(y.fate) + (Concat(y.s.queue) + z.initWrite) == initial + Written(steps)
                  && S.Wire(y.fate) <= initial + Written(steps)
                  && (y.s.queue != [] && !y.s.disconnecting ==> y.triggers > 0 || WaitingOut(y.s)))
            && (Attached(z) && z.initWrite != [] && !z.net.value.s.disconnecting ==> z.notes > 0 || WaitingOut(z.net.value.s))
            && (Attached(z) && z.epDisconnected && !z.net.value.s.disconnecting ==>
                  z.net.value.s.queue != [] || z.notes > 0 || WaitingOut(z.net.value.s))
  {
    assert [] + initial == initial;
    RunKeepsOrder(Start(initial), steps);
    var z := Run(Start(initial), steps);
    if z.net.Some? && S.NoHardError(z.net.value.fate) {
      var y := z.net.value;
      S.WireComplete(y.fate);
      Associate(S.Wire(y.fate), Concat(y.s.queue), z.initWrite);
    }
  }

  /** The step closes a stream that was open while bytes still wait in its queue or in `initWrite`. */
  predicate CutsOff(r: Relay, step: Step)
    requires ChunksKept(r) && Enabled(r, step)
  {
    var z := Apply(r, step);
    && Attached(r) && !r.net.value.s.disconnecting && z.net.value.s.disconnecting
    && (z.net.value.s.queue != [] || z.initWrite != [])
  }

  /** Which steps cut bytes off. */
  predicate Cuts(r: Relay, step: Step)
    requires Attached(r)
  {
    match step
    case Disconnect => r.net.value.s.queue == [] && r.initWrite != []
    case WriteComplete => r.epDisconnected && r.initWrite == [] && r.net.value.s.queue != []
    case Net(s) => s.Disconnect? && (r.net.value.s.queue != [] || r.initWrite != [])
    case _ => false
  }

  /**
   Closing is not always graceful, and exactly these steps cut bytes off:
   `disconnect` with an empty queue but bytes in `initWrite`, for it only looks at
   the queue; `writeComplete` once the client is gone, with bytes in the queue but
   none in `initWrite`; and a closing by the inactivity timer or a socket error
   with bytes in either.
   */
  lemma CutsOffIff(r: Relay, step: Step)
    requires ChunksKept(r) && Attached(r) && !r.net.value.s.disconnecting && Enabled(r, step)
    ensures CutsOff(r, step) <==> Cuts(r, step)
  {
    match step
    case DoWrite(x) => GiveKeepsOpen(r, DoWriteOffer(r.initWrite, x, true), x);
    case WriteComplete => WriteCompleteCutsOffIff(r);
    case Net(s) => NetCutsOffIff(r, s);
    case _ =>
  }

  lemma GiveKeepsOpen(r: Relay, o: Offer, x: Bytes)
    requires ChunksKept(r) && Attached(r)
    ensures Give(r, o, x).net.Some? && Give(r, o, x).net.value.s.disconnecting == r.net.value.s.disconnecting
  {
    QueueAllKeepsReports(r.net.value.s, o.chunks);
  }

  lemma WriteCompleteCutsOffIff(r: Relay)
    requires ChunksKept(r) && Attached(r) && !r.net.value.s.disconnecting && Enabled(r, WriteComplete)
    ensures CutsOff(r, WriteComplete) <==> Cuts(r, WriteComplete)
  {
    if r.initWrite != [] {
      GiveKeepsOpen(r.(notes := r.notes - 1), WriteCompleteOffer(r.initWrite, true), []);
    }
  }

  lemma NetCutsOffIff(r: Relay, s: S.Step)
    requires ChunksKept(r) && Attached(r) && !r.net.value.s.disconnecting && Enabled(r, Net(s))
    ensures CutsOff(r, Net(s)) <==> Cuts(r, Net(s))
  {
  }

  /** A client that leaves before the connection is made: what it had sent is never written. */
  lemma CutOffRun(initial: Bytes)
    requires initial != []
    ensures Possible(Start(initial), [Attach(false)])
    ensures var r := Run(Start(initial), [Attach(false)]);
            Enabled(r, Disconnect) && CutsOff(r, Disconnect)
  {
    var r := Apply(Start(initial), Attach(false));
    assert [Attach(false)][1..] == [];
    assert Possible(r, []) && Run(r, []) == r;
  }

  // ------------------------------------------------------------- the client

  /** A remote side: the header that made it, its initial bytes and what was forwarded to it. */
  datatype Session = Session(head: Bytes, initial: Bytes, connect: bool, later: seq<Bytes>)

  datatype Client = Client(front: Front, sessions: seq<Session>)

  datatype Arrival = Receive(x: Bytes) | RemoteGone

  const NEW_CLIENT := Client(Front([], false), [])

  predicate HasSession(c: Client) {
    c.front.live ==> c.sessions != []
  }

  function AfterArrival(c: Client, a: Arrival): (z: Client)
    requires HasSession(c)
    ensures HasSession(z)
  {
    match a
    case RemoteGone => c.(front := c.front.(live := false))
    case Receive(x) =>
      var (front, outcome) := AfterReceived(c.front, x);
      match outcome {
        case Forwarded =>
          var n := |c.sessions| - 1;
          c.(sessions := c.sessions[n := c.sessions[n].(later := c.sessions[n].later + [x])])
        case Opened(connect) => Client(front, c.sessions + [Session(c.front.header + x, front.header, connect, [])])
        case _ => c.(front := front)
      }
  }

  function Arrivals(c: Client, arrivals: seq<Arrival>): (z: Client)
    requires HasSession(c)
    ensures HasSession(z)
    decreases |arrivals|
  {
    if arrivals == [] then c else Arrivals(AfterArrival(c, arrivals[0]), arrivals[1..])
  }

  function Received(arrivals: seq<Arrival>): Bytes {
    if arrivals == [] then [] else (if arrivals[0].Receive? then arrivals[0].x else []) + Received(arrivals[1..])
  }

  predicate RemoteStays(arrivals: seq<Arrival>) {
    forall i | 0 <= i < |arrivals| :: arrivals[i].Receive?
  }

  /** The remote side gets all from `from` on: from the start, or for CONNECT from right after a blank line. */
  ghost predicate Covers(t: Session, received: Bytes, from: nat) {
    && t.head <= received && Judge(t.head) == Open(t.initial, t.connect)
    && from <= |received| && t.initial + Concat(t.later) == received[from..]
    && (if t.connect then from >= 4 && Occurs(received, from - 4, BLANK_LINE) else from == 0)
  }

  /** Nothing was opened yet, or one remote side that lives. */
  ghost predicate OneSession(c: Client, received: Bytes) {
    if c.sessions == [] then c.front == Front(received, false)
    else c.front.live && |c.sessions| == 1 && exists from: nat :: Covers(c.sessions[0], received, from)
  }

  lemma CoversMore(t: Session, received: Bytes, from: nat, x: Bytes)
    requires Covers(t, received, from)
    ensures Covers(t.(later := t.later + [x]), received + x, from)
  {
    ConcatAppend(t.later, [x]);
    assert Concat([x]) == x;
    Associate(t.initial, Concat(t.later), x);
    assert (received + x)[from..] == received[from..] + x;
    if t.connect {
      assert Occurs(received + x, from - 4, BLANK_LINE);
    }
  }

  lemma ReceiveKeepsOneSession(c: Client, received: Bytes, x: Bytes)
    requires HasSession(c) && OneSession(c, received)
    ensures OneSession(AfterArrival(c, Receive(x)), received + x)
  {
    var z := AfterArrival(c, Receive(x));
    if c.front.live {
      var from: nat :| Covers(c.sessions[0], received, from);
      CoversMore(c.sessions[0], received, from, x);
      assert Covers(z.sessions[0], received + x, from);
    } else if Judge(received + x).Open? {
      var end, from := HeaderIsHandedOver(received + x);
      var initial := Judge(received + x).initial;
      assert initial + Concat([]) == initial;
      assert Covers(z.sessions[0], received + x, from);
    }
  }

  lemma {:induction false} ArrivalsKeepOneSession(c: Client, received: Bytes, arrivals: seq<Arrival>)
    requires HasSession(c) && OneSession(c, received) && RemoteStays(arrivals)
    ensures OneSession(Arrivals(c, arrivals), received + Received(arrivals))
    decreases |arrivals|
  {
    if arrivals == [] {
      assert received + [] == received;
    } else {
      var x := arrivals[0].x;
      ReceiveKeepsOneSession(c, received, x);
      ArrivalsKeepOneSession(AfterArrival(c, arrivals[0]), received + x, arrivals[1..]);
      Associate(received, x, Received(arrivals[1..]));
    }
  }

  /**
   From the client to the wire: however the client's bytes arrive in pieces, while
   the remote side stays there is at most one, and when it is given what was
   forwarded, in any interleaving with its stream, the wire carries the beginning
   of all the client sent, or of all it sent after a blank line exactly when the
   header that made the remote side asks for CONNECT.
   */
  lemma ClientToWire(arrivals: seq<Arrival>, steps: seq<Step>) returns (from: nat)
    requires RemoteStays(arrivals) && Arrivals(NEW_CLIENT, arrivals).sessions != []
    requires var t := Arrivals(NEW_CLIENT, arrivals).sessions[0];
             Possible(Start(t.initial), steps) && Written(steps) == Concat(t.later)
    ensures |Arrivals(NEW_CLIENT, arrivals).sessions| == 1
    ensures Covers(Arrivals(NEW_CLIENT, arrivals).sessions[0], Received(arrivals), from)
    ensures var t := Arrivals(NEW_CLIENT, arrivals).sessions[0]; t.connect <==> AsksToConnect(t.head)
    ensures var z := Run(Start(Arrivals(NEW_CLIENT, arrivals).sessions[0].initial), steps);
            z.net.Some? && S.NoHardError(z.net.value.fate) ==> S.Wire(z.net.value.fate) <= Received(arrivals)[from..]
  {
    assert [] + Received(arrivals) == Received(arrivals);
    ArrivalsKeepOneSession(NEW_CLIENT, [], arrivals);
    var t := Arrivals(NEW_CLIENT, arrivals).sessions[0];
    from :| Covers(t, Received(arrivals), from);
    ConnectIffAsked(t.head);
    EndToEnd(t.initial, steps);
  }

  /** After a plain request the header is still what was opened, so that it would be opened again. */
  ghost predicate HeaderStays(c: Client) {
    && HasSession(c)
    && (c.sessions != [] && !c.sessions[|c.sessions| - 1].connect && c.front.live ==> Judge(c.front.header) == Open(c.front.header, false))
  }

  lemma {:induction false} ArrivalsKeepHeader(c: Client, arrivals: seq<Arrival>)
    requires HeaderStays(c)
    ensures HeaderStays(Arrivals(c, arrivals))
    decreases |arrivals|
  {
    if arrivals != [] {
      ArrivalsKeepHeader(AfterArrival(c, arrivals[0]), arrivals[1..]);
    }
  }

  /**
   A remote side that is destroyed does not end it: on any run, after a plain
   request the very next bytes open a second remote side, which gets the old
   header again, unless CONNECT is now found in it.
   */
  lemma GoneRemoteRepeatsHeader(arrivals: seq<Arrival>, x: Bytes)
    requires var c := Arrivals(NEW_CLIENT, arrivals);
             c.front.live && !c.sessions[|c.sessions| - 1].connect
    ensures var c := Arrivals(NEW_CLIENT, arrivals);
            var z := AfterArrival(AfterArrival(c, RemoteGone), Receive(x));
            && |z.sessions| == |c.sessions| + 1
            && var t := z.sessions[|c.sessions|];
               !t.connect ==> t.initial == c.front.header + x
  {
    ArrivalsKeepHeader(NEW_CLIENT, arrivals);
    OpensAgain(Arrivals(NEW_CLIENT, arrivals).front.header, x);
  }
}
