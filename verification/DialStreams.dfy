/**
 Dial streams multiplexed over one relay socket at a time. What a caller writes goes out at once,
 or into the stream's queue while the socket's buffer is above the water mark; one timer flushes
 all queues. Streams outlive the socket when the client is stopped and started again. `written` and
 `sent` record what the caller wrote and what DATA frames carried.
 */
module DialStreams {
  type Byte = bv8
  type Chunk = seq<Byte>

  datatype Limits = Limits(queueMax: nat, highWater: nat, frameHeader: nat)

  datatype Stream = Stream(paused: bool, queued: seq<Chunk>, queuedBytes: nat, written: seq<Byte>, sent: seq<Byte>)

  const NEW_STREAM := Stream(false, [], 0, [], [])

  /** A frame sent on a socket that is not open is lost, and such a socket buffers nothing. */
  datatype Socket = NoSocket | Connecting | Ready | Shut

  /** `gone` keeps the history of closed streams, which the client forgets. */
  datatype Mux = Mux(
    streams: map<nat, Stream>,
    gone: seq<Stream>,
    socket: Socket,
    buffered: nat,
    flusher: bool,
    stopped: bool)

  function Flat(chunks: seq<Chunk>): seq<Byte> {
    if chunks == [] then [] else chunks[0] + Flat(chunks[1..])
  }

  lemma {:induction false} FlatAppend(chunks: seq<Chunk>, chunk: Chunk)
    ensures Flat(chunks + [chunk]) == Flat(chunks) + chunk
  {
    if chunks == [] {
      assert chunks + [chunk] == [chunk] && Flat([]) == [];
      assert Flat([chunk]) == chunk + Flat([chunk][1..]);
    } else {
      assert (chunks + [chunk])[1..] == chunks[1..] + [chunk];
      FlatAppend(chunks[1..], chunk);
    }
  }

  predicate OverWater(l: Limits, m: Mux) {
    m.socket == NoSocket || m.buffered > l.highWater
  }

  // ----- the operations

  /** A frame with `chunk`; the result is the stream's and the socket's new state. */
  function SendData(l: Limits, m: Mux, id: nat, st: Stream, chunk: Chunk): Mux {
    if m.socket == Ready
    then m.(streams := m.streams[id := st.(sent := st.sent + chunk)], buffered := m.buffered + |chunk| + l.frameHeader)
    else m.(streams := m.streams[id := st])
  }

  function Drop(m: Mux, id: nat): Mux
    requires id in m.streams
  {
    m.(streams := m.streams - {id}, gone := m.gone + [m.streams[id]])
  }

  /** The stream with one more chunk written and queued. */
  function Enqueued(st: Stream, chunk: Chunk): Stream {
    Stream(true, st.queued + [chunk], st.queuedBytes + |chunk|, st.written + chunk, st.sent)
  }

  /** A caller's write. A queue above the limit drops the stream. */
  function Pump(l: Limits, m: Mux, id: nat, chunk: Chunk): Mux {
    if id !in m.streams then m
    else
      var st := m.streams[id];
      if st.paused || OverWater(l, m) then
        var queued := Enqueued(st, chunk);
        if queued.queuedBytes > l.queueMax then m.(streams := m.streams - {id}, gone := m.gone + [queued])
        else m.(streams := m.streams[id := queued], flusher := m.flusher || !m.stopped)
      else SendData(l, m, id, st.(written := st.written + chunk), chunk)
  }

  /** One stream's turn in a flush: send from the front while the water is low. */
  function Drain(l: Limits, m: Mux, id: nat): Mux
    requires id in m.streams
    decreases |m.streams[id].queued|
  {
    var st := m.streams[id];
    if st.queued == [] then m.(streams := m.streams[id := st.(paused := false)])
    else if OverWater(l, m) then m
    else
      var rest := st.(queued := st.queued[1..],
                      queuedBytes := if st.queuedBytes >= |st.queued[0]| then st.queuedBytes - |st.queued[0]| else 0);
      Drain(l, SendData(l, m, id, rest, st.queued[0]), id)
  }

  function DrainEach(l: Limits, m: Mux, order: seq<nat>): Mux {
    if order == [] then m
    else
      var n := DrainEach(l, m, order[..|order| - 1]);
      var id := order[|order| - 1];
      if id in n.streams && n.streams[id].paused then Drain(l, n, id) else n
  }

  predicate AnyPaused(m: Mux) {
    exists id :: id in m.streams && m.streams[id].paused
  }

  /** The flush timer; `order` is the order in which the stream table is walked. */
  function Tick(l: Limits, m: Mux, order: seq<nat>): Mux {
    if !m.flusher then m
    else if m.stopped || m.socket == NoSocket then m.(flusher := false)
    else
      var n := if OverWater(l, m) then m else DrainEach(l, m, order);
      n.(flusher := AnyPaused(n))
  }

  datatype Event =
    | Open(id: nat)
    | Write(id: nat, chunk: Chunk)
    | FlushTick(order: seq<nat>)
    | Close(id: nat)                 // by the caller's error path, by the relay, or by overflow
    | Sent(bytes: nat)               // the socket's buffer went down
    | Dial(works: bool)              // by a start, a retry, or a change of the network
    | SocketOpens
    | SocketShut                     // the socket stops accepting frames
    | LinkDown(closed: seq<Stream>)  // a close or error event, also a late one of an earlier socket
    | Stop

  /** A stream may be opened in any phase: a late acknowledgement brings the state to `up` without a socket. */
  ghost predicate Enabled(m: Mux, e: Event) {
    match e
    case Open(id) => id !in m.streams
    case FlushTick(order) => forall id :: id in order <==> id in m.streams
    case SocketOpens => m.socket == Connecting
    case SocketShut => m.socket == Connecting || m.socket == Ready
    case LinkDown(closed) => forall st :: st in closed <==> st in m.streams.Values
    case _ => true
  }

  function Next(l: Limits, m: Mux, e: Event): Mux {
    match e
    case Open(id) => m.(streams := m.streams[id := NEW_STREAM])
    case Write(id, chunk) => Pump(l, m, id, chunk)
    case FlushTick(order) => Tick(l, m, order)
    case Close(id) => if id in m.streams then Drop(m, id) else m
    case Sent(bytes) => m.(buffered := if bytes <= m.buffered then m.buffered - bytes else 0)
    case Dial(works) =>
      if works then m.(stopped := false, socket := Connecting, buffered := 0) else m.(stopped := false)
    case SocketOpens => m.(socket := Ready)
    case SocketShut => m.(socket := Shut)
    case LinkDown(closed) =>
      m.(streams := map[], gone := m.gone + closed, socket := NoSocket, buffered := 0, flusher := false)
    case Stop => m.(stopped := true, socket := NoSocket, flusher := false)
  }

  const INITIAL := Mux(map[], [], NoSocket, 0, false, true)

  function Run(l: Limits, events: seq<Event>): Mux {
    if events == [] then INITIAL else Next(l, Run(l, events[..|events| - 1]), events[|events| - 1])
  }

  ghost predicate Possible(l: Limits, events: seq<Event>) {
    forall i :: 0 <= i < |events| ==> Enabled(Run(l, events[..i]), events[i])
  }

  // ----- what every event keeps

  /**
   The counters are exact and the queue is bounded. While the stream is in order, `fifo`, the
   frames carried a prefix of what was written, and on an open socket the queue is all that is missing.
   */
  ghost predicate StreamInv(l: Limits, st: Stream, fifo: bool, ready: bool) {
    && st.queuedBytes == |Flat(st.queued)| <= l.queueMax
    && (st.paused <==> st.queued != [])
    && (fifo ==> st.sent <= st.written)
    && (fifo && ready ==> st.written == st.sent + Flat(st.queued))
  }

  ghost predicate Inv(l: Limits, m: Mux, fifo: bool) {
    && (forall id :: id in m.streams ==> StreamInv(l, m.streams[id], fifo, m.socket == Ready))
    && (fifo ==> forall st :: st in m.gone ==> st.sent <= st.written)
    && (fifo && m.socket == Ready && AnyPaused(m) ==> m.flusher)
    && (m.socket == Connecting ==> m.buffered == 0)
    && (m.stopped ==> m.socket == NoSocket)
  }

  lemma EnqueueKeeps(l: Limits, st: Stream, chunk: Chunk, fifo: bool, ready: bool)
    requires StreamInv(l, st, fifo, ready)
    ensures fifo ==> Enqueued(st, chunk).sent <= Enqueued(st, chunk).written
    ensures Enqueued(st, chunk).queuedBytes <= l.queueMax ==> StreamInv(l, Enqueued(st, chunk), fifo, ready)
  {
    FlatAppend(st.queued, chunk);
    assert st.sent + Flat(st.queued) + chunk == st.sent + (Flat(st.queued) + chunk);
  }

  lemma DirectKeeps(l: Limits, st: Stream, chunk: Chunk, fifo: bool, ready: bool)
    requires StreamInv(l, st, fifo, ready) && !st.paused
    ensures ready ==> StreamInv(l, st.(written := st.written + chunk, sent := st.sent + chunk), fifo, ready)
    ensures !ready ==> StreamInv(l, st.(written := st.written + chunk), fifo, ready)
  {
    assert Flat(st.queued) == [];
  }

  /** Writing keeps the invariant: the chunk goes out, is queued, is lost on a socket not open, or ends the stream. */
  lemma PumpKeepsInv(l: Limits, m: Mux, id: nat, chunk: Chunk, fifo: bool)
    requires Inv(l, m, fifo)
    ensures Inv(l, Pump(l, m, id, chunk), fifo)
  {
    if id in m.streams {
      var st := m.streams[id];
      var n := Pump(l, m, id, chunk);
      EnqueueKeeps(l, st, chunk, fifo, m.socket == Ready);
      if st.paused || OverWater(l, m) {
        assert id in n.streams ==> n.streams[id] == Enqueued(st, chunk);
        assert forall x :: x in n.gone ==> x in m.gone || x == Enqueued(st, chunk);
      } else {
        DirectKeeps(l, st, chunk, fifo, m.socket == Ready);
      }
    }
  }

  /** One turn of the flush loop on the stream it works on. */
  lemma ShiftKeeps(l: Limits, st: Stream, fifo: bool, ready: bool)
    requires StreamInv(l, st, fifo, ready) && st.queued != []
    ensures var rest := st.(queued := st.queued[1..], queuedBytes := st.queuedBytes - |st.queued[0]|);
            && st.queuedBytes >= |st.queued[0]|
            && (ready ==> StreamInv(l, rest.(sent := st.sent + st.queued[0], paused := rest.queued != []), fifo, ready))
            && (!ready ==> StreamInv(l, rest.(paused := rest.queued != []), fifo, ready))
  {
    assert Flat(st.queued) == st.queued[0] + Flat(st.queued[1..]);
    assert st.sent + Flat(st.queued) == (st.sent + st.queued[0]) + Flat(st.queued[1..]);
  }

  lemma {:induction false} DrainKeeps(l: Limits, m: Mux, id: nat, fifo: bool)
    requires id in m.streams && m.socket != NoSocket
    requires StreamInv(l, m.streams[id].(paused := m.streams[id].queued != []), fifo, m.socket == Ready)
    requires m.streams[id].paused
    ensures var n := Drain(l, m, id);
            && n == m.(streams := n.streams, buffered := n.buffered)
            && n.streams.Keys == m.streams.Keys
            && (forall other :: other in m.streams && other != id ==> n.streams[other] == m.streams[other])
            && StreamInv(l, n.streams[id], fifo, m.socket == Ready)
            && (n.streams[id].paused ==> n.buffered > l.highWater)
            && n.buffered >= m.buffered
            && (m.socket != Ready ==> n.buffered == m.buffered)
    decreases |m.streams[id].queued|
  {
    var st := m.streams[id];
    if st.queued != [] && !OverWater(l, m) {
      ShiftKeeps(l, st, fifo, m.socket == Ready);
      var rest := st.(queued := st.queued[1..], queuedBytes := st.queuedBytes - |st.queued[0]|);
      var n := SendData(l, m, id, rest, st.queued[0]);
      assert n.streams[id] == if m.socket == Ready then rest.(sent := st.sent + st.queued[0]) else rest;
      DrainKeeps(l, n, id, fifo);
    }
  }

  lemma {:induction false} DrainEachKeeps(l: Limits, m: Mux, order: seq<nat>, fifo: bool)
    requires m.socket != NoSocket && forall id :: id in m.streams ==>
             StreamInv(l, m.streams[id], fifo, m.socket == Ready)
    ensures var n := DrainEach(l, m, order);
            && n == m.(streams := n.streams, buffered := n.buffered)
            && n.streams.Keys == m.streams.Keys
            && (forall id :: id in n.streams ==> StreamInv(l, n.streams[id], fifo, m.socket == Ready))
            && (forall id :: id in order && id in n.streams && n.streams[id].paused ==> n.buffered > l.highWater)
            && n.buffered >= m.buffered
            && (m.socket != Ready ==> n.buffered == m.buffered)
  {
    if order != [] {
      var init, id := order[..|order| - 1], order[|order| - 1];
      DrainEachKeeps(l, m, init, fifo);
      var n := DrainEach(l, m, init);
      if id in n.streams && n.streams[id].paused {
        DrainKeeps(l, n, id, fifo);
      }
      forall x | x in order ensures x in init || x == id {}
    }
  }

  lemma NextKeepsInv(l: Limits, m: Mux, e: Event, fifo: bool)
    requires Inv(l, m, fifo) && Enabled(m, e) && (fifo && e.SocketOpens? ==> m.streams == map[])
    ensures Inv(l, Next(l, m, e), fifo)
  {
    match e
    case Write(id, chunk) => PumpKeepsInv(l, m, id, chunk, fifo);
    case FlushTick(order) => if m.socket != NoSocket { DrainEachKeeps(l, m, order, fifo); }
    case _ =>
  }

  lemma PrefixPossible(l: Limits, events: seq<Event>)
    requires Possible(l, events) && events != []
    ensures Possible(l, events[..|events| - 1])
  {
    var init := events[..|events| - 1];
    forall i | 0 <= i < |init|
      ensures Enabled(Run(l, init[..i]), init[i])
    {
      assert init[..i] == events[..i];
    }
  }

  /**
   In every run, sockets replaced or not: on an open stream the byte counter is exact and within
   the limit, and the stream is paused exactly while its queue is not empty.
   */
  lemma {:induction false} QueuesAreCounted(l: Limits, events: seq<Event>)
    requires Possible(l, events)
    ensures Inv(l, Run(l, events), false)
  {
    if events != [] {
      PrefixPossible(l, events);
      QueuesAreCounted(l, events[..|events| - 1]);
      NextKeepsInv(l, Run(l, events[..|events| - 1]), events[|events| - 1], false);
    }
  }

  /** No socket opens while a stream is there. */
  ghost predicate OpensClean(l: Limits, events: seq<Event>) {
    forall i :: 0 <= i < |events| && events[i].SocketOpens? ==> Run(l, events[..i]).streams == map[]
  }

  lemma PrefixClean(l: Limits, events: seq<Event>)
    requires OpensClean(l, events) && events != []
    ensures OpensClean(l, events[..|events| - 1])
  {
    var init := events[..|events| - 1];
    forall i | 0 <= i < |init| && init[i].SocketOpens?
      ensures Run(l, init[..i]).streams == map[]
    {
      assert init[..i] == events[..i];
    }
  }

  /**
   As long as no socket opens while a stream is there: on every stream ever opened the DATA frames
   carry in order a prefix of what the caller wrote, while the socket is open the queue is
   exactly what is still to be sent, and then a paused stream has the flush timer running.
   */
  lemma {:induction false} StreamsAreFifo(l: Limits, events: seq<Event>)
    requires Possible(l, events) && OpensClean(l, events)
    ensures Inv(l, Run(l, events), true)
  {
    if events != [] {
      PrefixPossible(l, events);
      PrefixClean(l, events);
      StreamsAreFifo(l, events[..|events| - 1]);
      NextKeepsInv(l, Run(l, events[..|events| - 1]), events[|events| - 1], true);
    }
  }

  /**
   A flush makes all the progress there is: afterwards either every queue is empty, and the
   timer stops, or the socket is above the water mark again, and the timer goes on.
   */
  lemma {:induction false} FlushProgress(l: Limits, events: seq<Event>, order: seq<nat>)
    requires Possible(l, events)
    requires var m := Run(l, events);
             m.flusher && !m.stopped && !OverWater(l, m) && Enabled(m, FlushTick(order))
    ensures var m := Run(l, events); var n := Tick(l, m, order);
            && n.streams.Keys == m.streams.Keys
            && (n.buffered <= l.highWater ==>
                  !n.flusher && forall id :: id in n.streams ==> n.streams[id].queued == [])
            && (OpensClean(l, events) && m.socket == Ready && n.buffered <= l.highWater ==>
                  forall id :: id in n.streams ==> n.streams[id].sent == n.streams[id].written)
            && (n.flusher ==> n.buffered > l.highWater)
  {
    var clean := OpensClean(l, events);
    if clean {
      StreamsAreFifo(l, events);
    } else {
      QueuesAreCounted(l, events);
    }
    var m := Run(l, events);
    DrainEachKeeps(l, m, order, clean);
    var n := Tick(l, m, order);
    forall id | id in n.streams
      ensures n.streams[id].paused ==> n.buffered > l.highWater
      ensures clean && m.socket == Ready && n.streams[id].queued == [] ==> n.streams[id].sent == n.streams[id].written
    {
      assert id in order && StreamInv(l, n.streams[id], clean, m.socket == Ready);
    }
  }

  // ----- what a write, a flush and everything else do to a stream

  /** A chunk cannot go out at once: others wait before it, or there is no socket, or its buffer is too full. */
  predicate HasToWait(l: Limits, m: Mux, id: nat)
    requires id in m.streams
  {
    m.streams[id].queued != [] || m.socket == NoSocket || m.buffered > l.highWater
  }

  /** The write finds no room: it has to wait, and the queue would hold more than the limit with it. */
  predicate Overflows(l: Limits, m: Mux, id: nat, chunk: Chunk) {
    id in m.streams && HasToWait(l, m, id) && |Flat(m.streams[id].queued)| + |chunk| > l.queueMax
  }

  /**
   After every run a write ends its stream exactly if it overflows. Otherwise the chunk is added to
   what was written and either waits at the end of the queue, with the flush timer running, or goes
   out at once on an open socket; no other stream changes.
   */
  lemma WriteExactly(l: Limits, events: seq<Event>, id: nat, chunk: Chunk)
    requires Possible(l, events) && id in Run(l, events).streams
    ensures var m := Run(l, events); var n := Next(l, m, Write(id, chunk));
            && (forall other :: other != id ==>
                  (other in n.streams <==> other in m.streams) &&
                    (other in n.streams ==> n.streams[other] == m.streams[other]))
            && (id in n.streams <==> !Overflows(l, m, id, chunk))
            && (id in n.streams ==> WrittenAs(l, m, n, id, chunk))
            && n.socket == m.socket && n.stopped == m.stopped
  {
    QueuesAreCounted(l, events);
    var m := Run(l, events);
    FlatAppend(m.streams[id].queued, chunk);
    if !HasToWait(l, m, id) { assert Flat(m.streams[id].queued) == []; }
  }

  predicate WrittenAs(l: Limits, m: Mux, n: Mux, id: nat, chunk: Chunk)
    requires id in m.streams && id in n.streams
  {
    var st, now := m.streams[id], n.streams[id];
    && now.written == st.written + chunk
    && (if HasToWait(l, m, id)
        then now.queued == st.queued + [chunk] && now.sent == st.sent && n.buffered == m.buffered
             && (n.flusher <==> m.flusher || !m.stopped)
        else && now.queued == [] && n.flusher == m.flusher
             && now.sent == st.sent + (if m.socket == Ready then chunk else [])
             && n.buffered == m.buffered + if m.socket == Ready then |chunk| + l.frameHeader else 0)
  }

  /** A stream goes by being closed, with its link, or by a write that overflows, and by nothing else. */
  lemma LeavesExactlyBy(l: Limits, events: seq<Event>, e: Event, id: nat)
    requires Possible(l, events) && Enabled(Run(l, events), e) && id in Run(l, events).streams
    ensures id !in Next(l, Run(l, events), e).streams
            <==> e == Close(id) || e.LinkDown? || (e.Write? && e.id == id && Overflows(l, Run(l, events), id, e.chunk))
  {
    match e
    case Write(other, chunk) =>
      if other in Run(l, events).streams { WriteExactly(l, events, other, chunk); }
    case FlushTick(order) => DrainEachSame(l, Run(l, events), order);
    case _ =>
  }

  /** A stream that goes is remembered with everything written to it and sent for it. */
  lemma GoneIsRemembered(l: Limits, events: seq<Event>, e: Event, id: nat)
    requires Possible(l, events) && Enabled(Run(l, events), e) && id in Run(l, events).streams
    requires id !in Next(l, Run(l, events), e).streams
    ensures var m := Run(l, events);
            exists st :: st in Next(l, m, e).gone && st.sent == m.streams[id].sent
                         && st.written == m.streams[id].written + if e.Write? then e.chunk else []
  {
    var m := Run(l, events);
    LeavesExactlyBy(l, events, e, id);
    var st := m.streams[id].(written := m.streams[id].written + if e.Write? then e.chunk else []);
    if e.Write? {
      assert Enqueued(m.streams[id], e.chunk) in Next(l, m, e).gone;
    } else {
      assert m.streams[id] in m.streams.Values && st == m.streams[id] && st in Next(l, m, e).gone;
    }
  }

  /**
   The flush timer starts with a write that has to wait, unless the client is stopped, and runs until
   a tick finds nothing paused or no socket, the link goes down, or the client stops.
   */
  lemma TimerExactly(l: Limits, events: seq<Event>, e: Event)
    requires Possible(l, events) && Enabled(Run(l, events), e)
    ensures var m := Run(l, events); var n := Next(l, m, e);
            n.flusher <==>
            || (m.flusher && !e.LinkDown? && !e.Stop? && !e.FlushTick?)
            || (e.Write? && e.id in n.streams && HasToWait(l, m, e.id) && !m.stopped)
            || (e.FlushTick? && m.flusher && !m.stopped && m.socket != NoSocket && AnyPaused(n))
  {
    var m := Run(l, events);
    if e.Write? && e.id in m.streams {
      QueuesAreCounted(l, events);
    }
  }

  /** What happens to the socket and its buffer when the client neither writes nor flushes. */
  lemma SocketExactly(l: Limits, events: seq<Event>, e: Event)
    requires Possible(l, events) && Enabled(Run(l, events), e) && !e.Write? && !e.FlushTick?
    ensures var m := Run(l, events); var n := Next(l, m, e);
            && n.socket == (if e == Dial(true) then Connecting else if e.SocketOpens? then Ready
                            else if e.SocketShut? then Shut else if e.LinkDown? || e.Stop? then NoSocket else m.socket)
            && n.buffered == (if e == Dial(true) || e.LinkDown? then 0
                              else if e.Sent? then (if e.bytes < m.buffered then m.buffered - e.bytes else 0)
                              else m.buffered)
            && (n.stopped <==> e.Stop? || (m.stopped && !e.Dial?))
  {}

  predicate Undialled(m: Mux) {
    m.stopped && m.socket == NoSocket && m.buffered == 0 && !m.flusher
  }

  lemma StaysUndialled(l: Limits, m: Mux, e: Event)
    requires Undialled(m) && Enabled(m, e) && !e.Dial?
    ensures Undialled(Next(l, m, e))
  {}

  /** Before the first dial there is no socket and nothing in its buffer, and no timer runs. */
  lemma {:induction false} NothingBeforeDial(l: Limits, events: seq<Event>)
    requires Possible(l, events) && forall e :: e in events ==> !e.Dial?
    ensures Undialled(Run(l, events))
  {
    if events != [] {
      var init, last := events[..|events| - 1], events[|events| - 1];
      assert events == init + [last] && last in events;
      PrefixPossible(l, events);
      NothingBeforeDial(l, init);
      assert events[..|init|] == init;
      StaysUndialled(l, Run(l, init), last);
    }
  }

  /** What callers wrote to the stream since it was opened last. */
  function Wrote(events: seq<Event>, id: nat): seq<Byte> {
    if events == [] then []
    else
      var init, last := events[..|events| - 1], events[|events| - 1];
      if last == Open(id) then []
      else Wrote(init, id) + if last.Write? && last.id == id then last.chunk else []
  }

  /** In every run an open stream has got everything written to it: nothing is dropped and the stream kept. */
  lemma {:induction false} NothingIsForgotten(l: Limits, events: seq<Event>, id: nat)
    requires Possible(l, events) && id in Run(l, events).streams
    ensures Run(l, events).streams[id].written == Wrote(events, id)
  {
    if events != [] {
      var init, last := events[..|events| - 1], events[|events| - 1];
      PrefixPossible(l, events);
      if last != Open(id) {
        WrittenStep(l, init, last, id);
        NothingIsForgotten(l, init, id);
      }
    }
  }

  lemma WrittenStep(l: Limits, events: seq<Event>, e: Event, id: nat)
    requires Possible(l, events) && e != Open(id) && id in Next(l, Run(l, events), e).streams
    ensures var m := Run(l, events);
            && id in m.streams
            && Next(l, m, e).streams[id].written == m.streams[id].written + if e.Write? &&
               e.id == id then e.chunk else []
  {
    var m := Run(l, events);
    match e
    case Write(other, chunk) => if other in m.streams { WriteExactly(l, events, other, chunk); }
    case FlushTick(order) =>
      DrainEachSame(l, m, order);
      DrainEachWrites(l, m, order);
    case _ =>
  }

  lemma {:induction false} DrainEachWrites(l: Limits, m: Mux, order: seq<nat>)
    ensures var n := DrainEach(l, m, order);
            n.streams.Keys == m.streams.Keys && forall id :: id in n.streams ==>
              n.streams[id].written == m.streams[id].written
  {
    if order != [] {
      var init, id := order[..|order| - 1], order[|order| - 1];
      DrainEachWrites(l, m, init);
      var n := DrainEach(l, m, init);
      if id in n.streams && n.streams[id].paused {
        var k := DrainExactly(l, n, id, Drain(l, n, id));
        forall other | other in n.streams && other != id ensures Drain(l, n, id).streams[other] == n.streams[other] {
          DrainIsLocal(l, n, id, other);
        }
      }
    }
  }

  /** The bytes of the frames that carry these chunks. */
  function FrameBytes(l: Limits, chunks: seq<Chunk>): nat {
    |Flat(chunks)| + |chunks| * l.frameHeader
  }

  /** How far the buffer fills when the first `j` chunks of the queue go out. */
  function FilledBy(l: Limits, m: Mux, queued: seq<Chunk>, j: nat): nat
    requires j <= |queued|
  {
    m.buffered + if m.socket == Ready then FrameBytes(l, queued[..j]) else 0
  }

  /** The first `k` chunks went out: each while the buffer was not above the mark, and no more than that allows. */
  ghost predicate DrainedBy(l: Limits, m: Mux, n: Mux, id: nat, k: nat)
    requires id in m.streams && id in n.streams
  {
    var st, now := m.streams[id], n.streams[id];
    && k <= |st.queued| && now.queued == st.queued[k..] && now.written == st.written
    && now.sent == st.sent + (if m.socket == Ready then Flat(st.queued[..k]) else [])
    && n.buffered == FilledBy(l, m, st.queued, k)
    && now.paused == (st.paused && k < |st.queued|)
    && (forall j :: 0 <= j < k ==> m.socket != NoSocket && FilledBy(l, m, st.queued, j) <= l.highWater)
    && (k == |st.queued| || m.socket == NoSocket || n.buffered > l.highWater)
  }

  /**
   A flush takes chunks from the front of the queue as long as the buffer is not above the mark, and
   no longer: the frames carry exactly those, in order, and the stream resumes when none is left.
   */
  lemma {:induction false} DrainExactly(l: Limits, m: Mux, id: nat, end: Mux) returns (k: nat)
    requires id in m.streams && end == Drain(l, m, id)
    ensures end.streams.Keys == m.streams.Keys && DrainedBy(l, m, end, id, k)
    decreases |m.streams[id].queued|
  {
    var st := m.streams[id];
    DrainSame(l, m, id);
    if st.queued == [] || OverWater(l, m) {
      k := 0;
      DrainsNothing(l, m, id);
    } else {
      var rest := st.(queued := st.queued[1..],
                      queuedBytes := if st.queuedBytes >= |st.queued[0]| then st.queuedBytes - |st.queued[0]| else 0);
      var n := SendData(l, m, id, rest, st.queued[0]);
      var later := DrainExactly(l, n, id, end);
      k := later + 1;
      DrainsOneMore(l, m, n, end, id, later);
    }
  }

  /** And leaves the other streams alone. */
  lemma {:induction false} DrainIsLocal(l: Limits, m: Mux, id: nat, other: nat)
    requires id in m.streams && other in m.streams && other != id
    ensures other in Drain(l, m, id).streams && Drain(l, m, id).streams[other] == m.streams[other]
    decreases |m.streams[id].queued|
  {
    var st := m.streams[id];
    if st.queued != [] && !OverWater(l, m) {
      var rest := st.(queued := st.queued[1..],
                      queuedBytes := if st.queuedBytes >= |st.queued[0]| then st.queuedBytes - |st.queued[0]| else 0);
      DrainIsLocal(l, SendData(l, m, id, rest, st.queued[0]), id, other);
    }
  }

  lemma DrainsNothing(l: Limits, m: Mux, id: nat)
    requires id in m.streams && (m.streams[id].queued == [] || OverWater(l, m))
    ensures id in Drain(l, m, id).streams && DrainedBy(l, m, Drain(l, m, id), id, 0)
  {
    var queued := m.streams[id].queued;
    assert queued[..0] == [] && queued[0..] == queued && Flat([]) == [];
  }

  lemma DrainsOneMore(l: Limits, m: Mux, n: Mux, end: Mux, id: nat, later: nat)
    requires id in m.streams && m.streams[id].queued != [] && !OverWater(l, m)
    requires n.socket == m.socket && id in n.streams && id in end.streams && DrainedBy(l, n, end, id, later)
    requires var st := m.streams[id];
             && n.streams[id].queued == st.queued[1..] && n.streams[id].written == st.written
             && n.streams[id].paused == st.paused
             && n.streams[id].sent == st.sent + (if m.socket == Ready then st.queued[0] else [])
             && n.buffered == m.buffered + if m.socket == Ready then |st.queued[0]| + l.frameHeader else 0
    ensures DrainedBy(l, m, end, id, later + 1)
  {
    var queued := m.streams[id].queued;
    TakesOneMore(queued, later);
    FillsOneMore(l, m, n, queued, later);
    FlatSplit([queued[0]], queued[1..][..later]);
    assert Flat([queued[0]]) == queued[0];
    forall j | 0 <= j < later + 1
      ensures m.socket != NoSocket && FilledBy(l, m, queued, j) <= l.highWater
    {
      if j == 0 {
        assert queued[..0] == [] && FilledBy(l, m, queued, 0) == m.buffered;
      } else {
        assert FilledBy(l, n, queued[1..], j - 1) <= l.highWater;
        FillsOneMore(l, m, n, queued, j - 1);
      }
    }
  }

  lemma TakesOneMore(queued: seq<Chunk>, j: nat)
    requires queued != [] && j < |queued|
    ensures queued[..j + 1] == [queued[0]] + queued[1..][..j]
    ensures queued[1..][j..] == queued[j + 1..]
  {}

  lemma FillsOneMore(l: Limits, m: Mux, n: Mux, queued: seq<Chunk>, j: nat)
    requires queued != [] && j < |queued| && n.socket == m.socket
    requires n.buffered == m.buffered + if m.socket == Ready then |queued[0]| + l.frameHeader else 0
    ensures FilledBy(l, m, queued, j + 1) == FilledBy(l, n, queued[1..], j)
  {
    TakesOneMore(queued, j);
    FlatSplit([queued[0]], queued[1..][..j]);
    assert Flat([queued[0]]) == queued[0];
    assert (j + 1) * l.frameHeader == j * l.frameHeader + l.frameHeader;
  }

  lemma {:induction false} FlatSplit(a: seq<Chunk>, b: seq<Chunk>)
    ensures Flat(a + b) == Flat(a) + Flat(b)
  {
    if a == [] {
      assert a + b == b;
    } else {
      assert (a + b)[1..] == a[1..] + b;
      FlatSplit(a[1..], b);
    }
  }

  // ----- where the order is lost

  /** A stream is there while a socket is connecting: frames are lost and later ones may go out. */
  ghost predicate Exposed(m: Mux) {
    m.socket == Connecting && m.streams != map[]
  }

  /**
   That comes from replacing the socket while a stream is open, or from opening a stream before its
   socket, and from nothing else.
   */
  lemma ExposedExactlyBy(l: Limits, m: Mux, e: Event)
    requires Enabled(m, e) && !Exposed(m)
    ensures Exposed(Next(l, m, e)) <==> (e == Dial(true) && m.streams != map[]) || (e.Open? && m.socket == Connecting)
  {
    match e
    case Open(id) => assert id in Next(l, m, e).streams;
    case FlushTick(order) => DrainEachSame(l, m, order);
    case _ =>
  }

  lemma {:induction false} DrainEachSame(l: Limits, m: Mux, order: seq<nat>)
    ensures var n := DrainEach(l, m, order); n.streams.Keys == m.streams.Keys && n.socket == m.socket
  {
    if order != [] {
      var init, id := order[..|order| - 1], order[|order| - 1];
      DrainEachSame(l, m, init);
      var n := DrainEach(l, m, init);
      if id in n.streams && n.streams[id].paused {
        DrainSame(l, n, id);
      }
    }
  }

  lemma {:induction false} DrainSame(l: Limits, m: Mux, id: nat)
    requires id in m.streams
    ensures var n := Drain(l, m, id); n.streams.Keys == m.streams.Keys && n.socket == m.socket
    decreases |m.streams[id].queued|
  {
    var st := m.streams[id];
    if st.queued != [] && !OverWater(l, m) {
      var rest := st.(queued := st.queued[1..],
                      queuedBytes := if st.queuedBytes >= |st.queued[0]| then st.queuedBytes - |st.queued[0]| else 0);
      DrainSame(l, SendData(l, m, id, rest, st.queued[0]), id);
    }
  }

  /** Some stream's frames carried something else than what was written. */
  ghost predicate Broken(m: Mux) {
    || (exists id :: id in m.streams && !(m.streams[id].sent <= m.streams[id].written))
    || exists st :: st in m.gone && !(st.sent <= st.written)
  }

  /** Neither a new socket nor a new stream. */
  ghost predicate Quiet(events: seq<Event>) {
    forall i :: 0 <= i < |events| ==> !events[i].Dial? && !events[i].Open?
  }

  function RunFrom(l: Limits, m: Mux, events: seq<Event>): Mux {
    if events == [] then m else Next(l, RunFrom(l, m, events[..|events| - 1]), events[|events| - 1])
  }

  ghost predicate PossibleFrom(l: Limits, m: Mux, events: seq<Event>) {
    forall i :: 0 <= i < |events| ==> Enabled(RunFrom(l, m, events[..i]), events[i])
  }

  /** What may follow without a new socket or stream. */
  ghost predicate MayFollow(l: Limits, m: Mux, events: seq<Event>) {
    PossibleFrom(l, m, events) && Quiet(events)
  }

  lemma {:induction false} QuietStaysWhole(l: Limits, m: Mux, more: seq<Event>)
    requires Inv(l, m, true) && !Exposed(m) && MayFollow(l, m, more)
    ensures Inv(l, RunFrom(l, m, more), true) && !Exposed(RunFrom(l, m, more))
  {
    if more != [] {
      var init, e := more[..|more| - 1], more[|more| - 1];
      forall i | 0 <= i < |init| ensures Enabled(RunFrom(l, m, init[..i]), init[i]) {
        assert init[..i] == more[..i];
      }
      QuietStaysWhole(l, m, init);
      ExposedExactlyBy(l, RunFrom(l, m, init), e);
      NextKeepsInv(l, RunFrom(l, m, init), e, true);
    }
  }

  lemma FromSnoc(l: Limits, m: Mux, more: seq<Event>, e: Event)
    requires MayFollow(l, m, more) && Enabled(RunFrom(l, m, more), e) && !e.Dial? && !e.Open?
    ensures MayFollow(l, m, more + [e]) && RunFrom(l, m, more + [e]) == Next(l, RunFrom(l, m, more), e)
  {
    var all := more + [e];
    assert all[..|all| - 1] == more;
    forall i | 0 <= i < |all| ensures Enabled(RunFrom(l, m, all[..i]), all[i]) {
      assert all[..i] == more[..i];
    }
  }

  lemma {:induction false} Enumerate(ids: set<nat>) returns (order: seq<nat>)
    ensures forall id :: id in order <==> id in ids
    decreases |ids|
  {
    if ids == {} {
      order := [];
    } else {
      var id :| id in ids;
      var rest := Enumerate(ids - {id});
      order := rest + [id];
    }
  }

  /** On a connecting socket a write and a flush leave the stream with nothing queued. */
  lemma EmptiesQueue(l: Limits, m: Mux, id: nat) returns (more: seq<Event>)
    requires Inv(l, m, true) && m.socket == Connecting && id in m.streams
    ensures MayFollow(l, m, more)
    ensures var n := RunFrom(l, m, more);
            Inv(l, n, true) && n.socket == Connecting && id in n.streams && !n.streams[id].paused
  {
    PumpKeepsInv(l, m, id, [], true);
    FromSnoc(l, m, [], Write(id, []));
    var n := Next(l, m, Write(id, []));
    assert id in n.streams && (n.streams[id].paused ==> n.flusher);
    var order := Enumerate(n.streams.Keys);
    NextKeepsInv(l, n, FlushTick(order), true);
    DrainEachKeeps(l, n, order, true);
    more := [Write(id, [])] + [FlushTick(order)];
    assert [] + [Write(id, [])] == [Write(id, [])];
    FromSnoc(l, m, [Write(id, [])], FlushTick(order));
  }

  /** A byte written on a connecting socket is lost. */
  lemma ByteIsLost(l: Limits, m: Mux, id: nat)
    requires m.socket == Connecting && m.buffered == 0 && id in m.streams && !m.streams[id].paused
    ensures var n := Next(l, Next(l, m, Write(id, [0])), SocketOpens);
            n == m.(socket := Ready, streams := m.streams[id := m.streams[id].(written := m.streams[id].written + [0])])
  {}

  /** The next one goes out in its place: a byte that differs from what was written there breaks the order. */
  lemma ByteBreaks(l: Limits, m: Mux, id: nat) returns (other: Byte)
    requires m.socket == Ready && m.buffered == 0 && id in m.streams && !m.streams[id].paused
    requires |m.streams[id].sent| < |m.streams[id].written|
    ensures Broken(Next(l, m, Write(id, [other])))
  {
    var st := m.streams[id];
    other := if st.written[|st.sent|] == 0 then 1 else 0;
    var last := Next(l, m, Write(id, [other])).streams[id];
    assert last.sent[|st.sent|] != last.written[|st.sent|];
  }

  lemma LosesAByte(l: Limits, m: Mux, id: nat, more: seq<Event>) returns (all: seq<Event>)
    requires MayFollow(l, m, more)
    requires var n := RunFrom(l, m, more);
             Inv(l, n, true) && n.socket == Connecting && id in n.streams && !n.streams[id].paused
    ensures MayFollow(l, m, all) && Broken(RunFrom(l, m, all))
  {
    var n := RunFrom(l, m, more);
    ByteIsLost(l, n, id);
    FromSnoc(l, m, more, Write(id, [0]));
    FromSnoc(l, m, more + [Write(id, [0])], SocketOpens);
    all := more + [Write(id, [0])] + [SocketOpens];
    var other := ByteBreaks(l, RunFrom(l, m, all), id);
    FromSnoc(l, m, all, Write(id, [other]));
    all := all + [Write(id, [other])];
  }

  /**
   The order of the streams is in danger exactly when a socket is connecting while a stream is
   there: then, and only then, what follows without a further socket or stream can break it.
   */
  lemma FifoExactly(l: Limits, events: seq<Event>)
    requires Possible(l, events) && OpensClean(l, events)
    ensures Exposed(Run(l, events))
            <==> exists more :: MayFollow(l, Run(l, events), more) && Broken(RunFrom(l, Run(l, events), more))
  {
    var m := Run(l, events);
    StreamsAreFifo(l, events);
    if Exposed(m) {
      var id :| id in m.streams;
      var more := EmptiesQueue(l, m, id);
      var all := LosesAByte(l, m, id, more);
    } else {
      forall more | MayFollow(l, m, more) ensures !Broken(RunFrom(l, m, more)) {
        QuietStaysWhole(l, m, more);
      }
    }
  }

  lemma RunSnoc(l: Limits, events: seq<Event>, e: Event)
    requires Possible(l, events) && Enabled(Run(l, events), e)
    ensures Possible(l, events + [e]) && Run(l, events + [e]) == Next(l, Run(l, events), e)
  {
    var all := events + [e];
    assert all[..|all| - 1] == events;
    forall i | 0 <= i < |all| ensures Enabled(Run(l, all[..i]), all[i]) {
      assert all[..i] == events[..i];
    }
  }

  const STOPPED := [Dial(true)] + [SocketOpens] + [Open(1)] + [Stop]

  /** A stream outlives a stop. */
  lemma StopKeepsStream(l: Limits)
    ensures Possible(l, STOPPED) && Run(l, STOPPED) == Mux(map[1 := NEW_STREAM], [], NoSocket, 0, false, true)
  {
    RunSnoc(l, [], Dial(true));
    assert [] + [Dial(true)] == [Dial(true)];
    RunSnoc(l, [Dial(true)], SocketOpens);
    RunSnoc(l, [Dial(true)] + [SocketOpens], Open(1));
    RunSnoc(l, [Dial(true)] + [SocketOpens] + [Open(1)], Stop);
  }

  /** Concretely: after the start that follows its next chunk is lost before the one after it. */
  lemma RestartLosesAChunk(l: Limits)
    ensures var events := STOPPED + [Dial(true)] + [Write(1, [0])] + [SocketOpens] + [Write(1, [1])];
            && Possible(l, events)
            && 1 in Run(l, events).streams
            && Run(l, events).streams[1].written == [0, 1] && Run(l, events).streams[1].sent == [1]
  {
    StopKeepsStream(l);
    RunSnoc(l, STOPPED, Dial(true));
    RunSnoc(l, STOPPED + [Dial(true)], Write(1, [0]));
    RunSnoc(l, STOPPED + [Dial(true)] + [Write(1, [0])], SocketOpens);
    RunSnoc(l, STOPPED + [Dial(true)] + [Write(1, [0])] + [SocketOpens], Write(1, [1]));
  }

  /** And a chunk written in between stays in the queue: on the new socket no timer is running that would flush it. */
  lemma RestartStalls(l: Limits)
    requires l.queueMax >= 1
    ensures var events := STOPPED + [Write(1, [0])] + [Dial(true)] + [SocketOpens];
            && Possible(l, events)
            && var m := Run(l, events);
               m.socket == Ready && !m.stopped && !m.flusher && 1 in m.streams && m.streams[1].queued == [[0]]
  {
    StopKeepsStream(l);
    RunSnoc(l, STOPPED, Write(1, [0]));
    RunSnoc(l, STOPPED + [Write(1, [0])], Dial(true));
    RunSnoc(l, STOPPED + [Write(1, [0])] + [Dial(true)], SocketOpens);
  }

  // ----- the object

  class StreamMux {
    const limits: Limits
    var streams: map<nat, Stream>
    ghost var gone: seq<Stream>
    var socket: Socket
    var buffered: nat
    var flusher: bool
    var stopped: bool

    ghost function Model(): Mux
      reads this
    {
      Mux(streams, gone, socket, buffered, flusher, stopped)
    }

    constructor (limits: Limits)
      ensures Model() == INITIAL && this.limits == limits
    {
      this.limits := limits;
      streams, gone, socket, buffered, flusher, stopped := map[], [], NoSocket, 0, false, true;
    }

    method Transmit(id: nat, st: Stream, chunk: Chunk)
      modifies this
      ensures Model() == SendData(limits, old(Model()), id, st, chunk)
    {
      if socket == Ready {
        buffered := buffered + |chunk| + limits.frameHeader;
        streams := streams[id := st.(sent := st.sent + chunk)];
      } else {
        streams := streams[id := st];
      }
    }

    /** Returns whether the chunk went out at once. */
    method PumpDial(id: nat, chunk: Chunk) returns (direct: bool)
      requires Inv(limits, Model(), false)
      modifies this
      ensures Model() == Pump(limits, old(Model()), id, chunk) && Inv(limits, Model(), false)
      ensures direct <==> id in old(streams) && !old(streams)[id].paused && !OverWater(limits, old(Model()))
    {
      PumpKeepsInv(limits, Model(), id, chunk, false);
      direct := false;
      if id in streams {
        var st := streams[id];
        if st.paused || socket == NoSocket || buffered > limits.highWater {
          st := Stream(true, st.queued + [chunk], st.queuedBytes + |chunk|, st.written + chunk, st.sent);
          if st.queuedBytes > limits.queueMax {
            gone := gone + [st];
            streams := streams - {id};
          } else {
            streams := streams[id := st];
            flusher := flusher || !stopped;
          }
        } else {
          Transmit(id, st.(written := st.written + chunk), chunk);
          direct := true;
        }
      }
    }

    method FlushAll(order: seq<nat>)
      requires Inv(limits, Model(), false) && Enabled(Model(), FlushTick(order)) && flusher
      modifies this
      ensures Model() == Tick(limits, old(Model()), order) && Inv(limits, Model(), false)
    {
      NextKeepsInv(limits, Model(), FlushTick(order), false);
      if stopped || socket == NoSocket {
        flusher := false;
        return;
      }
      if buffered <= limits.highWater {
        for i := 0 to |order|
          invariant Model() == DrainEach(limits, old(Model()), order[..i])
          invariant streams.Keys == old(streams).Keys && socket != NoSocket
          invariant forall id :: id in streams ==> StreamInv(limits, streams[id], false, socket == Ready)
        {
          assert order[..i + 1][..i] == order[..i];
          DrainEachKeeps(limits, old(Model()), order[..i + 1], false);
          var id := order[i];
          if id in streams && streams[id].paused {
            FlushOne(id);
          }
        }
        assert order[..|order|] == order;
      }
      flusher := exists id :: id in streams && streams[id].paused;
    }

    method FlushOne(id: nat)
      requires id in streams && socket != NoSocket && StreamInv(limits, streams[id], false, socket == Ready)
      modifies this
      ensures Model() == Drain(limits, old(Model()), id)
    {
      while streams[id].queued != [] && socket != NoSocket && buffered <= limits.highWater
        invariant id in streams && socket != NoSocket
        invariant streams[id].queuedBytes >= |Flat(streams[id].queued)|
        invariant Drain(limits, old(Model()), id) == Drain(limits, Model(), id)
        decreases |streams[id].queued|
      {
        var st := streams[id];
        Transmit(id, st.(queued := st.queued[1..], queuedBytes := st.queuedBytes - |st.queued[0]|), st.queued[0]);
      }
      if streams[id].queued == [] {
        streams := streams[id := streams[id].(paused := false)];
      }
    }
  }
}
