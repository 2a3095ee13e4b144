/**
 Which requests for a local port are served, and the life of a connection that comes in on one, over
 every run of the dialer.
 */
module PortHistory {
  import opened Basics
  import opened PortPool

  /** The request names a target, and there is a pool to serve it from. */
  predicate WellFormed(d: Dialer, name: string, port: int) {
    !d.closed && d.slots != [] && name != "" && 1 <= port && port <= 65535
  }

  /** Some slot holds the key already, or listens without an open connection. */
  predicate HasRoom(d: Dialer, key: string) {
    exists i :: 0 <= i < |d.slots| && (d.slots[i].key == Some(key) || (d.slots[i].active == 0 && d.slots[i].listening))
  }

  /**
   In every run a request gets a port exactly if it is well formed, of this network, and there is room
   for it; a well-formed request that gets none is counted, and changes nothing else.
   */
  lemma RequestExactly(ports: seq<nat>, run: seq<Timed>, name: string, port: int, foreign: bool, now: int)
    ensures var d := Run(ports, run);
            var (n, answer) := Ask(d, name, port, foreign, now);
            var fine := WellFormed(d, name, port);
            && (answer.Some? <==> fine && !foreign && HasRoom(d, KeyFor(name, port)))
            && n.denied == d.denied + (if fine && answer.None? then 1 else 0)
            && (answer.None? ==> n == d.(denied := n.denied))
            && n.conns == d.conns && n.stray == d.stray && n.closed == d.closed && |n.slots| == |d.slots|
  {
    var d := Run(ports, run);
    if Proper(d, name, port) {
      RefusedExactlyWhenFull(ports, run, name, port, now);
      forall i | 0 <= i < |d.slots|
        ensures (d.slots[i].key == Some(KeyFor(name, port)) || (d.slots[i].active == 0 && d.slots[i].listening))
                <==> Holds(d.slots[i], KeyFor(name, port)) || Idle(d.slots[i])
      {}
    }
  }

  /** The phase of connection `c` after an event. */
  function PhaseAfter(was: Phase, e: Event, c: nat): Phase {
    if was == Dialing && e == Opened(c, false) then Open
    else if was == Dialing && (e == Opened(c, true) || e == Failed(c)) then Gone
    else if was == Open && e == Closed(c) then Gone
    else was
  }

  /** A connection comes in on a slot that listens and has a key. */
  predicate ComesIn(d: Dialer, e: Event) {
    e.Accept? && e.slot < |d.slots| && d.slots[e.slot].listening && d.slots[e.slot].key.Some?
  }

  /**
   A connection is dialled when it comes in, open once its stream is ready, and gone when dialling
   fails, it was destroyed meanwhile, or it is closed; it keeps its slot and the key the slot had.
   */
  lemma ConnectionExactly(d: Dialer, e: Event, now: int)
    ensures var n := Next(d, e, now);
            && |n.conns| == |d.conns| + (if ComesIn(d, e) then 1 else 0)
            && (forall c: nat :: c < |d.conns| ==>
                  n.conns[c] == Conn(d.conns[c].slot, d.conns[c].key, PhaseAfter(d.conns[c].phase, e, c)))
            && (ComesIn(d, e) ==> n.conns[|d.conns|] == Conn(e.slot, d.slots[e.slot].key.value, Dialing))
            && n.stray == d.stray + (if e.Accept? && e.slot < |d.slots| && d.slots[e.slot].listening
                                        && d.slots[e.slot].key.None? then 1 else 0)
  {}

  /** How many connections were ever let in, and how many of them are gone. */
  function CameIn(ports: seq<nat>, run: seq<Timed>): nat {
    if run == [] then 0
    else
      var init, last := run[..|run| - 1], run[|run| - 1];
      CameIn(ports, init) + if ComesIn(Run(ports, init), last.event) then 1 else 0
  }

  lemma {:induction false} ConnectionsAddUp(ports: seq<nat>, run: seq<Timed>)
    ensures |Run(ports, run).conns| == CameIn(ports, run)
    ensures var d := Run(ports, run);
            forall i :: 0 <= i < |d.slots| ==> d.slots[i].active == CountOpen(d.conns, i)
  {
    RunKeepsInv(ports, run);
    if run != [] {
      var init, last := run[..|run| - 1], run[|run| - 1];
      ConnectionsAddUp(ports, init);
      ConnectionExactly(Run(ports, init), last.event, last.now);
    }
  }
}
