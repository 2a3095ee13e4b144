/**
 The pool of local ports that stand for remote `(name, port)` targets. A target keeps its port
 while it is in use; when the pool is full, the idle port asked for longest ago is given away.
 */
module PortPool {
  import opened Basics
  import opened ConfigText

  datatype Slot = Slot(port: nat, key: Option<string>, active: nat, lastUsed: int, listening: bool)

  /** One accepted local connection: the slot it came in on, and the key its stream is dialled for. */
  datatype Phase = Dialing | Open | Gone
  datatype Conn = Conn(slot: nat, key: string, phase: Phase)

  datatype Grant = Grant(key: string, at: int)

  datatype Dialer = Dialer(
    slots: seq<Slot>,
    denied: nat,
    stray: nat,
    closed: bool,
    conns: seq<Conn>,
    granted: seq<Grant>)      // every answered request, in order

  // ----- keys

  function KeyFor(name: string, port: nat): string {
    name + ":" + ToDecimal(port)
  }

  function LastColon(s: string): (at: Option<nat>)
    ensures at.Some? ==> at.value < |s| && s[at.value] == ':'
  {
    if s == "" then None
    else if s[|s| - 1] == ':' then Some(|s| - 1) else LastColon(s[..|s| - 1])
  }

  lemma {:induction false} LastColonOf(name: string, digits: string)
    requires AllOf(digits, Digit)
    ensures LastColon(name + ":" + digits) == Some(|name|)
  {
    var s := name + ":" + digits;
    if digits != "" {
      assert s[..|s| - 1] == name + ":" + digits[..|digits| - 1];
      LastColonOf(name, digits[..|digits| - 1]);
    }
  }

  /** The key gives back the name and the port, whatever the name: two targets never share a key. */
  lemma KeyRoundTrip(name: string, port: nat)
    ensures var key := KeyFor(name, port); var at := LastColon(key);
            && at.Some? && key[..at.value] == name
            && AllOf(key[at.value + 1..], Digit) && FromDecimal(key[at.value + 1..]) == port
  {
    DecimalRoundTrip(port);
    LastColonOf(name, ToDecimal(port));
    assert KeyFor(name, port)[|name| + 1..] == ToDecimal(port);
    assert KeyFor(name, port)[..|name|] == name;
  }

  // ----- binding the pool

  function Bindable(from_: nat, limit: nat, canBind: nat -> bool): seq<nat>
    decreases limit - from_
  {
    if from_ >= limit then [] else (if canBind(from_) then [from_] else []) + Bindable(from_ + 1, limit, canBind)
  }

  function FreshSlot(port: nat): Slot {
    Slot(port, None, 0, 0, true)
  }

  function Ports(slots: seq<Slot>): seq<nat> {
    seq(|slots|, i requires 0 <= i < |slots| => slots[i].port)
  }

  /** The first `n` elements, or all if there are fewer. */
  function Take(s: seq<nat>, n: nat): seq<nat> {
    if |s| < n then s else s[..n]
  }

  lemma {:induction false} BindableInRange(from_: nat, limit: nat, canBind: nat -> bool)
    ensures var ports := Bindable(from_, limit, canBind);
            && (forall i :: 0 <= i < |ports| ==> from_ <= ports[i] < limit && canBind(ports[i]))
            && (forall i, j :: 0 <= i < j < |ports| ==> ports[i] < ports[j])
            && (forall p: nat :: from_ <= p < limit && canBind(p) ==> p in ports)
    decreases limit - from_
  {
    if from_ < limit {
      BindableInRange(from_ + 1, limit, canBind);
      var head, rest := if canBind(from_) then [from_] else [], Bindable(from_ + 1, limit, canBind);
      assert Bindable(from_, limit, canBind) == head + rest;
      forall p: nat | from_ <= p < limit && canBind(p)
        ensures p in head + rest
      {
        assert p in head || p in rest;
      }
    }
  }

  /**
   The pool's ports are distinct, bindable and from the range; a bindable port left out means the pool
   is full of lower ones.
   */
  lemma PoolIsLowest(base: nat, span: nat, size: nat, canBind: nat -> bool)
    ensures var ports := Take(Bindable(base, base + span, canBind), size);
            && |ports| <= size
            && (forall i :: 0 <= i < |ports| ==> base <= ports[i] < base + span && canBind(ports[i]))
            && (forall i, j :: 0 <= i < j < |ports| ==> ports[i] < ports[j])
            && (forall p: nat :: base <= p < base + span && canBind(p) && p !in ports ==>
                  |ports| == size && forall i :: 0 <= i < size ==> ports[i] < p)
  {
    var all := Bindable(base, base + span, canBind);
    var ports := Take(all, size);
    BindableInRange(base, base + span, canBind);
    forall p: nat | base <= p < base + span && canBind(p)
      ensures p in ports || (|ports| == size && forall i :: 0 <= i < size ==> ports[i] < p)
    {
      var k :| 0 <= k < |all| && all[k] == p;
      if k < |ports| {
        assert ports[k] == p;
      }
    }
  }

  lemma PortsSnoc(slots: seq<Slot>, s: Slot, rest: seq<nat>, later: seq<nat>)
    requires rest == [s.port] + later
    ensures Ports(slots + [s]) + later == Ports(slots) + rest
  {
    assert Ports(slots + [s]) == Ports(slots) + [s.port];
  }

  lemma Taken(all: seq<nat>, ports: seq<nat>, rest: seq<nat>, size: nat)
    requires ports + rest == all && |ports| <= size && (|ports| < size ==> rest == [])
    ensures ports == Take(all, size)
  {}

  /** Binds the pool in port order, skipping ports that cannot be bound, until it is full or the range ends. */
  method BindPool(base: nat, span: nat, size: nat, canBind: nat -> bool) returns (slots: seq<Slot>)
    ensures Ports(slots) == Take(Bindable(base, base + span, canBind), size)
    ensures forall s :: s in slots ==> s == FreshSlot(s.port)
  {
    slots := [];
    var p, limit := base, base + span;
    ghost var all, rest := Bindable(base, limit, canBind), Bindable(base, limit, canBind);
    for i := 0 to size
      invariant base <= p <= limit && |slots| == i
      invariant rest == Bindable(p, limit, canBind) && Ports(slots) + rest == all
      invariant forall s :: s in slots ==> s == FreshSlot(s.port)
    {
      var slot: Option<Slot> := None;
      while p < limit
        invariant base <= p <= limit && slot.None? && Bindable(p, limit, canBind) == rest
        decreases limit - p
      {
        var port := p;
        p := p + 1;
        if !canBind(port) { continue; }
        slot := Some(FreshSlot(port));
        break;
      }
      if slot.None? {
        Taken(all, Ports(slots), rest, size);
        return;
      }
      PortsSnoc(slots, slot.value, rest, Bindable(p, limit, canBind));
      slots, rest := slots + [slot.value], Bindable(p, limit, canBind);
    }
    Taken(all, Ports(slots), rest, size);
  }

  // ----- choosing a slot

  predicate Holds(s: Slot, key: string) {
    s.key == Some(key)
  }

  predicate Unused(s: Slot) {
    s.key.None? && s.listening
  }

  predicate Idle(s: Slot) {
    s.active == 0 && s.listening
  }

  function Find(slots: seq<Slot>, p: Slot -> bool): (r: Option<nat>)
    ensures r.Some? ==> r.value < |slots| && p(slots[r.value])
    ensures r.None? ==> forall i :: 0 <= i < |slots| ==> !p(slots[i])
  {
    if slots == [] then None
    else
      var before := Find(slots[..|slots| - 1], p);
      if before.Some? then before else if p(slots[|slots| - 1]) then Some(|slots| - 1) else None
  }

  /** The idle, listening slot used longest ago; of equals, the first. */
  function LruIdle(slots: seq<Slot>): (r: Option<nat>)
    ensures r.Some? ==> r.value < |slots| && Idle(slots[r.value])
  {
    if slots == [] then None
    else
      var n := |slots| - 1;
      var best := LruIdle(slots[..n]);
      if !Idle(slots[n]) then best
      else if best.None? || slots[n].lastUsed < slots[best.value].lastUsed then Some(n) else best
  }

  lemma {:induction false} LruIsLeast(slots: seq<Slot>, i: nat)
    requires i < |slots| && Idle(slots[i])
    ensures LruIdle(slots).Some?
    ensures slots[LruIdle(slots).value].lastUsed <= slots[i].lastUsed
    ensures i < LruIdle(slots).value ==> slots[LruIdle(slots).value].lastUsed < slots[i].lastUsed
  {
    var n := |slots| - 1;
    if i < n {
      LruIsLeast(slots[..n], i);
    }
  }

  method FindSlot(slots: seq<Slot>, p: Slot -> bool) returns (r: Option<nat>)
    ensures r == Find(slots, p)
  {
    for i := 0 to |slots|
      invariant Find(slots[..i], p).None?
    {
      assert slots[..i + 1][..i] == slots[..i];
      if p(slots[i]) {
        FindStays(slots, p, i + 1);
        return Some(i);
      }
    }
    assert slots[..|slots|] == slots;
    return None;
  }

  lemma {:induction false} FindStays(slots: seq<Slot>, p: Slot -> bool, n: nat)
    requires n <= |slots| && Find(slots[..n], p).Some?
    ensures Find(slots, p) == Find(slots[..n], p)
  {
    if n == |slots| {
      assert slots[..n] == slots;
    } else {
      var init := slots[..|slots| - 1];
      assert init[..n] == slots[..n];
      FindStays(init, p, n);
    }
  }

  method FindLruIdle(slots: seq<Slot>) returns (best: Option<nat>)
    ensures best == LruIdle(slots)
  {
    best := None;
    for i := 0 to |slots|
      invariant best == LruIdle(slots[..i])
    {
      assert slots[..i + 1][..i] == slots[..i];
      if slots[i].active > 0 { continue; }
      if !slots[i].listening { continue; }
      if best.None? || slots[i].lastUsed < slots[best.value].lastUsed { best := Some(i); }
    }
    assert slots[..|slots|] == slots;
  }

  // ----- the steps

  /** The slot a request gets: its own, else a never used one, else the least recently used idle one. */
  function Choose(slots: seq<Slot>, key: string): (r: Option<nat>)
    ensures r.Some? ==> r.value < |slots|
  {
    var hit := Find(slots, s => Holds(s, key));
    if hit.Some? then hit
    else
      var free := Find(slots, Unused);
      if free.Some? then free else LruIdle(slots)
  }

  predicate Proper(d: Dialer, name: string, port: int) {
    !d.closed && d.slots != [] && name != "" && 0 < port <= 65535
  }

  function Assigned(d: Dialer, i: nat, key: string, now: int): Dialer
    requires i < |d.slots|
  {
    d.(slots := d.slots[i := d.slots[i].(key := Some(key), lastUsed := now)], granted := d.granted + [Grant(key, now)])
  }

  /** `localPortFor`: the dialer afterwards and the port it answers. */
  function Ask(d: Dialer, name: string, port: int, foreign: bool, now: int): (Dialer, Option<nat>) {
    if !Proper(d, name, port) then (d, None)
    else if foreign then (d.(denied := d.denied + 1), None)
    else
      var key := KeyFor(name, port);
      var i := Choose(d.slots, key);
      if i.None? then (d.(denied := d.denied + 1), None)
      else (Assigned(d, i.value, key, now), Some(d.slots[i.value].port))
  }

  datatype Event =
    | Request(name: string, port: int, foreign: bool)
    | Accept(slot: nat)                       // a local connection on a slot's port
    | Opened(conn: nat, destroyed: bool)      // the stream of a connection is ready
    | Failed(conn: nat)
    | Closed(conn: nat)                       // either end of an open connection closed
    | StopsListening(slot: nat)
    | CloseAll

  function WithActive(slots: seq<Slot>, i: nat, active: nat): seq<Slot> {
    if i < |slots| then slots[i := slots[i].(active := active)] else slots
  }

  function Next(d: Dialer, e: Event, now: int): Dialer {
    match e
    case Request(name, port, foreign) => Ask(d, name, port, foreign, now).0
    case Accept(i) =>
      if i >= |d.slots| || !d.slots[i].listening then d
      else if d.slots[i].key.None? then d.(stray := d.stray + 1)
      else d.(conns := d.conns + [Conn(i, d.slots[i].key.value, Dialing)])
    case Opened(c, destroyed) =>
      if c >= |d.conns| || d.conns[c].phase != Dialing then d
      else
        var i := d.conns[c].slot;
        if destroyed then d.(conns := d.conns[c := d.conns[c].(phase := Gone)])
        else d.(conns := d.conns[c := d.conns[c].(phase := Open)],
                slots := WithActive(d.slots, i, if i < |d.slots| then d.slots[i].active + 1 else 0))
    case Failed(c) =>
      if c >= |d.conns| || d.conns[c].phase != Dialing then d
      else d.(conns := d.conns[c := d.conns[c].(phase := Gone)])
    case Closed(c) =>
      if c >= |d.conns| || d.conns[c].phase != Open then d
      else
        var i := d.conns[c].slot;
        d.(conns := d.conns[c := d.conns[c].(phase := Gone)],
           slots := WithActive(d.slots, i, if i < |d.slots| && d.slots[i].active > 0 then d.slots[i].active - 1 else 0))
    case StopsListening(i) =>
      if i >= |d.slots| then d else d.(slots := d.slots[i := d.slots[i].(listening := false)])
    case CloseAll => d.(closed := true, slots := [])
  }

  datatype Timed = Timed(event: Event, now: int)

  function Run(ports: seq<nat>, run: seq<Timed>): Dialer {
    if run == [] then
      Dialer(seq(|ports|, i requires 0 <= i < |ports| => FreshSlot(ports[i])), 0, 0, false, [], [])
    else
      Next(Run(ports, run[..|run| - 1]), run[|run| - 1].event, run[|run| - 1].now)
  }

  /** The clock starts after the epoch and is strictly increasing. */
  predicate Ticking(run: seq<Timed>) {
    (forall i :: 0 <= i < |run| ==> run[i].now > 0) && (forall i, j :: 0 <= i < j < |run| ==> run[i].now < run[j].now)
  }

  // ----- what every step keeps

  /** When a key was last answered. */
  function LastAsked(granted: seq<Grant>, key: string): Option<int> {
    if granted == [] then None
    else if granted[|granted| - 1].key == key then Some(granted[|granted| - 1].at)
    else LastAsked(granted[..|granted| - 1], key)
  }

  function CountOpen(conns: seq<Conn>, slot: nat): nat {
    if conns == [] then 0
    else
      CountOpen(conns[..|conns| - 1], slot)
      + if conns[|conns| - 1].slot == slot && conns[|conns| - 1].phase == Open then 1 else 0
  }

  predicate KeysDistinct(slots: seq<Slot>) {
    forall i, j :: 0 <= i < j < |slots| && slots[i].key.Some? ==> slots[i].key != slots[j].key
  }

  /** Each held key was last asked for at the slot's time stamp. */
  ghost predicate Stamped(d: Dialer) {
    forall i :: 0 <= i < |d.slots| && d.slots[i].key.Some? ==>
      LastAsked(d.granted, d.slots[i].key.value) == Some(d.slots[i].lastUsed)
  }

  /** No two held keys were asked for at the same time. */
  ghost predicate StampsDistinct(d: Dialer, now: int) {
    && (forall i :: 0 <= i < |d.slots| ==> d.slots[i].lastUsed <= now)
    && (forall i, j :: 0 <= i < j < |d.slots| && d.slots[i].key.Some? && d.slots[j].key.Some? ==>
          d.slots[i].lastUsed != d.slots[j].lastUsed)
  }

  /** A slot's counter is the number of its open connections, and only a slot with a key has connections. */
  ghost predicate CountsInv(d: Dialer) {
    && (forall i :: 0 <= i < |d.slots| ==> d.slots[i].active == CountOpen(d.conns, i))
    && (forall c :: 0 <= c < |d.conns| && d.conns[c].slot < |d.slots| ==> d.slots[d.conns[c].slot].key.Some?)
  }

  /** What every step keeps, whatever the clock shows. */
  ghost predicate Inv(d: Dialer) {
    KeysDistinct(d.slots) && CountsInv(d) && Stamped(d)
  }

  lemma {:induction false} CountNone(conns: seq<Conn>, i: nat)
    requires forall c :: 0 <= c < |conns| ==> conns[c].slot != i
    ensures CountOpen(conns, i) == 0
  {
    if conns != [] {
      CountNone(conns[..|conns| - 1], i);
    }
  }

  lemma {:induction false} CountUpdate(conns: seq<Conn>, c: nat, conn: Conn, i: nat)
    requires c < |conns| && conn.slot == conns[c].slot
    ensures CountOpen(conns[c := conn], i) + (if conns[c].slot == i && conns[c].phase == Open then 1 else 0)
            == CountOpen(conns, i) + (if conn.slot == i && conn.phase == Open then 1 else 0)
  {
    var n := |conns| - 1;
    if c < n {
      assert conns[c := conn][..n] == conns[..n][c := conn];
      CountUpdate(conns[..n], c, conn, i);
    } else {
      assert conns[c := conn][..n] == conns[..n];
    }
  }

  lemma UnusedIsIdle(d: Dialer, i: nat)
    requires CountsInv(d) && i < |d.slots| && d.slots[i].key.None?
    ensures d.slots[i].active == 0
  {
    CountNone(d.conns, i);
  }

  /** The chosen slot holds the key already, or nothing is in use on it and it listens. */
  lemma ChosenIsFree(d: Dialer, key: string)
    requires CountsInv(d) && Choose(d.slots, key).Some?
    ensures var s := d.slots[Choose(d.slots, key).value];
            Holds(s, key) || (Idle(s) && forall i :: 0 <= i < |d.slots| ==> !Holds(d.slots[i], key))
  {
    var free := Find(d.slots, Unused);
    if free.Some? {
      UnusedIsIdle(d, free.value);
    }
  }

  lemma AssignKeepsKeys(d: Dialer, i: nat, key: string, now: int)
    requires KeysDistinct(d.slots) && i < |d.slots|
    requires Holds(d.slots[i], key) || forall j :: 0 <= j < |d.slots| ==> !Holds(d.slots[j], key)
    ensures KeysDistinct(Assigned(d, i, key, now).slots)
  {
    assert forall j :: 0 <= j < |d.slots| && j != i ==> !Holds(d.slots[j], key);
  }

  lemma LastAskedSnoc(granted: seq<Grant>, key: string, now: int, other: string)
    ensures LastAsked(granted + [Grant(key, now)], other)
            == if other == key then Some(now) else LastAsked(granted, other)
  {
    assert (granted + [Grant(key, now)])[..|granted + [Grant(key, now)]| - 1] == granted;
  }

  lemma AssignKeepsStamps(d: Dialer, i: nat, key: string, now: int)
    requires Stamped(d) && i < |d.slots| && KeysDistinct(Assigned(d, i, key, now).slots)
    ensures Stamped(Assigned(d, i, key, now))
  {
    var a := Assigned(d, i, key, now);
    forall j | 0 <= j < |a.slots| && a.slots[j].key.Some?
      ensures LastAsked(a.granted, a.slots[j].key.value) == Some(a.slots[j].lastUsed)
    {
      LastAskedSnoc(d.granted, key, now, a.slots[j].key.value);
      if j != i {
        assert a.slots[j].key != a.slots[i].key;
      }
    }
  }

  lemma {:induction false} RequestKeepsInv(d: Dialer, name: string, port: int, foreign: bool, now: int)
    requires Inv(d)
    ensures Inv(Ask(d, name, port, foreign, now).0)
  {
    if Proper(d, name, port) && !foreign {
      var key := KeyFor(name, port);
      var i := Choose(d.slots, key);
      if i.Some? {
        ChosenIsFree(d, key);
        AssignKeepsKeys(d, i.value, key, now);
        AssignKeepsStamps(d, i.value, key, now);
        assert CountsInv(Assigned(d, i.value, key, now));
      }
    }
  }

  lemma PhaseKeepsCounts(d: Dialer, c: nat, phase: Phase, slots: seq<Slot>)
    requires CountsInv(d) && c < |d.conns| && |slots| == |d.slots|
    requires forall i :: 0 <= i < |slots| ==>
               slots[i] == d.slots[i].(active := slots[i].active)
               && slots[i].active + (if d.conns[c].slot == i && d.conns[c].phase == Open then 1 else 0)
                  == d.slots[i].active + (if d.conns[c].slot == i && phase == Open then 1 else 0)
    ensures CountsInv(d.(conns := d.conns[c := d.conns[c].(phase := phase)], slots := slots))
  {
    forall i | 0 <= i < |slots|
      ensures slots[i].active == CountOpen(d.conns[c := d.conns[c].(phase := phase)], i)
    {
      CountUpdate(d.conns, c, d.conns[c].(phase := phase), i);
    }
  }

  lemma {:induction false} CountPositive(conns: seq<Conn>, c: nat)
    requires c < |conns| && conns[c].phase == Open
    ensures CountOpen(conns, conns[c].slot) > 0
  {
    if c < |conns| - 1 {
      CountPositive(conns[..|conns| - 1], c);
    }
  }

  lemma AcceptKeepsCounts(d: Dialer, i: nat, now: int)
    requires CountsInv(d)
    ensures CountsInv(Next(d, Accept(i), now))
  {
    if i < |d.slots| && d.slots[i].listening && d.slots[i].key.Some? {
      var conns := d.conns + [Conn(i, d.slots[i].key.value, Dialing)];
      assert conns[..|conns| - 1] == d.conns;
    }
  }

  lemma FailedKeepsCounts(d: Dialer, c: nat, now: int)
    requires CountsInv(d)
    ensures CountsInv(Next(d, Failed(c), now))
  {
    if c < |d.conns| && d.conns[c].phase == Dialing {
      PhaseKeepsCounts(d, c, Gone, d.slots);
    }
  }

  lemma OpenedKeepsCounts(d: Dialer, c: nat, destroyed: bool, now: int)
    requires CountsInv(d)
    ensures CountsInv(Next(d, Opened(c, destroyed), now))
  {
    if c < |d.conns| && d.conns[c].phase == Dialing {
      PhaseKeepsCounts(d, c, if destroyed then Gone else Open, Next(d, Opened(c, destroyed), now).slots);
    }
  }

  lemma ClosedKeepsCounts(d: Dialer, c: nat, now: int)
    requires CountsInv(d)
    ensures CountsInv(Next(d, Closed(c), now))
  {
    if c < |d.conns| && d.conns[c].phase == Open {
      CountPositive(d.conns, c);
      PhaseKeepsCounts(d, c, Gone, Next(d, Closed(c), now).slots);
    }
  }

  lemma NextKeepsCounts(d: Dialer, e: Event, now: int)
    requires CountsInv(d) && !e.Request?
    ensures CountsInv(Next(d, e, now))
  {
    match e
    case Accept(i) => AcceptKeepsCounts(d, i, now);
    case Opened(c, destroyed) => OpenedKeepsCounts(d, c, destroyed, now);
    case Failed(c) => FailedKeepsCounts(d, c, now);
    case Closed(c) => ClosedKeepsCounts(d, c, now);
    case StopsListening(i) =>
    case CloseAll =>
  }

  /** Steps that leave keys, time stamps and answers alone. */
  predicate SameKeys(d: Dialer, n: Dialer) {
    && n.granted == d.granted
    && (n.slots == [] || (|n.slots| == |d.slots| && forall i :: 0 <= i < |d.slots| ==>
          n.slots[i].key == d.slots[i].key && n.slots[i].lastUsed == d.slots[i].lastUsed))
  }

  lemma NextKeepsInv(d: Dialer, e: Event, now: int)
    requires Inv(d)
    ensures Inv(Next(d, e, now))
  {
    if e.Request? {
      RequestKeepsInv(d, e.name, e.port, e.foreign, now);
    } else {
      NextKeepsCounts(d, e, now);
      assert SameKeys(d, Next(d, e, now));
    }
  }

  lemma {:induction false} RunKeepsInv(ports: seq<nat>, run: seq<Timed>)
    ensures Inv(Run(ports, run))
  {
    if run != [] {
      var init, last := run[..|run| - 1], run[|run| - 1];
      RunKeepsInv(ports, init);
      NextKeepsInv(Run(ports, init), last.event, last.now);
    } else {
      assert forall i :: CountOpen([], i) == 0;
    }
  }

  lemma NextKeepsDistinct(d: Dialer, e: Event, before: int, now: int)
    requires StampsDistinct(d, before) && before < now
    ensures StampsDistinct(Next(d, e, now), now)
  {
    if e.Request? {
      AskKeepsDistinct(d, e.name, e.port, e.foreign, before, now);
    } else {
      assert SameKeys(d, Next(d, e, now));
    }
  }

  lemma AskKeepsDistinct(d: Dialer, name: string, port: int, foreign: bool, before: int, now: int)
    requires StampsDistinct(d, before) && before < now
    ensures StampsDistinct(Ask(d, name, port, foreign, now).0, now)
  {}

  lemma {:induction false} TickingStamps(ports: seq<nat>, run: seq<Timed>)
    requires Ticking(run)
    ensures StampsDistinct(Run(ports, run), Clock(run))
  {
    if run != [] {
      var init, last := run[..|run| - 1], run[|run| - 1];
      TickingStamps(ports, init);
      NextKeepsDistinct(Run(ports, init), last.event, Clock(init), last.now);
    }
  }

  // ----- the promises

  function Clock(run: seq<Timed>): int {
    if run == [] then 0 else run[|run| - 1].now
  }

  /** In every run no two slots hold the same key, and a slot's counter is the number of its open connections. */
  lemma SlotsAreDistinct(ports: seq<nat>, run: seq<Timed>)
    ensures var d := Run(ports, run);
            && (forall i, j :: 0 <= i < j < |d.slots| && d.slots[i].key.Some? ==> d.slots[i].key != d.slots[j].key)
            && (forall i :: 0 <= i < |d.slots| ==> d.slots[i].active == CountOpen(d.conns, i))
  {
    RunKeepsInv(ports, run);
  }

  /** The pool stays the ports it was bound to, until it is closed. */
  lemma {:induction false} PortsStay(ports: seq<nat>, run: seq<Timed>)
    ensures var d := Run(ports, run); Ports(d.slots) == if d.closed then [] else ports
  {
    if run != [] {
      PortsStay(ports, run[..|run| - 1]);
      StepKeepsPorts(Run(ports, run[..|run| - 1]), run[|run| - 1].event, run[|run| - 1].now);
    }
  }

  lemma StepKeepsPorts(d: Dialer, e: Event, now: int)
    ensures var n := Next(d, e, now); Ports(n.slots) == if e.CloseAll? then [] else Ports(d.slots)
    ensures Next(d, e, now).closed == (d.closed || e.CloseAll?)
  {
    var n := Next(d, e, now);
    if !e.CloseAll? {
      assert |n.slots| == |d.slots| && forall i :: 0 <= i < |d.slots| ==> n.slots[i].port == d.slots[i].port;
    }
  }

  /**
   An answered port is the port of a slot that now holds the asked key, all other slots are as
   before, and somebody listens on it exactly unless the key already had a slot that stopped
   listening: a hit is answered without looking.
   */
  lemma AnswerIsRight(ports: seq<nat>, run: seq<Timed>, name: string, port: int, now: int)
    requires Ask(Run(ports, run), name, port, false, now).1.Some?
    ensures var d := Run(ports, run);
            var (n, answer) := Ask(d, name, port, false, now);
            exists i :: 0 <= i < |n.slots| && |n.slots| == |d.slots|
              && n.slots[i].port == answer.value && Holds(n.slots[i], KeyFor(name, port)) && n.slots[i].lastUsed == now
              && n.slots[i].active == d.slots[i].active
              && (forall j :: 0 <= j < |d.slots| && j != i ==> n.slots[j] == d.slots[j])
              && (n.slots[i].listening
                  <==> forall j :: 0 <= j < |d.slots| && Holds(d.slots[j], KeyFor(name, port)) ==> d.slots[j].listening)
  {
    var d, key := Run(ports, run), KeyFor(name, port);
    RunKeepsInv(ports, run);
    var i := Choose(d.slots, key).value;
    ChosenIsFree(d, key);
    OnlyHolder(d, key, i);
  }

  predicate AllListen(slots: seq<Slot>) {
    forall i :: 0 <= i < |slots| ==> slots[i].listening
  }

  lemma {:induction false} PoolListens(ports: seq<nat>, run: seq<Timed>)
    requires forall i :: 0 <= i < |run| ==> !run[i].event.StopsListening?
    ensures AllListen(Run(ports, run).slots)
  {
    if run != [] {
      PoolListens(ports, run[..|run| - 1]);
    }
  }

  /** As long as no slot stops listening by itself, somebody listens on every answered port. */
  lemma AnsweredPortListens(ports: seq<nat>, run: seq<Timed>, name: string, port: int, now: int)
    requires forall i :: 0 <= i < |run| ==> !run[i].event.StopsListening?
    requires Ask(Run(ports, run), name, port, false, now).1.Some?
    ensures var (n, answer) := Ask(Run(ports, run), name, port, false, now);
            exists i :: 0 <= i < |n.slots| && n.slots[i].port == answer.value &&
              Holds(n.slots[i], KeyFor(name, port)) && n.slots[i].listening
  {
    PoolListens(ports, run);
    AnswerIsRight(ports, run, name, port, now);
  }

  lemma OnlyHolder(d: Dialer, key: string, i: nat)
    requires KeysDistinct(d.slots) && i < |d.slots|
    ensures Holds(d.slots[i], key) ==> forall j :: 0 <= j < |d.slots| && Holds(d.slots[j], key) ==> j == i
  {}

  /** A proper request is refused exactly when nothing holds its key and every slot is in use or dead. */
  lemma RefusedExactlyWhenFull(ports: seq<nat>, run: seq<Timed>, name: string, port: int, now: int)
    requires Proper(Run(ports, run), name, port)
    ensures var d := Run(ports, run);
            Ask(d, name, port, false, now).1.None? <==>
            forall i :: 0 <= i < |d.slots| ==> !Holds(d.slots[i], KeyFor(name, port)) && !Idle(d.slots[i])
  {
    var d, key := Run(ports, run), KeyFor(name, port);
    RunKeepsInv(ports, run);
    if exists i :: 0 <= i < |d.slots| && Idle(d.slots[i]) {
      var i :| 0 <= i < |d.slots| && Idle(d.slots[i]);
      LruIsLeast(d.slots, i);
    }
    var free := Find(d.slots, Unused);
    if free.Some? {
      UnusedIsIdle(d, free.value);
    }
  }

  /** A slot with open connections keeps its key, whatever happens, as long as the pool is open. */
  lemma ActiveKeepsKey(ports: seq<nat>, run: seq<Timed>, e: Event, now: int, i: nat)
    requires !e.CloseAll?
    requires i < |Run(ports, run).slots| && Run(ports, run).slots[i].active > 0
    ensures var n := Next(Run(ports, run), e, now); i < |n.slots| && n.slots[i].key == Run(ports, run).slots[i].key
  {
    RunKeepsInv(ports, run);
    if e.Request? && Proper(Run(ports, run), e.name, e.port) && !e.foreign &&
      Choose(Run(ports, run).slots, KeyFor(e.name, e.port)).Some? {
      ChosenIsFree(Run(ports, run), KeyFor(e.name, e.port));
    }
  }

  /**
   A key loses its slot only when no other listening slot is free or idle with a key asked for at an
   earlier time; of keys asked for at the same time the one in the first slot goes, and with a
   strictly increasing clock every other one was asked for more recently.
   */
  lemma LeastRecentlyAskedGoes(ports: seq<nat>, run: seq<Timed>, e: Event, now: int, b: nat, i: nat)
    requires !e.CloseAll?
    requires var d := Run(ports, run);
             && b < |d.slots| && d.slots[b].key.Some? && Next(d, e, now).slots[b].key != d.slots[b].key
             && i < |d.slots| && i != b && Idle(d.slots[i])
    ensures var d := Run(ports, run);
            && d.slots[i].key.Some? && Idle(d.slots[b])
            && var other, gone := LastAsked(d.granted, d.slots[i].key.value),
               LastAsked(d.granted, d.slots[b].key.value);
               && other.Some? && gone.Some?
               && (other.value > gone.value || (other.value == gone.value && b < i))
               && (Ticking(run) ==> other.value > gone.value)
  {
    var d := Run(ports, run);
    RunKeepsInv(ports, run);
    LruIsLeast(d.slots, i);
    EvictedIsLru(d, e, now, b);
    if Ticking(run) {
      TickingStamps(ports, run);
    }
  }

  lemma EvictedIsLru(d: Dialer, e: Event, now: int, b: nat)
    requires !e.CloseAll? && b < |d.slots| && d.slots[b].key.Some?
    requires Next(d, e, now).slots[b].key != d.slots[b].key
    ensures LruIdle(d.slots) == Some(b) && forall i :: 0 <= i < |d.slots| ==> !Unused(d.slots[i])
  {
    assert e.Request?;
    var key := KeyFor(e.name, e.port);
    assert Choose(d.slots, key) == Some(b);
    assert Find(d.slots, s => Holds(s, key)) != Some(b);
  }

  // ----- where the promises end

  /** A key whose slot stopped listening is still answered with that dead port. */
  lemma DeadPortIsAnswered(port: nat, name: string, target: int)
    requires name != "" && 0 < target <= 65535
    ensures var run := [Timed(Request(name, target, false), 1), Timed(StopsListening(0), 2)];
            var (n, answer) := Ask(Run([port], run), name, target, false, 3);
            answer == Some(port) && |n.slots| == 1 && !n.slots[0].listening
  {
    var run := [Timed(Request(name, target, false), 1), Timed(StopsListening(0), 2)];
    var key := KeyFor(name, target);
    var d0 := Dialer([FreshSlot(port)], 0, 0, false, [], []);
    assert run[..1][..0] == [] && Run([port], []) == d0;
    OneSlot(d0, key);
    var d1 := Assigned(d0, 0, key, 1);
    assert run[..1][0] == run[0] && Run([port], run[..1]) == d1;
    var d2 := d1.(slots := d1.slots[0 := d1.slots[0].(listening := false)]);
    assert Run([port], run) == d2;
    OneSlot(d2, key);
  }

  lemma OneSlot(d: Dialer, key: string)
    requires |d.slots| == 1
    ensures Choose(d.slots, key)
            == if Holds(d.slots[0], key) || Idle(d.slots[0]) || Unused(d.slots[0]) then Some(0) else None
  {
    assert d.slots[..0] == [];
  }

  lemma RunSnoc(ports: seq<nat>, run: seq<Timed>, t: Timed)
    ensures Run(ports, run + [t]) == Next(Run(ports, run), t.event, t.now)
  {
    assert (run + [t])[..|run + [t]| - 1] == run;
  }

  /** A connection to `a` comes in, and `b` is asked for before its stream is ready. */
  function StolenSlot(a: string, b: string, target: int): seq<Timed> {
    [Timed(Request(a, target, false), 1)] + [Timed(Accept(0), 2)] + [Timed(Request(b, target, false), 3)]
      + [Timed(Opened(0, false), 4)]
  }

  lemma StolenRun(port: nat, a: string, b: string, target: int)
    ensures var d0 := Dialer([FreshSlot(port)], 0, 0, false, [], []);
            var d2 := Next(Next(d0, Request(a, target, false), 1), Accept(0), 2);
            Run([port], StolenSlot(a, b, target)) == Next(Next(d2, Request(b, target, false), 3), Opened(0, false), 4)
  {
    var t1, t2, t3 := Timed(Request(a, target, false), 1), Timed(Accept(0), 2), Timed(Request(b, target, false), 3);
    RunSnoc([port], [], t1);
    assert [] + [t1] == [t1];
    RunSnoc([port], [t1], t2);
    RunSnoc([port], [t1] + [t2], t3);
    RunSnoc([port], [t1] + [t2] + [t3], Timed(Opened(0, false), 4));
    assert Run([port], []) == Dialer([FreshSlot(port)], 0, 0, false, [], []);
  }

  lemma StolenSteps(d0: Dialer, port: nat, a: string, b: string, target: int)
    requires a != "" && b != "" && 0 < target <= 65535 && KeyFor(a, target) != KeyFor(b, target)
    requires d0 == Dialer([FreshSlot(port)], 0, 0, false, [], [])
    ensures var d1 := Next(d0, Request(a, target, false), 1);
            var d2 := Next(d1, Accept(0), 2);
            var d3 := Next(d2, Request(b, target, false), 3);
            var d4 := Next(d3, Opened(0, false), 4);
            && d4.slots == [Slot(port, Some(KeyFor(b, target)), 1, 3, true)]
            && d4.conns == [Conn(0, KeyFor(a, target), Open)]
  {
    var ka, kb := KeyFor(a, target), KeyFor(b, target);
    OneSlot(d0, ka);
    var d1 := Assigned(d0, 0, ka, 1);
    var d2 := d1.(conns := [Conn(0, ka, Dialing)]);
    assert Next(d1, Accept(0), 2) == d2;
    OneSlot(d2, kb);
  }

  /** Every connection dialled or open is on a slot of the key it is dialled for. */
  ghost predicate AtHome(d: Dialer) {
    forall c :: 0 <= c < |d.conns| && d.conns[c].phase != Gone && d.conns[c].slot < |d.slots| ==>
      d.slots[d.conns[c].slot].key == Some(d.conns[c].key)
  }

  /** The request gets a slot that another key holds while a connection on it is being dialled. */
  ghost predicate Steals(d: Dialer, e: Event) {
    && e.Request? && Proper(d, e.name, e.port) && !e.foreign
    && var key := KeyFor(e.name, e.port);
       var i := Choose(d.slots, key);
       && i.Some? && !Holds(d.slots[i.value], key)
       && exists c :: 0 <= c < |d.conns| && d.conns[c].slot == i.value && d.conns[c].phase == Dialing
  }

  lemma StealingStep(d: Dialer, e: Event, now: int)
    requires AtHome(d) && CountsInv(d) && e.Request?
    ensures AtHome(Next(d, e, now)) <==> !Steals(d, e)
  {
    if Proper(d, e.name, e.port) && !e.foreign && Choose(d.slots, KeyFor(e.name, e.port)).Some? {
      var key := KeyFor(e.name, e.port);
      var i := Choose(d.slots, key).value;
      ChosenIsFree(d, key);
      forall c | 0 <= c < |d.conns| && d.conns[c].phase == Open && d.conns[c].slot == i
        ensures d.slots[i].active > 0
      {
        CountPositive(d.conns, c);
      }
      assert forall c :: 0 <= c < |d.conns| && d.conns[c].slot == i && d.conns[c].phase == Dialing ==>
          d.slots[i].key == Some(d.conns[c].key);
    }
  }

  /** A step takes a connection's slot from its key exactly if it is such a request, and no other step does. */
  lemma AwayExactlyBy(d: Dialer, e: Event, now: int)
    requires AtHome(d) && CountsInv(d)
    ensures AtHome(Next(d, e, now)) <==> !Steals(d, e)
  {
    if e.Request? {
      StealingStep(d, e, now);
    }
  }

  ghost predicate NeverSteals(ports: seq<nat>, run: seq<Timed>) {
    forall i :: 0 <= i < |run| ==> !Steals(Run(ports, run[..i]), run[i].event)
  }

  ghost predicate AlwaysAtHome(ports: seq<nat>, run: seq<Timed>) {
    forall i :: 0 <= i <= |run| ==> AtHome(Run(ports, run[..i]))
  }

  lemma NeverStealsSnoc(ports: seq<nat>, run: seq<Timed>, t: Timed)
    ensures NeverSteals(ports, run + [t]) <==> NeverSteals(ports, run) && !Steals(Run(ports, run), t.event)
  {
    var all := run + [t];
    forall i | 0 <= i < |run| ensures all[..i] == run[..i] {}
    assert all[..|run|] == run;
  }

  lemma AlwaysAtHomeSnoc(ports: seq<nat>, run: seq<Timed>, t: Timed)
    ensures AlwaysAtHome(ports, run + [t]) <==> AlwaysAtHome(ports, run) && AtHome(Run(ports, run + [t]))
    ensures AlwaysAtHome(ports, run) ==> AtHome(Run(ports, run))
  {
    var all := run + [t];
    forall i | 0 <= i <= |run| ensures all[..i] == run[..i] {}
    assert all[..|all|] == all && run[..|run|] == run;
  }

  /**
   In a run, connections are at home throughout exactly if no request takes a slot under a connection
   being dialled.
   */
  lemma {:induction false} ConnectionsAreAtHome(ports: seq<nat>, run: seq<Timed>)
    ensures NeverSteals(ports, run) <==> AlwaysAtHome(ports, run)
  {
    if run != [] {
      var init, last := run[..|run| - 1], run[|run| - 1];
      assert run == init + [last];
      ConnectionsAreAtHome(ports, init);
      NeverStealsSnoc(ports, init, last);
      AlwaysAtHomeSnoc(ports, init, last);
      if AlwaysAtHome(ports, init) { HomeStep(ports, init, last); }
    }
  }

  lemma HomeStep(ports: seq<nat>, run: seq<Timed>, t: Timed)
    requires AtHome(Run(ports, run))
    ensures AtHome(Run(ports, run + [t])) <==> !Steals(Run(ports, run), t.event)
  {
    RunKeepsInv(ports, run);
    RunSnoc(ports, run, t);
    AwayExactlyBy(Run(ports, run), t.event, t.now);
  }

  /** Some open connection is on a slot of another key than it was dialled for. */
  ghost predicate Misrouted(d: Dialer) {
    exists c :: 0 <= c < |d.conns| && d.conns[c].phase == Open && d.conns[c].slot < |d.slots|
                && d.slots[d.conns[c].slot].key != Some(d.conns[c].key)
  }

  predicate AsksNothing(run: seq<Timed>) {
    forall i :: 0 <= i < |run| ==> !run[i].event.Request?
  }

  lemma {:induction false} StaysAtHome(ports: seq<nat>, run: seq<Timed>, more: seq<Timed>)
    requires AtHome(Run(ports, run)) && AsksNothing(more)
    ensures AtHome(Run(ports, run + more))
  {
    if more == [] {
      assert run + [] == run;
    } else {
      var init, last := more[..|more| - 1], more[|more| - 1];
      StaysAtHome(ports, run, init);
      assert run + more == (run + init) + [last];
      RunSnoc(ports, run + init, last);
      RunKeepsInv(ports, run + init);
      AwayExactlyBy(Run(ports, run + init), last.event, last.now);
    }
  }

  lemma AwayIsMisrouted(ports: seq<nat>, run: seq<Timed>) returns (more: seq<Timed>)
    requires !AtHome(Run(ports, run))
    ensures AsksNothing(more) && Misrouted(Run(ports, run + more))
  {
    var d := Run(ports, run);
    var c :| 0 <= c < |d.conns| && d.conns[c].phase != Gone && d.conns[c].slot < |d.slots|
             && d.slots[d.conns[c].slot].key != Some(d.conns[c].key);
    if d.conns[c].phase == Open {
      more := [];
      assert run + [] == run;
    } else {
      more := [Timed(Opened(c, false), 0)];
      RunSnoc(ports, run, more[0]);
      var n := Run(ports, run + more);
      assert n.conns[c] == d.conns[c].(phase := Open) && n.slots[n.conns[c].slot].key != Some(n.conns[c].key);
    }
  }

  /**
   The condition is exact: after a run an open connection can end up on a slot of another key without
   a further request if and only if some connection is not at home now.
   */
  lemma MisroutedExactly(ports: seq<nat>, run: seq<Timed>)
    ensures !AtHome(Run(ports, run)) <==> exists more :: AsksNothing(more) && Misrouted(Run(ports, run + more))
  {
    if AtHome(Run(ports, run)) {
      forall more | AsksNothing(more) ensures !Misrouted(Run(ports, run + more)) {
        StaysAtHome(ports, run, more);
      }
    } else {
      var more := AwayIsMisrouted(ports, run);
    }
  }

  /**
   A connection is counted only once its stream is ready: while it is being dialled, another
   request may take its slot, and the open connection then goes to the key the slot had before.
   */
  lemma DialingDoesNotProtect(port: nat, a: string, b: string, target: int)
    requires a != "" && b != "" && a != b && 0 < target <= 65535
    ensures var d := Run([port], StolenSlot(a, b, target));
            && |d.slots| == 1 && |d.conns| == 1 && d.slots[0].active == 1 && d.conns[0].phase == Open
            && d.conns[0].slot == 0 && d.conns[0].key == KeyFor(a, target)
            && d.slots[0].key == Some(KeyFor(b, target)) && KeyFor(a, target) != KeyFor(b, target)
  {
    KeyRoundTrip(a, target);
    KeyRoundTrip(b, target);
    StolenRun(port, a, b, target);
    StolenSteps(Dialer([FreshSlot(port)], 0, 0, false, [], []), port, a, b, target);
  }

  // ----- the object

  class RelayDialer {
    const network: string
    var slots: seq<Slot>
    var bound: nat
    var denied: nat
    var stray: nat
    var closed: bool
    var conns: seq<Conn>
    ghost var granted: seq<Grant>

    ghost function Model(): Dialer
      reads this
    {
      Dialer(slots, denied, stray, closed, conns, granted)
    }

    ghost predicate Valid()
      reads this
    {
      bound == |slots|
    }

    constructor (network: string)
      ensures this.network == network && Valid() && Model() == Dialer([], 0, 0, false, [], [])
    {
      this.network := network;
      slots, bound, denied, stray, closed, conns, granted := [], 0, 0, 0, false, [], [];
    }

    method Start(base: nat, span: nat, size: nat, canBind: nat -> bool)
      requires Valid() && Model() == Dialer([], 0, 0, false, [], [])
      modifies `slots, `bound
      ensures Valid() && Model() == Run(Take(Bindable(base, base + span, canBind), size), [])
    {
      slots := BindPool(base, span, size, canBind);
      bound := |slots|;
      ghost var ports := Take(Bindable(base, base + span, canBind), size);
      assert forall i :: 0 <= i < |slots| ==> slots[i] in slots && slots[i].port == ports[i];
    }

    /** `networkOf` stands for the network part of a logical name. */
    method LocalPortFor(name: string, port: int, networkOf: string -> string, now: int) returns (answer: Option<nat>)
      requires Valid()
      modifies `slots, `denied, `granted
      ensures Valid()
      ensures (Model(), answer) == Ask(old(Model()), name, port, networkOf(name) != network, now)
    {
      if closed || bound == 0 { return None; }
      if name == "" || port <= 0 || port > 65535 { return None; }
      if networkOf(name) != network {
        denied := denied + 1;
        return None;
      }
      var key := KeyFor(name, port);
      var hit := FindSlot(slots, s => Holds(s, key));
      if hit.Some? {
        answer := Assign(hit.value, key, now);
        return;
      }
      var free := FindSlot(slots, Unused);
      if free.None? { free := FindLruIdle(slots); }
      if free.None? {
        denied := denied + 1;
        return None;
      }
      answer := Assign(free.value, key, now);
    }

    method Assign(i: nat, key: string, now: int) returns (answer: Option<nat>)
      requires i < |slots|
      modifies `slots, `granted
      ensures Model() == Assigned(old(Model()), i, key, now) && answer == Some(old(slots)[i].port)
    {
      slots := slots[i := slots[i].(key := Some(key), lastUsed := now)];
      granted := granted + [Grant(key, now)];
      answer := Some(slots[i].port);
    }

    method OnConn(i: nat)
      requires Valid() && i < |slots| && slots[i].listening
      modifies `stray, `conns
      ensures Valid() && Model() == Next(old(Model()), Accept(i), 0)
    {
      var key := slots[i].key;
      if key.None? {
        stray := stray + 1;
        return;
      }
      conns := conns + [Conn(i, key.value, Dialing)];
    }

    method OnOpened(c: nat, destroyed: bool)
      requires Valid() && c < |conns| && conns[c].phase == Dialing
      modifies `slots, `conns
      ensures Valid() && Model() == Next(old(Model()), Opened(c, destroyed), 0)
    {
      if destroyed {
        conns := conns[c := conns[c].(phase := Gone)];
        return;
      }
      var i := conns[c].slot;
      conns := conns[c := conns[c].(phase := Open)];
      if i < |slots| { slots := slots[i := slots[i].(active := slots[i].active + 1)]; }
    }

    /** Either end closed; the second time a connection closes it is released already. */
    method OnClosed(c: nat)
      requires Valid() && CountsInv(Model()) && c < |conns|
      modifies `slots, `conns
      ensures Valid() && Model() == Next(old(Model()), Closed(c), 0)
    {
      if conns[c].phase != Open { return; }
      var i := conns[c].slot;
      CountPositive(conns, c);
      conns := conns[c := conns[c].(phase := Gone)];
      if i < |slots| { slots := slots[i := slots[i].(active := slots[i].active - 1)]; }
    }

    method Close()
      modifies `slots, `bound, `closed
      ensures Valid() && Model() == Next(old(Model()), CloseAll, 0)
    {
      closed := true;
      slots := [];
      bound := 0;
    }
  }
}
