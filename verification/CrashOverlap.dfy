/**
 Launches that overlap in time. What `CrashSupervisor` promises of orderly runs breaks as soon as a
 launch passes its checks while another waits for its port, and then only.
 */
module CrashOverlap {
  import opened Basics
  import opened CrashSupervisor
  import opened PluginHeal

  // ----- continuations

  function After(p: Policy, s: Supervised, more: seq<Timed>): Supervised {
    if more == [] then s
    else
      var last := more[|more| - 1];
      Next(p, After(p, s, more[..|more| - 1]), last.event, last.now)
  }

  /** A continuation in which nobody intervenes, the clock does not go back and launches do not overlap. */
  predicate OrderlyAfter(p: Policy, s: Supervised, more: seq<Timed>, before: int) {
    more == [] ||
    var init, last := more[..|more| - 1], more[|more| - 1];
    && OrderlyAfter(p, s, init, before)
    && Unattended(last.event)
    && (if init == [] then before else init[|init| - 1].now) <= last.now
    && OneLaunch(p, After(p, s, init), last.event, last.now)
  }

  lemma {:induction false} AfterJoin(p: Policy, s: Supervised, a: seq<Timed>, b: seq<Timed>)
    ensures After(p, s, a + b) == After(p, After(p, s, a), b)
  {
    if b == [] {
      assert a + b == a;
    } else {
      AfterJoin(p, s, a, b[..|b| - 1]);
      assert (a + b)[..|a + b| - 1] == a + b[..|b| - 1];
    }
  }

  lemma AfterOne(p: Policy, s: Supervised, t: Timed)
    ensures After(p, s, [t]) == Next(p, s, t.event, t.now)
  {
    assert [t][..0] == [];
  }

  ghost predicate Leads(p: Policy, s: Supervised, more: seq<Timed>, d: Supervised) {
    After(p, s, more) == d
  }

  lemma LeadsOn(p: Policy, s: Supervised, a: seq<Timed>, m: Supervised, b: seq<Timed>, d: Supervised)
    requires Leads(p, s, a, m) && Leads(p, m, b, d)
    ensures Leads(p, s, a + b, d)
  {
    AfterJoin(p, s, a, b);
  }

  lemma LeadsThrough(p: Policy, s: Supervised, a: seq<Timed>, m: Supervised, b: seq<Timed>, n: Supervised,
                     c: seq<Timed>, d: Supervised)
    requires Leads(p, s, a, m) && Leads(p, m, b, n) && Leads(p, n, c, d)
    ensures Leads(p, s, a + b + c, d)
  {
    LeadsOn(p, s, a, m, b, n);
    LeadsOn(p, s, a + b, n, c, d);
  }

  lemma LeadsOne(p: Policy, s: Supervised, t: Timed, d: Supervised)
    requires Next(p, s, t.event, t.now) == d
    ensures Leads(p, s, [t], d)
  {
    AfterOne(p, s, t);
  }

  lemma {:induction false} RunJoin(p: Policy, bundles: seq<string>, run: seq<Timed>, more: seq<Timed>)
    ensures Run(p, bundles, run + more) == After(p, Run(p, bundles, run), more)
  {
    if more == [] {
      assert run + more == run;
    } else {
      RunJoin(p, bundles, run, more[..|more| - 1]);
      assert (run + more)[..|run + more| - 1] == run + more[..|more| - 1];
    }
  }

  lemma {:induction false} OrderlyJoin(p: Policy, bundles: seq<string>, run: seq<Timed>, more: seq<Timed>)
    requires Orderly(p, bundles, run) && run != []
    requires OrderlyAfter(p, Run(p, bundles, run), more, run[|run| - 1].now)
    ensures Orderly(p, bundles, run + more)
  {
    if more == [] {
      assert run + more == run;
    } else {
      var init := more[..|more| - 1];
      OrderlyJoin(p, bundles, run, init);
      RunJoin(p, bundles, run, init);
      assert (run + more)[..|run + more| - 1] == run + init;
    }
  }

  /** Events between two times in which nobody intervenes and nobody launches. */
  predicate Quiet(more: seq<Timed>, lo: int, hi: int) {
    && (forall i :: 0 <= i < |more| ==>
        Unattended(more[i].event) && !more[i].event.LaunchBegin? && lo <= more[i].now <= hi)
    && (forall i, j :: 0 <= i < j < |more| ==> more[i].now <= more[j].now)
  }

  lemma {:induction false} QuietIsOrderly(p: Policy, s: Supervised, more: seq<Timed>, lo: int, hi: int, before: int)
    requires Quiet(more, lo, hi) && before <= lo
    ensures OrderlyAfter(p, s, more, before)
  {
    if more != [] {
      QuietIsOrderly(p, s, more[..|more| - 1], lo, hi, before);
    }
  }

  lemma QuietJoin(a: seq<Timed>, b: seq<Timed>, lo: int, mid: int, hi: int)
    requires Quiet(a, lo, mid) && Quiet(b, mid, hi) && lo <= mid <= hi
    ensures Quiet(a + b, lo, hi)
  {}

  // ----- one chain of crashes

  /** Nothing lives and nothing is armed; spawns may wait for their port. */
  predicate Idle(b: Supervised) {
    b.current.None? && b.alive == {} && b.timers == map[] && b.armed.None? && b.history == [] && b.streak == 0
  }

  /** In an idle state an instance took the place and was restarted at the given times. */
  function Living(b: Supervised, id: nat, times: seq<int>): Supervised {
    b.(current := Some(id), alive := {id}, history := times, streak := |times|, nextId := id + 1, log := b.log + times)
  }

  /** It crashed, and one more restart is armed. */
  function Down(b: Supervised, id: nat, times: seq<int>, t: int, due: int): Supervised {
    b.(current := Some(id), alive := {}, timers := map[id + 1 := due], armed := Some(id + 1), history := times + [t],
       streak := |times| + 1, nextId := id + 2, log := b.log + (times + [t]))
  }

  /** It crashed after the last allowed restart. */
  function Opened(b: Supervised, id: nat, times: seq<int>, t: int): Supervised {
    b.(breaker := Some(Breaker(t, (if b.breaker.Some? then b.breaker.value.opens else 0) + 1)), nextId := id + 1,
       log := b.log + times)
  }

  /** When the `k`-th instance crashes, if each lives for `up` and each restart timer fires when it is due. */
  function CrashTime(p: Policy, up: nat, k: nat): nat {
    if k == 0 then up else CrashTime(p, up, k - 1) + BackoffMs(k - 1, p) + up
  }

  function CrashTimes(p: Policy, up: nat, start: int, k: nat): seq<int> {
    if k == 0 then [] else CrashTimes(p, up, start, k - 1) + [start + CrashTime(p, up, k - 1)]
  }

  function CrashAt(id: nat, at: int): Timed {
    Timed(Exit(id, false, "", Works), at)
  }

  /** One crash and the restart after it. */
  function Cycle(id: nat, at: int, due: int): seq<Timed> {
    [CrashAt(id, at)] + [Timed(TimerFires(id + 1), due)] + [Timed(PlaceTaken, due)]
  }

  function Cycles(p: Policy, up: nat, id: nat, start: int, k: nat): seq<Timed> {
    if k == 0 then []
    else
      var at := start + CrashTime(p, up, k - 1);
      Cycles(p, up, id, start, k - 1) + Cycle(id + 2 * (k - 1), at, at + BackoffMs(k - 1, p))
  }

  /** A waiting spawn takes the place, and its instance crashes until the circuit opens. */
  function Round(p: Policy, up: nat, id: nat, start: int): seq<Timed> {
    [Timed(PlaceTaken, start)] + Cycles(p, up, id, start, p.max)
      + [CrashAt(id + 2 * p.max, start + CrashTime(p, up, p.max))]
  }

  lemma {:induction false} CrashTimesFacts(p: Policy, up: nat, start: int, k: nat, n: nat)
    requires k <= n
    ensures |CrashTimes(p, up, start, k)| == k && CrashTime(p, up, k) <= CrashTime(p, up, n)
    ensures forall i :: 0 <= i < k ==> start <= CrashTimes(p, up, start, k)[i] <= start + CrashTime(p, up, k)
  {
    if k > 0 {
      CrashTimesFacts(p, up, start, k - 1, k);
    }
    if k < n {
      CrashTimesFacts(p, up, start, k, n - 1);
    }
  }

  lemma {:induction false} PruneKeepsAll(history: seq<int>, now: int, window: nat)
    requires forall i :: 0 <= i < |history| ==> now - history[i] < window
    ensures PruneHistory(history, now, window) == history
  {
    if history != [] {
      PruneKeepsAll(history[..|history| - 1], now, window);
      assert history == history[..|history| - 1] + [history[|history| - 1]];
    }
  }

  lemma TakeStep(p: Policy, b: Supervised, t: int)
    requires Idle(b) && b.spawning > 0
    ensures Next(p, b, PlaceTaken, t) == Living(b.(spawning := b.spawning - 1), b.nextId, [])
  {
    assert {} + {b.nextId} == {b.nextId} && b.log + [] == b.log;
  }

  lemma DecideStep(p: Policy, b: Supervised, id: nat, times: seq<int>, t: int)
    requires Idle(b) && |times| < p.max && forall i :: 0 <= i < |times| ==> t - times[i] < p.window
    ensures Decided(p, Living(b, id, times).(alive := {}), t) == Down(b, id, times, t, t + BackoffMs(|times|, p))
  {
    PruneKeepsAll(times, t, p.window);
    assert (b.log + times) + [t] == b.log + (times + [t]);
  }

  /** An exit without an error text is a crash that heals nothing. */
  lemma CrashIsDecided(p: Policy, s: Supervised, id: nat, t: int)
    requires s.current == Some(id) && s.alive == {id}
    ensures Next(p, s, CrashAt(id, t).event, t) == Decided(p, s.(alive := {}), t)
  {
    assert {id} - {id} == {};
    assert Culprit("").None?;
  }

  lemma CrashStep(p: Policy, b: Supervised, id: nat, times: seq<int>, t: int)
    requires Idle(b) && |times| < p.max && forall i :: 0 <= i < |times| ==> t - times[i] < p.window
    ensures Next(p, Living(b, id, times), CrashAt(id, t).event, t) == Down(b, id, times, t, t + BackoffMs(|times|, p))
  {
    CrashIsDecided(p, Living(b, id, times), id, t);
    DecideStep(p, b, id, times, t);
  }

  lemma FireStep(p: Policy, b: Supervised, id: nat, times: seq<int>, t: int, due: int)
    requires Idle(b)
    ensures Next(p, Next(p, Down(b, id, times, t, due), TimerFires(id + 1), due), PlaceTaken, due)
            == Living(b, id + 2, times + [t])
  {
    var d := Down(b, id, times, t, due);
    assert d.timers - {id + 1} == map[] && {} + {id + 2} == {id + 2};
    assert Next(p, d, TimerFires(id + 1), due) == d.(timers := map[], armed := None, spawning := b.spawning + 1);
  }

  lemma OpenStep(p: Policy, b: Supervised, id: nat, times: seq<int>, t: int)
    requires Idle(b) && p.max == |times| && forall i :: 0 <= i < |times| ==> t - times[i] < p.window
    ensures Next(p, Living(b, id, times), CrashAt(id, t).event, t) == Opened(b, id, times, t)
  {
    PruneKeepsAll(times, t, p.window);
    CrashIsDecided(p, Living(b, id, times), id, t);
  }

  lemma CycleEnds(p: Policy, b: Supervised, id: nat, times: seq<int>, t: int)
    requires Idle(b) && |times| < p.max && forall i :: 0 <= i < |times| ==> t - times[i] < p.window
    ensures Leads(p, Living(b, id, times), Cycle(id, t, t + BackoffMs(|times|, p)), Living(b, id + 2, times + [t]))
  {
    var due := t + BackoffMs(|times|, p);
    var s := Living(b, id, times);
    CrashStep(p, b, id, times, t);
    FireStep(p, b, id, times, t, due);
    AppendThree(p, s, CrashAt(id, t), Timed(TimerFires(id + 1), due), Timed(PlaceTaken, due));
  }

  lemma AppendThree(p: Policy, s: Supervised, a: Timed, b: Timed, c: Timed)
    ensures After(p, s, [a] + [b] + [c]) == Next(p, Next(p, Next(p, s, a.event, a.now), b.event, b.now), c.event, c.now)
  {
    AfterOne(p, s, a);
    AfterJoin(p, s, [a], [b]);
    AfterOne(p, After(p, s, [a]), b);
    AfterJoin(p, s, [a] + [b], [c]);
    AfterOne(p, After(p, s, [a] + [b]), c);
  }

  /** After `k` restarts the next instance lives. */
  ghost predicate LivesAfter(p: Policy, up: nat, b: Supervised, id: nat, start: int, k: nat) {
    Leads(p, Living(b, id, []), Cycles(p, up, id, start, k), Living(b, id + 2 * k, CrashTimes(p, up, start, k)))
  }

  lemma CyclesMore(p: Policy, up: nat, b: Supervised, id: nat, start: int, k: nat, t: int, times: seq<int>)
    requires Idle(b) && k < p.max && CrashTime(p, up, p.max) < p.window
    requires t == start + CrashTime(p, up, k) && times == CrashTimes(p, up, start, k)
    ensures Leads(p, Living(b, id + 2 * k, times), Cycle(id + 2 * k, t, t + BackoffMs(k, p)),
                  Living(b, id + 2 * (k + 1), CrashTimes(p, up, start, k + 1)))
  {
    CrashTimesFacts(p, up, start, k, p.max);
    CycleEnds(p, b, id + 2 * k, times, t);
  }

  lemma LivesMore(p: Policy, up: nat, b: Supervised, id: nat, start: int, k: nat, a: Supervised, m: Supervised,
                  d: Supervised)
    requires a == Living(b, id, []) && m == Living(b, id + 2 * k, CrashTimes(p, up, start, k))
    requires d == Living(b, id + 2 * (k + 1), CrashTimes(p, up, start, k + 1))
    requires Idle(b) && k < p.max && CrashTime(p, up, p.max) < p.window && Leads(p, a, Cycles(p, up, id, start, k), m)
    ensures Leads(p, a, Cycles(p, up, id, start, k + 1), d)
  {
    var t := start + CrashTime(p, up, k);
    CyclesMore(p, up, b, id, start, k, t, CrashTimes(p, up, start, k));
    LeadsOn(p, a, Cycles(p, up, id, start, k), m, Cycle(id + 2 * k, t, t + BackoffMs(k, p)), d);
  }

  lemma {:induction false} CyclesEnd(p: Policy, up: nat, b: Supervised, id: nat, start: int, k: nat)
    requires Idle(b) && k <= p.max && CrashTime(p, up, p.max) < p.window
    ensures LivesAfter(p, up, b, id, start, k)
  {
    if k > 0 {
      CyclesEnd(p, up, b, id, start, k - 1);
      LivesMore(p, up, b, id, start, k - 1, Living(b, id, []),
                Living(b, id + 2 * (k - 1), CrashTimes(p, up, start, k - 1)),
                Living(b, id + 2 * k, CrashTimes(p, up, start, k)));
    }
  }

  /** A round ends idle, with the circuit opened once more and one spawn fewer waiting. */
  function RoundEnd(p: Policy, up: nat, b: Supervised, start: int): Supervised
    requires b.spawning > 0
  {
    Opened(b.(spawning := b.spawning - 1), b.nextId + 2 * p.max, CrashTimes(p, up, start, p.max),
           start + CrashTime(p, up, p.max))
  }

  lemma RoundOpens(p: Policy, up: nat, c: Supervised, id: nat, start: int, t: int, times: seq<int>)
    requires Idle(c) && CrashTime(p, up, p.max) < p.window
    requires t == start + CrashTime(p, up, p.max) && times == CrashTimes(p, up, start, p.max)
    ensures Leads(p, Living(c, id, times), [CrashAt(id, t)], Opened(c, id, times, t))
  {
    CrashTimesFacts(p, up, start, p.max, p.max);
    OpenStep(p, c, id, times, t);
    LeadsOne(p, Living(c, id, times), CrashAt(id, t), Opened(c, id, times, t));
  }

  lemma RoundBegins(p: Policy, up: nat, b: Supervised, c: Supervised, start: int)
    requires Idle(b) && b.spawning > 0 && c == b.(spawning := b.spawning - 1)
    ensures Leads(p, b, [Timed(PlaceTaken, start)], Living(c, b.nextId, []))
  {
    TakeStep(p, b, start);
    LeadsOne(p, b, Timed(PlaceTaken, start), Living(c, b.nextId, []));
  }

  lemma RoundGoesOn(p: Policy, b: Supervised, start: int, cycles: seq<Timed>, crash: Timed, first: Supervised,
                    last: Supervised, d: Supervised)
    requires Leads(p, b, [Timed(PlaceTaken, start)], first) && Leads(p, first, cycles, last) &&
             Leads(p, last, [crash], d)
    ensures Leads(p, b, [Timed(PlaceTaken, start)] + cycles + [crash], d)
  {
    LeadsThrough(p, b, [Timed(PlaceTaken, start)], first, cycles, last, [crash], d);
  }

  lemma RoundCloses(p: Policy, up: nat, c: Supervised, id: nat, start: int, first: Supervised, last: Supervised,
                    d: Supervised)
    requires Idle(c) && CrashTime(p, up, p.max) < p.window
    requires first == Living(c, id, []) && last == Living(c, id + 2 * p.max, CrashTimes(p, up, start, p.max))
    requires d == Opened(c, id + 2 * p.max, CrashTimes(p, up, start, p.max), start + CrashTime(p, up, p.max))
    ensures Leads(p, first, Cycles(p, up, id, start, p.max), last)
    ensures Leads(p, last, [CrashAt(id + 2 * p.max, start + CrashTime(p, up, p.max))], d)
  {
    CyclesEnd(p, up, c, id, start, p.max);
    RoundOpens(p, up, c, id + 2 * p.max, start, start + CrashTime(p, up, p.max), CrashTimes(p, up, start, p.max));
  }

  lemma RoundEnds(p: Policy, up: nat, b: Supervised, start: int)
    requires Idle(b) && b.spawning > 0 && CrashTime(p, up, p.max) < p.window
    ensures Leads(p, b, Round(p, up, b.nextId, start), RoundEnd(p, up, b, start))
  {
    var c, id, d := b.(spawning := b.spawning - 1), b.nextId, RoundEnd(p, up, b, start);
    var first, last := Living(c, id, []), Living(c, id + 2 * p.max, CrashTimes(p, up, start, p.max));
    RoundBegins(p, up, b, c, start);
    RoundCloses(p, up, c, id, start, first, last, d);
    RoundGoesOn(p, b, start, Cycles(p, up, id, start, p.max), CrashAt(id + 2 * p.max, start + CrashTime(p, up, p.max)),
                first, last, d);
  }

  lemma CycleIsQuiet(id: nat, at: int, due: int)
    requires at <= due
    ensures Quiet(Cycle(id, at, due), at, due)
  {}

  lemma Wider(more: seq<Timed>, lo: int, hi: int, from_: int, to_: int)
    requires Quiet(more, lo, hi) && from_ <= lo && hi <= to_
    ensures Quiet(more, from_, to_)
  {}

  lemma {:induction false} CyclesAreQuiet(p: Policy, up: nat, id: nat, start: int, k: nat)
    ensures Quiet(Cycles(p, up, id, start, k), start, start + CrashTime(p, up, k))
  {
    if k > 0 {
      var at := start + CrashTime(p, up, k - 1);
      var due := at + BackoffMs(k - 1, p);
      CyclesAreQuiet(p, up, id, start, k - 1);
      CycleIsQuiet(id + 2 * (k - 1), at, due);
      QuietJoin(Cycles(p, up, id, start, k - 1), Cycle(id + 2 * (k - 1), at, due), start, at, due);
      Wider(Cycles(p, up, id, start, k), start, due, start, start + CrashTime(p, up, k));
    }
  }

  lemma RoundIsQuiet(p: Policy, up: nat, id: nat, start: int)
    ensures Quiet(Round(p, up, id, start), start, start + CrashTime(p, up, p.max))
  {
    var t := start + CrashTime(p, up, p.max);
    CyclesAreQuiet(p, up, id, start, p.max);
    QuietJoin([Timed(PlaceTaken, start)], Cycles(p, up, id, start, p.max), start, start, t);
    QuietJoin([Timed(PlaceTaken, start)] + Cycles(p, up, id, start, p.max), [CrashAt(id + 2 * p.max, t)], start, t, t);
  }

  // ----- a second launch past its checks

  /** An orderly run, and an unattended event at a time that may come next. */
  predicate MayHappen(p: Policy, bundles: seq<string>, run: seq<Timed>, e: Event, now: int) {
    Orderly(p, bundles, run) && Unattended(e) && (run != [] ==> run[|run| - 1].now <= now)
  }

  /** A budget of crashes and backoffs fits into the interval the promises are about. */
  predicate Fits(p: Policy, up: nat) {
    p.max >= 1 && CrashTime(p, up, p.max) + up < Span(p)
  }

  /** The server's own defaults. */
  const DEFAULTS := Policy(1000, 30000, 600000, 5, 600000, 21600000)

  /** By default six instances that live for eighty seconds each fit. */
  lemma DefaultsFit()
    ensures Fits(DEFAULTS, 80000)
  {
    assert Pow2(0) == 1 && Pow2(1) == 2 && Pow2(2) == 4 && Pow2(3) == 8 && Pow2(4) == 16;
    assert CrashTime(DEFAULTS, 80000, 0) == 80000;
    assert CrashTime(DEFAULTS, 80000, 1) == 161000;
    assert CrashTime(DEFAULTS, 80000, 2) == 243000;
    assert CrashTime(DEFAULTS, 80000, 3) == 327000;
    assert CrashTime(DEFAULTS, 80000, 4) == 415000;
    assert CrashTime(DEFAULTS, 80000, 5) == 511000;
  }

  /** After a launch that overlaps another nothing lives and two spawns wait. */
  lemma OverlapIsIdle(p: Policy, s: Supervised, e: Event, now: int)
    requires Inv(p, s, now) && Unattended(e) && !OneLaunch(p, s, e, now)
    ensures var b := Next(p, s, e, now);
            Idle(b) && b.spawning == 2 && b.breaker.None? && b.log == s.log && b.heals == s.heals
  {
    assert s.timers.Keys == {};
    assert s.timers == map[];
  }

  /** Then the circuit opens, the other spawn takes the place all the same, and its crash is followed by a restart. */
  function Overrun(p: Policy, up: nat, id: nat, start: int): seq<Timed> {
    var t := start + CrashTime(p, up, p.max);
    Round(p, up, id, start) + ([Timed(PlaceTaken, t)] + [CrashAt(id + 2 * p.max + 1, t + up)])
  }

  /** Where an overrun ends: one instance more has crashed, and is to be restarted. */
  function OverrunEnd(p: Policy, up: nat, b: Supervised, start: int): Supervised
    requires b.spawning == 2
  {
    var o, t := RoundEnd(p, up, b, start), start + CrashTime(p, up, p.max) + up;
    Down(o.(spawning := 0), o.nextId, [], t, t + BackoffMs(0, p))
  }

  lemma OneMore(p: Policy, o: Supervised, t: int, up: nat)
    requires Idle(o) && o.spawning == 1 && p.max >= 1
    ensures Leads(p, o, [Timed(PlaceTaken, t)] + [CrashAt(o.nextId, t + up)],
                  Down(o.(spawning := 0), o.nextId, [], t + up, t + up + BackoffMs(0, p)))
  {
    var c, id := o.(spawning := 0), o.nextId;
    TakeStep(p, o, t);
    LeadsOne(p, o, Timed(PlaceTaken, t), Living(c, id, []));
    CrashStep(p, c, id, [], t + up);
    LeadsOne(p, Living(c, id, []), CrashAt(id, t + up), Down(c, id, [], t + up, t + up + BackoffMs(0, p)));
    LeadsOn(p, o, [Timed(PlaceTaken, t)], Living(c, id, []), [CrashAt(id, t + up)],
            Down(c, id, [], t + up, t + up + BackoffMs(0, p)));
  }

  lemma OverrunGoesOn(p: Policy, up: nat, b: Supervised, start: int, o: Supervised, d: Supervised, t: int)
    requires Idle(b) && b.spawning == 2 && Fits(p, up) && t == start + CrashTime(p, up, p.max)
    requires o == RoundEnd(p, up, b, start) && d == OverrunEnd(p, up, b, start)
    ensures Leads(p, b, Round(p, up, b.nextId, start), o)
    ensures Leads(p, o, [Timed(PlaceTaken, t)] + [CrashAt(b.nextId + 2 * p.max + 1, t + up)], d)
  {
    RoundEnds(p, up, b, start);
    OneMore(p, o, t, up);
  }

  lemma OverrunEnds(p: Policy, up: nat, b: Supervised, start: int)
    requires Idle(b) && b.spawning == 2 && Fits(p, up)
    ensures Leads(p, b, Overrun(p, up, b.nextId, start), OverrunEnd(p, up, b, start))
  {
    var t, o, d := start + CrashTime(p, up, p.max), RoundEnd(p, up, b, start), OverrunEnd(p, up, b, start);
    OverrunGoesOn(p, up, b, start, o, d, t);
    LeadsOn(p, b, Round(p, up, b.nextId, start), o,
            [Timed(PlaceTaken, t)] + [CrashAt(b.nextId + 2 * p.max + 1, t + up)], d);
  }

  lemma OverrunIsQuiet(p: Policy, up: nat, id: nat, start: int)
    ensures Quiet(Overrun(p, up, id, start), start, start + CrashTime(p, up, p.max) + up)
  {
    var t := start + CrashTime(p, up, p.max);
    RoundIsQuiet(p, up, id, start);
    QuietJoin(Round(p, up, id, start), [Timed(PlaceTaken, t)] + [CrashAt(id + 2 * p.max + 1, t + up)], start, t,
              t + up);
  }

  lemma {:induction false} CountAll(s: seq<int>, lo: int, hi: int)
    requires forall i :: 0 <= i < |s| ==> lo <= s[i] < hi
    ensures CountIn(s, lo, hi) == |s|
  {
    if s != [] {
      CountAll(s[..|s| - 1], lo, hi);
    }
  }

  lemma {:induction false} CountJoin(a: seq<int>, b: seq<int>, lo: int, hi: int)
    ensures CountIn(a + b, lo, hi) == CountIn(a, lo, hi) + CountIn(b, lo, hi)
  {
    if b == [] {
      assert a + b == a;
    } else {
      CountJoin(a, b[..|b| - 1], lo, hi);
      assert (a + b)[..|a + b| - 1] == a + b[..|b| - 1];
    }
  }

  /**
   From any state in which two spawns wait nothing more than crashes and timers is needed: more
   restarts than the budget allows fall into one interval in which no plugin is taken out.
   */
  lemma OverlapBreaksTheBudget(p: Policy, up: nat, b: Supervised, now: int)
    requires Idle(b) && b.spawning == 2 && Fits(p, up) && UpTo(b.log, now) && UpTo(b.heals, now)
    ensures OrderlyAfter(p, b, Overrun(p, up, b.nextId, now + 1), now)
    ensures var d := After(p, b, Overrun(p, up, b.nextId, now + 1)); !BudgetAt(p, d.log, d.heals, now + 1)
  {
    var start, d := now + 1, OverrunEnd(p, up, b, now + 1);
    OverrunIsQuiet(p, up, b.nextId, start);
    QuietIsOrderly(p, b, Overrun(p, up, b.nextId, start), start, start + CrashTime(p, up, p.max) + up, now);
    OverrunEnds(p, up, b, start);
    TooMany(p, up, b.log, b.heals, start);
    var last := start + CrashTime(p, up, p.max) + up;
    assert d.log == b.log + CrashTimes(p, up, start, p.max) + ([] + [last]);
    assert [] + [last] == [last];
  }

  lemma TooMany(p: Policy, up: nat, log: seq<int>, heals: seq<int>, start: int)
    requires Fits(p, up) && UpTo(log, start - 1) && UpTo(heals, start - 1)
    ensures !BudgetAt(p, log + CrashTimes(p, up, start, p.max) + [start + CrashTime(p, up, p.max) + up], heals, start)
  {
    var hi, times, last := start + Span(p), CrashTimes(p, up, start, p.max), start + CrashTime(p, up, p.max) + up;
    CrashTimesFacts(p, up, start, p.max, p.max);
    CountAll(times, start, hi);
    CountJoin(log, times, start, hi);
    CountSnoc(log + times, last, start, hi);
    CountBounds(heals, start, hi);
    Times(p.max, 0, 0);
  }

  /** The next event and an orderly continuation of an orderly run make an orderly run. */
  lemma OrderlyThrough(p: Policy, bundles: seq<string>, run: seq<Timed>, e: Event, now: int, more: seq<Timed>)
    requires MayHappen(p, bundles, run, e, now) && OneLaunch(p, Run(p, bundles, run), e, now)
    requires OrderlyAfter(p, Next(p, Run(p, bundles, run), e, now), more, now)
    ensures Orderly(p, bundles, run + [Timed(e, now)] + more)
    ensures Run(p, bundles, run + [Timed(e, now)]) == Next(p, Run(p, bundles, run), e, now)
    ensures Run(p, bundles, run + [Timed(e, now)] + more) == After(p, Next(p, Run(p, bundles, run), e, now), more)
  {
    var all := run + [Timed(e, now)];
    assert all[..|all| - 1] == run;
    OrderlyJoin(p, bundles, all, more);
    RunJoin(p, bundles, all, more);
  }

  lemma OverlapAfterRun(p: Policy, bundles: seq<string>, run: seq<Timed>, e: Event, now: int)
    requires MayHappen(p, bundles, run, e, now) && !OneLaunch(p, Run(p, bundles, run), e, now)
    ensures var b := Next(p, Run(p, bundles, run), e, now);
            Idle(b) && b.spawning == 2 && b.breaker.None? && UpTo(b.log, now) && UpTo(b.heals, now)
  {
    RunKeepsInv(p, bundles, run, now);
    OverlapIsIdle(p, Run(p, bundles, run), e, now);
  }

  // ----- the promises hold exactly without such a launch

  /**
   The user has at most one of a process, a pending restart and a spawn after the event exactly if it
   is no such launch.
   */
  lemma OneProcessExactly(p: Policy, bundles: seq<string>, run: seq<Timed>, e: Event, now: int)
    requires MayHappen(p, bundles, run, e, now)
    ensures var d := Next(p, Run(p, bundles, run), e, now);
            |d.alive| + |d.timers| + d.spawning <= 1 <==> OneLaunch(p, Run(p, bundles, run), e, now)
  {
    if OneLaunch(p, Run(p, bundles, run), e, now) {
      OrderlyThrough(p, bundles, run, e, now, []);
      assert run + [Timed(e, now)] + [] == run + [Timed(e, now)];
      OneProcessAtATime(p, bundles, run + [Timed(e, now)]);
    } else {
      OverlapAfterRun(p, bundles, run, e, now);
    }
  }

  /** The crash budget survives every orderly continuation of the event exactly if it is no such launch. */
  lemma BudgetExactly(p: Policy, bundles: seq<string>, run: seq<Timed>, e: Event, now: int, up: nat)
    requires MayHappen(p, bundles, run, e, now) && Fits(p, up)
    ensures var d := Next(p, Run(p, bundles, run), e, now);
            (forall more :: OrderlyAfter(p, d, more, now) ==> WithinBudget(p, After(p, d, more)))
            <==> OneLaunch(p, Run(p, bundles, run), e, now)
  {
    var d := Next(p, Run(p, bundles, run), e, now);
    if OneLaunch(p, Run(p, bundles, run), e, now) {
      forall more | OrderlyAfter(p, d, more, now) ensures WithinBudget(p, After(p, d, more)) {
        BudgetThrough(p, bundles, run, e, now, d, more);
      }
    } else {
      OverlapAfterRun(p, bundles, run, e, now);
      OverrunBreaks(p, up, d, now);
    }
  }

  lemma BudgetThrough(p: Policy, bundles: seq<string>, run: seq<Timed>, e: Event, now: int, d: Supervised,
                      more: seq<Timed>)
    requires MayHappen(p, bundles, run, e, now) && OneLaunch(p, Run(p, bundles, run), e, now)
    requires d == Next(p, Run(p, bundles, run), e, now) && OrderlyAfter(p, d, more, now)
    ensures WithinBudget(p, After(p, d, more))
  {
    var all := run + [Timed(e, now)] + more;
    OrderlyThrough(p, bundles, run, e, now, more);
    RunKeepsInv(p, bundles, all, all[|all| - 1].now);
  }

  lemma OverrunBreaks(p: Policy, up: nat, b: Supervised, now: int)
    requires Idle(b) && b.spawning == 2 && Fits(p, up) && UpTo(b.log, now) && UpTo(b.heals, now)
    ensures exists more :: OrderlyAfter(p, b, more, now) && !WithinBudget(p, After(p, b, more))
  {
    OverlapBreaksTheBudget(p, up, b, now);
    var more := Overrun(p, up, b.nextId, now + 1);
    assert OrderlyAfter(p, b, more, now) && !WithinBudget(p, After(p, b, more));
  }

  predicate FirstCooldown(s: Supervised) {
    s.breaker.Some? ==> s.breaker.value.opens == 1
  }

  /** Two rounds open the circuit twice, and the second cooldown is a longer one. */
  lemma CooldownGrows(p: Policy, up: nat, b: Supervised, now: int) returns (more: seq<Timed>)
    requires Idle(b) && b.spawning == 2 && b.breaker.None? && Fits(p, up)
    ensures OrderlyAfter(p, b, more, now)
    ensures var d := After(p, b, more); d.breaker.Some? && d.breaker.value.opens == 2
  {
    var start, o := now + 1, RoundEnd(p, up, b, now + 1);
    var t := start + CrashTime(p, up, p.max);
    var first, second := Round(p, up, b.nextId, start), Round(p, up, o.nextId, t);
    RoundIsQuiet(p, up, b.nextId, start);
    RoundIsQuiet(p, up, o.nextId, t);
    QuietJoin(first, second, start, t, t + CrashTime(p, up, p.max));
    QuietIsOrderly(p, b, first + second, start, t + CrashTime(p, up, p.max), now);
    RoundEnds(p, up, b, start);
    RoundEnds(p, up, o, t);
    LeadsOn(p, b, first, o, second, RoundEnd(p, up, o, t));
    more := first + second;
  }

  /** The cooldown stays the first in every orderly continuation exactly if the event is no such launch. */
  lemma CooldownExactly(p: Policy, bundles: seq<string>, run: seq<Timed>, e: Event, now: int, up: nat)
    requires MayHappen(p, bundles, run, e, now) && Fits(p, up)
    ensures var d := Next(p, Run(p, bundles, run), e, now);
            (forall more :: OrderlyAfter(p, d, more, now) ==> FirstCooldown(After(p, d, more)))
            <==> OneLaunch(p, Run(p, bundles, run), e, now)
  {
    var d := Next(p, Run(p, bundles, run), e, now);
    if OneLaunch(p, Run(p, bundles, run), e, now) {
      forall more | OrderlyAfter(p, d, more, now) ensures FirstCooldown(After(p, d, more)) {
        OrderlyThrough(p, bundles, run, e, now, more);
        if After(p, d, more).breaker.Some? {
          CooldownNeverGrows(p, bundles, run + [Timed(e, now)] + more);
        }
      }
    } else {
      OverlapAfterRun(p, bundles, run, e, now);
      var more := CooldownGrows(p, up, d, now);
    }
  }

  /** Wherever the circuit is open, the restarts decided from there on come after the cooldown. */
  ghost predicate Silent(p: Policy, s: Supervised, more: seq<Timed>) {
    forall n :: 0 <= n <= |more| ==> SilentFrom(p, s, more, n)
  }

  ghost predicate SilentFrom(p: Policy, s: Supervised, more: seq<Timed>, n: nat)
    requires n <= |more|
  {
    SilentSince(p, After(p, s, more[..n]), After(p, s, more))
  }

  predicate SilentSince(p: Policy, atOpen: Supervised, d: Supervised) {
    atOpen.breaker.Some? ==>
      forall i :: |atOpen.log| <= i < |d.log| ==> d.log[i] >= atOpen.breaker.value.openedAt + CooldownMs(1, p)
  }

  lemma OverrunIsNotSilent(p: Policy, up: nat, b: Supervised, now: int)
    requires Idle(b) && b.spawning == 2 && b.breaker.None? && Fits(p, up)
    ensures !Silent(p, b, Overrun(p, up, b.nextId, now + 1))
  {
    var start := now + 1;
    var round, more := Round(p, up, b.nextId, start), Overrun(p, up, b.nextId, start);
    var o, d := RoundEnd(p, up, b, start), OverrunEnd(p, up, b, start);
    RoundEnds(p, up, b, start);
    OverrunEnds(p, up, b, start);
    assert more[..|round|] == round;
    assert d.log[|o.log|] == start + CrashTime(p, up, p.max) + up;
    assert !SilentFrom(p, b, more, |round|);
  }

  /** No restart is decided inside the cooldown in any orderly continuation exactly if the event is no such launch. */
  lemma SilenceExactly(p: Policy, bundles: seq<string>, run: seq<Timed>, e: Event, now: int, up: nat)
    requires MayHappen(p, bundles, run, e, now) && Fits(p, up)
    ensures var d := Next(p, Run(p, bundles, run), e, now);
            (forall more :: OrderlyAfter(p, d, more, now) ==> Silent(p, d, more))
            <==> OneLaunch(p, Run(p, bundles, run), e, now)
  {
    var d := Next(p, Run(p, bundles, run), e, now);
    if OneLaunch(p, Run(p, bundles, run), e, now) {
      forall more, n: nat | OrderlyAfter(p, d, more, now) && n <= |more| ensures SilentFrom(p, d, more, n) {
        OrderlyThrough(p, bundles, run, e, now, more);
        SilentThrough(p, bundles, run + [Timed(e, now)], more, n, d);
      }
    } else {
      var more := Overrun(p, up, d.nextId, now + 1);
      OverlapAfterRun(p, bundles, run, e, now);
      OverrunIsQuiet(p, up, d.nextId, now + 1);
      QuietIsOrderly(p, d, more, now + 1, now + 1 + CrashTime(p, up, p.max) + up, now);
      OverrunIsNotSilent(p, up, d, now);
    }
  }

  lemma PrefixJoin(p: Policy, bundles: seq<string>, run: seq<Timed>, more: seq<Timed>, n: nat)
    requires n <= |more|
    ensures Run(p, bundles, (run + more)[..|run| + n]) == After(p, Run(p, bundles, run), more[..n])
  {
    RunJoin(p, bundles, run, more[..n]);
    assert (run + more)[..|run| + n] == run + more[..n];
  }

  lemma SilentThrough(p: Policy, bundles: seq<string>, run: seq<Timed>, more: seq<Timed>, n: nat, s: Supervised)
    requires Orderly(p, bundles, run + more) && n <= |more| && s == Run(p, bundles, run)
    ensures SilentFrom(p, s, more, n)
  {
    RunJoin(p, bundles, run, more);
    PrefixJoin(p, bundles, run, more, n);
    SilentBetween(p, bundles, run + more, |run| + n, After(p, s, more[..n]), After(p, s, more));
  }

  lemma SilentBetween(p: Policy, bundles: seq<string>, run: seq<Timed>, n: nat, atOpen: Supervised, d: Supervised)
    requires Orderly(p, bundles, run) && n <= |run| && atOpen == Run(p, bundles, run[..n]) && d == Run(p, bundles, run)
    ensures SilentSince(p, atOpen, d)
  {
    if atOpen.breaker.Some? {
      SilentWhileOpen(p, bundles, run, n);
    }
  }
}
