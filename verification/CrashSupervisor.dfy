/**
 Crash restarts of one user's resident instance: a sliding window over restart times, exponential
 backoff, plugin healing, and a circuit breaker that outlives a launch. `Supervised` is
 everything the spawner holds for one user; `LocalSpawner` keeps it in maps, one per concern.
 */
module CrashSupervisor {
  import opened Basics
  import opened PluginHeal

  type UserId = string

  datatype Policy = Policy(baseDelay: nat, maxDelay: nat, window: nat, max: nat, baseCooldown: nat, maxCooldown: nat)

  datatype Breaker = Breaker(openedAt: int, opens: nat)

  datatype Supervised = Supervised(
    current: Option<nat>,        // the instance in `mains`; it stays there after a crash
    alive: set<nat>,             // child processes that have not exited
    spawning: nat,               // spawns under way, still waiting for a port
    timers: map<nat, int>,       // pending restart timers, and when they are due
    armed: Option<nat>,          // the one `restartTimers` knows
    history: seq<int>,
    streak: nat,
    breaker: Option<Breaker>,
    bundles: seq<string>,        // the plugins of the user's profile
    patch: seq<string>,          // the lines of its patch file
    nextId: nat,
    log: seq<int>,               // when automatic restarts were decided
    heals: seq<int>)             // when a plugin was taken out

  const FRESH := Supervised(None, {}, 0, map[], None, [], 0, None, [], [], 0, [], [])

  // ----- the policy

  function PruneHistory(history: seq<int>, now: int, window: nat): seq<int> {
    if history == [] then []
    else
      var last := history[|history| - 1];
      PruneHistory(history[..|history| - 1], now, window) + if now - last < window then [last] else []
  }

  function BackoffMs(consecutive: nat, p: Policy): nat {
    Min(p.baseDelay * Pow2(Min(consecutive, 20)), p.maxDelay)
  }

  function CooldownMs(opens: nat, p: Policy): nat {
    Min(p.baseCooldown * Pow2(Max(1, Min(opens, 20)) - 1), p.maxCooldown)
  }

  predicate BreakerActive(b: Option<Breaker>, now: int, p: Policy) {
    b.Some? && now < b.value.openedAt + CooldownMs(b.value.opens, p)
  }

  datatype Decision = Restart(delay: nat, attempt: nat, windowRestarts: nat) | CircuitOpen(windowRestarts: nat)

  function DecideCrashAction(history: seq<int>, consecutive: nat, now: int, p: Policy): Decision {
    var inWindow := PruneHistory(history, now, p.window);
    if |inWindow| >= p.max then CircuitOpen(|inWindow|)
    else Restart(BackoffMs(consecutive, p), consecutive + 1, |inWindow| + 1)
  }

  // ----- events

  /** How the profile files behave while a plugin is taken out: the patch file is written last. */
  datatype ProfileIo = Works | Unreadable | PatchUnwritable

  datatype Event =
    | LaunchBegin(force: bool)          // the checks of a launch, up to its first await
    | PlaceTaken                        // a spawn got its port and takes the user's place
    | NoPort                            // a spawn found no port and gives up
    | Exit(id: nat, clean: bool, error: string, io: ProfileIo)
    | TimerFires(timer: nat)
    | StableTick(id: nat)
    | Install(plugin: string, patch: seq<string>)   // somebody adds a plugin to the profile
    | Stop
    | RestartMain

  function ResetCrashState(s: Supervised): Supervised {
    s.(history := [], streak := 0)
  }

  function Spawned(s: Supervised): Supervised {
    s.(current := Some(s.nextId), alive := s.alive + {s.nextId}, nextId := s.nextId + 1)
  }

  function Without(bundles: seq<string>, plugin: string): seq<string> {
    if bundles == [] then []
    else
      var last := bundles[|bundles| - 1];
      Without(bundles[..|bundles| - 1], plugin) + if last == plugin then [] else [last]
  }

  /** `tryHealPluginFailure`: the plugin an error names is taken out of the profile, if it is there. */
  predicate Heals(s: Supervised, culprit: Option<string>, io: ProfileIo) {
    culprit.Some? && culprit.value in s.bundles && io.Works?
  }

  function Healed(s: Supervised, culprit: Option<string>, io: ProfileIo): Supervised {
    if culprit.Some? && culprit.value in s.bundles && !io.Unreadable?
    then s.(bundles := Without(s.bundles, culprit.value),
            patch := if io.Works? then Patched(s.patch, culprit.value) else s.patch)
    else s
  }

  /** What `scheduleCrashRestart` does once healing is done: restart later, or open the circuit. */
  function Decided(p: Policy, c: Supervised, now: int): Supervised {
    match DecideCrashAction(c.history, c.streak, now, p)
    case CircuitOpen(_) =>
      ResetCrashState(c).(current := None,
                          breaker := Some(Breaker(now, (if c.breaker.Some? then c.breaker.value.opens else 0) + 1)))
    case Restart(_, _, _) =>
      c.(history := PruneHistory(c.history, now, p.window) + [now], streak := c.streak + 1, log := c.log + [now],
         timers := c.timers[c.nextId := now + BackoffMs(c.streak, p)], armed := Some(c.nextId), nextId := c.nextId + 1)
  }

  /** `scheduleCrashRestart` for the current instance. */
  function Crashed(p: Policy, s: Supervised, now: int, culprit: Option<string>, io: ProfileIo): Supervised {
    var h := Healed(s, culprit, io);
    var c := if Heals(s, culprit, io) then ResetCrashState(h).(heals := s.heals + [now]) else h;
    Decided(p, c, now)
  }

  /** Whether a launch passes its checks; if not it throws and changes nothing. */
  predicate LaunchAllowed(p: Policy, s: Supervised, force: bool, now: int) {
    s.current.None? && (force || !BreakerActive(s.breaker, now, p))
  }

  function Next(p: Policy, s: Supervised, e: Event, now: int): Supervised {
    match e
    case LaunchBegin(force) =>
      if LaunchAllowed(p, s, force, now)
      then ResetCrashState(s).(breaker := None, spawning := s.spawning + 1) else s
    case PlaceTaken => if s.spawning > 0 then Spawned(s.(spawning := s.spawning - 1)) else s
    case NoPort => if s.spawning > 0 then s.(spawning := s.spawning - 1) else s
    case Exit(id, clean, error, io) =>
      if id !in s.alive then s
      else
        var d := s.(alive := s.alive - {id});
        if s.current != Some(id) then d
        else if clean then d.(current := None)
        else Crashed(p, d, now, Culprit(error), io)
    case TimerFires(timer) =>
      if timer in s.timers && now >= s.timers[timer]
      then s.(timers := s.timers - {timer}, armed := None, spawning := s.spawning + 1) else s
    case StableTick(id) => if s.current == Some(id) && id in s.alive then s.(streak := 0) else s
    case Install(plugin, patch) => s.(bundles := s.bundles + [plugin], patch := patch)
    case Stop =>
      ResetCrashState(s).(current := None, armed := None,
                          timers := if s.armed.Some? then s.timers - {s.armed.value} else s.timers)
    case RestartMain => if s.current.None? then s else ResetCrashState(s).(spawning := s.spawning + 1)
  }

  // ----- runs nobody intervenes in

  datatype Timed = Timed(event: Event, now: int)

  function Run(p: Policy, bundles: seq<string>, run: seq<Timed>): Supervised {
    if run == [] then FRESH.(bundles := bundles)
    else
      var last := run[|run| - 1];
      Next(p, Run(p, bundles, run[..|run| - 1]), last.event, last.now)
  }

  /** No forced launch, no stop, no restart by hand, and an instance is never told to stop. */
  predicate Unattended(e: Event) {
    !(e.LaunchBegin? && e.force) && !e.Stop? && !e.RestartMain? && !(e.Exit? && e.clean)
  }

  /** The clock does not go back, and no launch passes its checks while another waits for its port. */
  predicate Orderly(p: Policy, bundles: seq<string>, run: seq<Timed>) {
    run == [] ||
    var init, last := run[..|run| - 1], run[|run| - 1];
    && Orderly(p, bundles, init)
    && Unattended(last.event)
    && (init != [] ==> init[|init| - 1].now <= last.now)
    && OneLaunch(p, Run(p, bundles, init), last.event, last.now)
  }

  predicate OneLaunch(p: Policy, s: Supervised, e: Event, now: int) {
    e.LaunchBegin? && LaunchAllowed(p, s, e.force, now) ==> s.spawning == 0
  }

  function Installs(run: seq<Timed>): nat {
    if run == [] then 0 else Installs(run[..|run| - 1]) + if run[|run| - 1].event.Install? then 1 else 0
  }

  // ----- counting times

  function CountFrom(s: seq<int>, lo: int): nat {
    if s == [] then 0 else CountFrom(s[..|s| - 1], lo) + if s[|s| - 1] >= lo then 1 else 0
  }

  function CountIn(s: seq<int>, lo: int, hi: int): nat {
    if s == [] then 0 else CountIn(s[..|s| - 1], lo, hi) + if lo <= s[|s| - 1] < hi then 1 else 0
  }

  predicate UpTo(s: seq<int>, now: int) {
    forall i :: 0 <= i < |s| ==> s[i] <= now
  }

  lemma CountSnoc(s: seq<int>, t: int, lo: int, hi: int)
    ensures CountFrom(s + [t], lo) == CountFrom(s, lo) + if t >= lo then 1 else 0
    ensures CountIn(s + [t], lo, hi) == CountIn(s, lo, hi) + if lo <= t < hi then 1 else 0
  {
    assert (s + [t])[..|s + [t]| - 1] == s;
  }

  lemma {:induction false} CountBounds(s: seq<int>, lo: int, hi: int)
    ensures CountIn(s, lo, hi) <= CountFrom(s, lo) <= |s|
    ensures UpTo(s, hi - 1) ==> CountIn(s, lo, hi) == CountFrom(s, lo)
    ensures UpTo(s, lo - 1) ==> CountFrom(s, lo) == 0
  {
    if s != [] {
      CountBounds(s[..|s| - 1], lo, hi);
    }
  }

  lemma {:induction false} PruneCounts(history: seq<int>, now: int, window: nat, lo: int)
    requires lo > now - window
    ensures CountFrom(PruneHistory(history, now, window), lo) == CountFrom(history, lo)
    ensures UpTo(history, now) ==> UpTo(PruneHistory(history, now, window), now)
    ensures |PruneHistory(history, now, window)| <= |history|
  {
    if history != [] {
      var init, last := history[..|history| - 1], history[|history| - 1];
      PruneCounts(init, now, window, lo);
      assert PruneHistory(init, now, window) + [] == PruneHistory(init, now, window);
      CountSnoc(PruneHistory(init, now, window), last, lo, lo);
    }
  }

  // ----- what every step of an orderly run keeps

  /** The interval length the promise is about. */
  function Span(p: Policy): nat {
    Min(p.window, CooldownMs(1, p))
  }

  /** Restarts that still matter are in the history, or a heal since then pays for them. */
  ghost predicate Accounted(p: Policy, s: Supervised, now: int) {
    forall lo :: lo > now - Span(p) ==> AccountAt(p, s.log, s.history, s.heals, lo)
  }

  predicate AccountAt(p: Policy, log: seq<int>, history: seq<int>, heals: seq<int>, lo: int) {
    CountFrom(log, lo) <= CountFrom(history, lo) + p.max * CountFrom(heals, lo)
  }

  /** In each interval every heal adds one budget of restarts, and nothing else does. */
  ghost predicate WithinBudget(p: Policy, s: Supervised) {
    forall lo :: BudgetAt(p, s.log, s.heals, lo)
  }

  predicate BudgetAt(p: Policy, log: seq<int>, heals: seq<int>, lo: int) {
    CountIn(log, lo, lo + Span(p)) <= p.max * (1 + CountIn(heals, lo, lo + Span(p)))
  }

  ghost predicate Inv(p: Policy, s: Supervised, now: int) {
    && UpTo(s.log, now) && UpTo(s.heals, now) && UpTo(s.history, now)
    && |s.history| <= p.max
    && Placed(s)
    && (s.breaker.None? ==> Accounted(p, s, now))
    && (s.breaker.Some? ==> s.breaker.value.opens == 1 && UpTo(s.log, s.breaker.value.openedAt))
    && WithinBudget(p, s)
  }

  /** At most one process, timer or spawn at a time, and none of them after the breaker opened. */
  ghost predicate Placed(s: Supervised) {
    && s.alive <= (if s.current.Some? then {s.current.value} else {})
    && s.timers.Keys == (if s.armed.Some? then {s.armed.value} else {})
    && s.spawning <= 1
    && (s.armed.Some? ==> s.current.Some? && s.alive == {} && s.spawning == 0)
    && (s.spawning == 1 ==> s.alive == {} && s.breaker.None?)
    && (s.breaker.Some? ==> s.current.None?)
    && (s.current.Some? ==> s.current.value < s.nextId)
    && (s.current.None? ==> s.history == [])
  }

  lemma {:induction false} WithoutShrinks(bundles: seq<string>, plugin: string)
    ensures |Without(bundles, plugin)| <= |bundles|
    ensures plugin in bundles ==> |Without(bundles, plugin)| < |bundles|
    ensures forall x :: x in Without(bundles, plugin) <==> x in bundles && x != plugin
  {
    if bundles != [] {
      WithoutShrinks(bundles[..|bundles| - 1], plugin);
      assert bundles == bundles[..|bundles| - 1] + [bundles[|bundles| - 1]];
    }
  }

  /** Time passing keeps the invariant. */
  lemma LaterKeepsInv(p: Policy, s: Supervised, before: int, now: int)
    requires Inv(p, s, before) && before <= now
    ensures Inv(p, s, now)
  {}

  lemma Times(m: nat, a: nat, b: nat)
    ensures m * (a + 1) == m * a + m
    ensures a <= b ==> m * a <= m * b
  {
    if a <= b {
      assert m * b == m * a + m * (b - a);
    }
  }

  lemma HealKeepsBooks(p: Policy, s: Supervised, now: int)
    requires UpTo(s.log, now) && UpTo(s.heals, now) && |s.history| <= p.max
    requires Accounted(p, s, now) && WithinBudget(p, s)
    ensures var d := ResetCrashState(s).(heals := s.heals + [now]);
            Accounted(p, d, now) && WithinBudget(p, d) && UpTo(d.heals, now)
  {
    var d := ResetCrashState(s).(heals := s.heals + [now]);
    forall lo | lo > now - Span(p)
      ensures AccountAt(p, d.log, d.history, d.heals, lo)
    {
      HealPays(p, s, now, lo);
    }
    forall lo
      ensures BudgetAt(p, d.log, d.heals, lo)
    {
      assert BudgetAt(p, s.log, s.heals, lo);
      HealAddsBudget(p, s, now, lo);
    }
  }

  /** A heal pays for the restarts that are forgotten with it. */
  lemma HealPays(p: Policy, s: Supervised, now: int, lo: int)
    requires |s.history| <= p.max && UpTo(s.log, now) && AccountAt(p, s.log, s.history, s.heals, lo)
    ensures AccountAt(p, s.log, [], s.heals + [now], lo)
  {
    CountSnoc(s.heals, now, lo, lo);
    CountBounds(s.history, lo, lo);
    CountBounds(s.log, lo, now + 1);
    CountBounds(s.log, now + 1, now + 1);
    Times(p.max, CountFrom(s.heals, lo), 0);
  }

  lemma HealAddsBudget(p: Policy, s: Supervised, now: int, lo: int)
    requires BudgetAt(p, s.log, s.heals, lo)
    ensures BudgetAt(p, s.log, s.heals + [now], lo)
  {
    var hi := lo + Span(p);
    CountSnoc(s.heals, now, lo, hi);
    MoreBudget(p.max, CountIn(s.log, lo, hi), CountIn(s.heals, lo, hi), CountIn(s.heals + [now], lo, hi));
  }

  lemma MoreBudget(m: nat, c: nat, a: nat, b: nat)
    requires c <= m * (1 + a) && a <= b
    ensures c <= m * (1 + b)
  {
    Times(m, 1 + a, 1 + b);
  }

  lemma RestartKeepsAccounts(p: Policy, s: Supervised, now: int)
    requires UpTo(s.log, now) && UpTo(s.history, now) && Accounted(p, s, now)
    requires |PruneHistory(s.history, now, p.window)| < p.max
    ensures var d := s.(history := PruneHistory(s.history, now, p.window) + [now], log := s.log + [now]);
            Accounted(p, d, now) && |d.history| <= p.max && UpTo(d.history, now) && UpTo(d.log, now)
  {
    var d := s.(history := PruneHistory(s.history, now, p.window) + [now], log := s.log + [now]);
    forall lo | lo > now - Span(p)
      ensures AccountAt(p, d.log, d.history, d.heals, lo)
    {
      assert AccountAt(p, s.log, s.history, s.heals, lo);
      CountSnoc(s.log, now, lo, lo);
      CountSnoc(PruneHistory(s.history, now, p.window), now, lo, lo);
      PruneCounts(s.history, now, p.window, lo);
    }
    PruneCounts(s.history, now, p.window, now - p.window + 1);
  }

  /** The intervals that hold the new restart are covered by the accounts, the others are as before. */
  lemma RestartKeepsBudget(p: Policy, s: Supervised, d: Supervised, now: int)
    requires WithinBudget(p, s) && d.log == s.log + [now] && d.heals == s.heals
    requires Accounted(p, d, now) && |d.history| <= p.max && UpTo(d.log, now) && UpTo(d.heals, now)
    ensures WithinBudget(p, d)
  {
    forall lo
      ensures BudgetAt(p, d.log, d.heals, lo)
    {
      assert BudgetAt(p, s.log, s.heals, lo);
      if lo <= now < lo + Span(p) {
        assert AccountAt(p, d.log, d.history, d.heals, lo);
        CountBounds(d.log, lo, lo + Span(p));
        CountBounds(d.heals, lo, lo + Span(p));
        CountBounds(d.history, lo, lo + Span(p));
        Times(p.max, CountFrom(d.heals, lo), 0);
      } else {
        CountSnoc(s.log, now, lo, lo + Span(p));
      }
    }
  }

  lemma CrashKeepsInv(p: Policy, s: Supervised, now: int, culprit: Option<string>, io: ProfileIo)
    requires Inv(p, s, now) && s.current.Some? && s.alive == {} && s.armed.None? && s.spawning == 0
    ensures Inv(p, Crashed(p, s, now, culprit, io), now)
  {
    var h := Healed(s, culprit, io);
    var c := if Heals(s, culprit, io) then ResetCrashState(h).(heals := s.heals + [now]) else h;
    if Heals(s, culprit, io) {
      HealKeepsBooks(p, h, now);
    }
    assert Accounted(p, c, now) && WithinBudget(p, c) && |c.history| <= p.max && UpTo(c.history, now);
    DecisionKeepsInv(p, c, now);
  }

  lemma DecisionKeepsInv(p: Policy, c: Supervised, now: int)
    requires Inv(p, c, now) && c.current.Some? && c.alive == {} && c.armed.None? && c.spawning == 0
    ensures Inv(p, Decided(p, c, now), now)
  {
    if DecideCrashAction(c.history, c.streak, now, p).Restart? {
      RestartKeepsAccounts(p, c, now);
      var d := c.(history := PruneHistory(c.history, now, p.window) + [now], log := c.log + [now]);
      RestartKeepsBudget(p, c, d, now);
      var r := Decided(p, c, now);
      assert r.log == d.log && r.heals == d.heals && r.history == d.history;
      assert Accounted(p, r, now) && WithinBudget(p, r);
    } else {
      var o := Decided(p, c, now);
      assert o.log == c.log && o.heals == c.heals;
      assert WithinBudget(p, o);
    }
  }

  lemma LaunchKeepsInv(p: Policy, s: Supervised, now: int)
    requires Inv(p, s, now) && s.spawning == 0 && LaunchAllowed(p, s, false, now)
    ensures Inv(p, Next(p, s, LaunchBegin(false), now), now)
  {
    var d := Next(p, s, LaunchBegin(false), now);
    forall lo | lo > now - Span(p)
      ensures AccountAt(p, d.log, d.history, d.heals, lo)
    {
      CountBounds(s.log, lo, lo);
    }
    assert WithinBudget(p, d);
  }

  lemma NextKeepsInv(p: Policy, s: Supervised, e: Event, now: int)
    requires Inv(p, s, now) && Unattended(e) && OneLaunch(p, s, e, now)
    ensures Inv(p, Next(p, s, e, now), now)
  {
    var d := Next(p, s, e, now);
    match e
    case LaunchBegin(force) => if LaunchAllowed(p, s, force, now) { LaunchKeepsInv(p, s, now); }
    case PlaceTaken => SameBooks(p, s, d, now);
    case NoPort => SameBooks(p, s, d, now);
    case Exit(id, clean, error, io) =>
      if id in s.alive && s.current == Some(id) {
        var a := s.(alive := s.alive - {id});
        SameBooks(p, s, a, now);
        CrashKeepsInv(p, a, now, Culprit(error), io);
      }
    case TimerFires(timer) => SameBooks(p, s, d, now);
    case StableTick(id) => SameBooks(p, s, d, now);
    case Install(_, _) => SameBooks(p, s, d, now);
  }

  lemma SameBooks(p: Policy, s: Supervised, d: Supervised, now: int)
    requires d.log == s.log && d.heals == s.heals && d.history == s.history
    ensures Accounted(p, s, now) ==> Accounted(p, d, now)
    ensures WithinBudget(p, s) ==> WithinBudget(p, d)
  {}

  lemma {:induction false} RunKeepsInv(p: Policy, bundles: seq<string>, run: seq<Timed>, now: int)
    requires Orderly(p, bundles, run) && (run != [] ==> run[|run| - 1].now <= now)
    ensures Inv(p, Run(p, bundles, run), now)
  {
    if run == [] {
      assert forall lo :: BudgetAt(p, [], [], lo);
    } else {
      var init, last := run[..|run| - 1], run[|run| - 1];
      RunKeepsInv(p, bundles, init, last.now);
      NextKeepsInv(p, Run(p, bundles, init), last.event, last.now);
      LaterKeepsInv(p, Run(p, bundles, run), last.now, now);
    }
  }

  // ----- the promises

  /**
   However many implicit launches are attempted, any half-open interval as long as the crash
   window and the first cooldown holds at most one budget of restarts, and one more for each
   plugin taken out in it.
   */
  lemma CrashesAreBudgeted(p: Policy, bundles: seq<string>, run: seq<Timed>, lo: int)
    requires Orderly(p, bundles, run)
    ensures var s := Run(p, bundles, run);
            CountIn(s.log, lo, lo + Span(p)) <= p.max * (1 + CountIn(s.heals, lo, lo + Span(p)))
  {
    RunKeepsInv(p, bundles, run, if run == [] then 0 else run[|run| - 1].now);
    assert BudgetAt(p, Run(p, bundles, run).log, Run(p, bundles, run).heals, lo);
  }

  /** Each heal takes at least one plugin out: over a whole run there are no more heals than plugins. */
  lemma {:induction false} HealsUsePluginsUp(p: Policy, bundles: seq<string>, run: seq<Timed>)
    ensures var s := Run(p, bundles, run); |s.heals| + |s.bundles| <= |bundles| + Installs(run)
  {
    if run != [] {
      var init, last := run[..|run| - 1], run[|run| - 1];
      HealsUsePluginsUp(p, bundles, init);
      HealStep(p, Run(p, bundles, init), last.event, last.now);
    }
  }

  lemma HealStep(p: Policy, s: Supervised, e: Event, now: int)
    ensures var d := Next(p, s, e, now);
            |d.heals| + |d.bundles| <= |s.heals| + |s.bundles| + if e.Install? then 1 else 0
  {
    if e.Exit? && Culprit(e.error).Some? {
      WithoutShrinks(s.bundles, Culprit(e.error).value);
    }
  }

  /**
   A heal leaves no trace of the plugin: neither the bundle list nor the patch names it, and a second
   heal finds nothing.
   */
  lemma HealedIsGone(s: Supervised, culprit: Option<string>, io: ProfileIo)
    requires Heals(s, culprit, io)
    ensures var h := Healed(s, culprit, io);
            && culprit.value !in h.bundles && (forall l :: l in h.patch ==> !Names(l, culprit.value))
            && Patched(h.patch, culprit.value) == h.patch
  {
    PatchedTwice(s.patch, culprit.value);
    WithoutShrinks(s.bundles, culprit.value);
    PatchedForgets(s.patch, culprit.value);
  }

  /** Without new plugins, no such interval ever holds more than one budget per plugin and one. */
  lemma CrashesAreBudgetedByPlugins(p: Policy, bundles: seq<string>, run: seq<Timed>, lo: int)
    requires Orderly(p, bundles, run) && Installs(run) == 0
    ensures CountIn(Run(p, bundles, run).log, lo, lo + Span(p)) <= p.max * (1 + |bundles|)
  {
    var s := Run(p, bundles, run);
    CrashesAreBudgeted(p, bundles, run, lo);
    HealsUsePluginsUp(p, bundles, run);
    CountBounds(s.heals, lo, lo + Span(p));
    Times(p.max, 1 + CountIn(s.heals, lo, lo + Span(p)), 1 + |bundles|);
  }

  /** In such a run the user never has two processes, and a pending restart or spawn means there is none. */
  lemma {:induction false} OneProcessAtATime(p: Policy, bundles: seq<string>, run: seq<Timed>)
    requires Orderly(p, bundles, run)
    ensures var s := Run(p, bundles, run);
            |s.alive| + |s.timers| + s.spawning <= 1
  {
    RunKeepsInv(p, bundles, run, if run == [] then 0 else run[|run| - 1].now);
    var s := Run(p, bundles, run);
    if s.current.Some? {
      assert s.alive == {} || s.alive == {s.current.value};
    }
  }

  /** The breaker is forgotten when its cooldown expires, so it never counts past one: the cooldown does not grow. */
  lemma CooldownNeverGrows(p: Policy, bundles: seq<string>, run: seq<Timed>)
    requires Orderly(p, bundles, run) && Run(p, bundles, run).breaker.Some?
    ensures Run(p, bundles, run).breaker.value.opens == 1
    ensures CooldownMs(Run(p, bundles, run).breaker.value.opens, p) == Min(p.baseCooldown, p.maxCooldown)
  {
    RunKeepsInv(p, bundles, run, if run == [] then 0 else run[|run| - 1].now);
  }

  /** Once the circuit opened, no restart is decided before the cooldown is over. */
  lemma {:induction false} SilentWhileOpen(p: Policy, bundles: seq<string>, run: seq<Timed>, n: nat)
    requires Orderly(p, bundles, run) && n <= |run| && Run(p, bundles, run[..n]).breaker.Some?
    ensures var atOpen, s := Run(p, bundles, run[..n]), Run(p, bundles, run);
            var until := atOpen.breaker.value.openedAt + CooldownMs(1, p);
            && atOpen.log <= s.log
            && (forall i :: |atOpen.log| <= i < |s.log| ==> s.log[i] >= until)
            && ((s.breaker == atOpen.breaker && s.log == atOpen.log) || (run != [] && run[|run| - 1].now >= until))
  {
    if n == |run| {
      assert run[..n] == run;
    } else {
      var init, last := run[..|run| - 1], run[|run| - 1];
      assert init[..n] == run[..n];
      SilentWhileOpen(p, bundles, init, n);
      RunKeepsInv(p, bundles, init, last.now);
      LogStep(p, Run(p, bundles, init), last.event, last.now);
    }
  }

  lemma LogStep(p: Policy, s: Supervised, e: Event, now: int)
    requires Inv(p, s, now) && Unattended(e)
    ensures var d := Next(p, s, e, now);
            && (d.log == s.log || d.log == s.log + [now])
            && (s.breaker.Some? ==>
                  (d.log == s.log && (d.breaker == s.breaker || now >= s.breaker.value.openedAt + CooldownMs(1, p))))
  {}

  /** The delay doubles with each consecutive crash until it reaches the cap, and stays there. */
  lemma BackoffDoublesToTheCap(n: nat, p: Policy)
    ensures BackoffMs(n, p) <= BackoffMs(n + 1, p) <= p.maxDelay
    ensures n < 20 && BackoffMs(n + 1, p) < p.maxDelay ==> BackoffMs(n + 1, p) == 2 * BackoffMs(n, p)
    ensures BackoffMs(n, p) == p.maxDelay ==> BackoffMs(n + 1, p) == p.maxDelay
  {
    var k := Min(n, 20);
    var doubled := p.baseDelay * Pow2(k);
    assert p.baseDelay * (2 * Pow2(k)) == 2 * doubled;
  }

  // ----- the object

  function Find<K, V>(m: map<K, V>, k: K): Option<V> {
    if k in m then Some(m[k]) else None
  }

  /** The maps agree on every other key. */
  ghost predicate Same<K(!new), V>(m: map<K, V>, n: map<K, V>, k: K) {
    forall other :: other != k ==> Find(m, other) == Find(n, other)
  }

  function Or<V>(o: Option<V>, default: V): V {
    if o.Some? then o.value else default
  }

  datatype LaunchResult = Begun | AlreadyRunning | BreakerOpen(until: int, opens: nat)

  /** The spawner: one map per concern, keyed by user. */
  class LocalSpawner {
    const policy: Policy
    var mains: map<UserId, nat>
    var children: map<UserId, set<nat>>
    var spawning: map<UserId, nat>
    var pending: map<UserId, map<nat, int>>
    var restartTimers: map<UserId, nat>
    var crashHistory: map<UserId, seq<int>>
    var crashStreak: map<UserId, nat>
    var breaker: map<UserId, Breaker>
    var profiles: map<UserId, seq<string>>
    var patches: map<UserId, seq<string>>
    var ids: map<UserId, nat>
    ghost var log: map<UserId, seq<int>>
    ghost var heals: map<UserId, seq<int>>

    /** Everything held for one user; a missing entry is the empty one. */
    ghost function View(user: UserId): Supervised
      reads this
    {
      Supervised(Find(mains, user), Or(Find(children, user), {}), Or(Find(spawning, user), 0),
                 Or(Find(pending, user), map[]), Find(restartTimers, user), Or(Find(crashHistory, user), []),
                 Or(Find(crashStreak, user), 0), Find(breaker, user), Or(Find(profiles, user), []),
                 Or(Find(patches, user), []), Or(Find(ids, user), 0), Or(Find(log, user), []),
                   Or(Find(heals, user), []))
    }

    /** Nothing held for any other user changes. */
    twostate predicate OthersKept(user: UserId)
      reads this
    {
      && Same(old(mains), mains, user) && Same(old(children), children, user) && Same(old(spawning), spawning, user)
      && Same(old(pending), pending, user) && Same(old(restartTimers), restartTimers, user)
      && Same(old(crashHistory), crashHistory, user) && Same(old(crashStreak), crashStreak, user)
      && Same(old(breaker), breaker, user) && Same(old(profiles), profiles, user) &&
         Same(old(patches), patches, user) && Same(old(ids), ids, user)
      && Same(old(log), log, user) && Same(old(heals), heals, user)
    }

    constructor (policy: Policy)
      ensures this.policy == policy && forall user :: View(user) == FRESH
    {
      this.policy := policy;
      mains, children, spawning, pending, restartTimers := map[], map[], map[], map[], map[];
      crashHistory, crashStreak, breaker, profiles, patches := map[], map[], map[], map[], map[];
      ids, log, heals := map[], map[], map[];
    }

    method ForgetCrashes(user: UserId)
      modifies `crashHistory, `crashStreak
      ensures View(user) == ResetCrashState(old(View(user)))
      ensures OthersKept(user)
    {
      crashHistory := crashHistory - {user};
      crashStreak := crashStreak - {user};
    }

    method Occupy(user: UserId)
      modifies `mains, `children, `ids
      ensures View(user) == Spawned(old(View(user)))
      ensures OthersKept(user)
    {
      var id := Or(Find(ids, user), 0);
      mains := mains[user := id];
      children := children[user := Or(Find(children, user), {}) + {id}];
      ids := ids[user := id + 1];
    }

    method Launch(user: UserId, force: bool, now: int) returns (res: LaunchResult)
      modifies `breaker, `crashHistory, `crashStreak, `spawning
      ensures View(user) == Next(policy, old(View(user)), LaunchBegin(force), now)
      ensures OthersKept(user)
      ensures res.Begun? <==> LaunchAllowed(policy, old(View(user)), force, now)
      ensures res.BreakerOpen? ==> now < res.until && old(View(user)).breaker.Some?
    {
      if user in mains { return AlreadyRunning; }
      if force {
        breaker := breaker - {user};
      } else if user in breaker {
        var b := breaker[user];
        if BreakerActive(Some(b), now, policy) {
          return BreakerOpen(b.openedAt + CooldownMs(b.opens, policy), b.opens);
        }
        breaker := breaker - {user};
      }
      ForgetCrashes(user);
      BeginSpawn(user);
      res := Begun;
    }

    method BeginSpawn(user: UserId)
      modifies `spawning
      ensures View(user) == old(View(user)).(spawning := old(View(user)).spawning + 1)
      ensures OthersKept(user)
    {
      spawning := spawning[user := Or(Find(spawning, user), 0) + 1];
    }

    /** A spawn under way gets its port: the instance takes the user's place, whoever holds it. */
    method PortFound(user: UserId)
      modifies `spawning, `mains, `children, `ids
      ensures View(user) == Next(policy, old(View(user)), PlaceTaken, 0)
      ensures OthersKept(user)
    {
      if user in spawning && spawning[user] > 0 {
        spawning := spawning[user := spawning[user] - 1];
        Occupy(user);
      }
    }

    method TryHealPluginFailure(user: UserId, error: string, io: ProfileIo) returns (healed: bool)
      modifies `profiles, `patches
      ensures healed == Heals(old(View(user)), Culprit(error), io) &&
              View(user) == Healed(old(View(user)), Culprit(error), io)
      ensures OthersKept(user)
    {
      var culprit := Culprit(error);
      if culprit.None? || user !in profiles || culprit.value !in profiles[user] || io.Unreadable? { return false; }
      profiles := profiles[user := Without(profiles[user], culprit.value)];
      if io.PatchUnwritable? { return false; }
      var out := CleanPatch(Or(Find(patches, user), []), culprit.value);
      patches := patches[user := out];
      healed := true;
    }

    method ScheduleCrashRestart(user: UserId, error: string, io: ProfileIo, now: int)
      modifies this
      ensures View(user) == Crashed(policy, old(View(user)), now, Culprit(error), io)
      ensures OthersKept(user)
    {
      var healed := TryHealPluginFailure(user, error, io);
      if healed {
        ForgetCrashes(user);
        heals := heals[user := Or(Find(heals, user), []) + [now]];
      }
      Decide(user, now);
    }

    method Decide(user: UserId, now: int)
      modifies `mains, `crashHistory, `crashStreak, `breaker, `pending, `restartTimers, `ids, `log
      ensures View(user) == Decided(policy, old(View(user)), now)
      ensures OthersKept(user)
    {
      var history, streak := Or(Find(crashHistory, user), []), Or(Find(crashStreak, user), 0);
      var decision := DecideCrashAction(history, streak, now, policy);
      if decision.CircuitOpen? {
        OpenCircuit(user, now);
      } else {
        RecordRestart(user, PruneHistory(history, now, policy.window), streak, now);
        ArmTimer(user, now + decision.delay);
      }
    }

    method OpenCircuit(user: UserId, now: int)
      modifies `mains, `crashHistory, `crashStreak, `breaker
      ensures View(user) == var was := old(View(user));
              var before := if was.breaker.Some? then was.breaker.value.opens else 0;
              ResetCrashState(was).(current := None, breaker := Some(Breaker(now, before + 1)))
      ensures OthersKept(user)
    {
      mains := mains - {user};
      ForgetCrashes(user);
      breaker := breaker[user := Breaker(now, (if user in breaker then breaker[user].opens else 0) + 1)];
    }

    method RecordRestart(user: UserId, recent: seq<int>, streak: nat, now: int)
      modifies `crashHistory, `crashStreak, `log
      ensures View(user) == var was := old(View(user));
              was.(history := recent + [now], streak := streak + 1, log := was.log + [now])
      ensures OthersKept(user)
    {
      crashHistory := crashHistory[user := recent + [now]];
      crashStreak := crashStreak[user := streak + 1];
      log := log[user := Or(Find(log, user), []) + [now]];
    }

    method ArmTimer(user: UserId, due: int)
      modifies `pending, `restartTimers, `ids
      ensures View(user) == var was := old(View(user));
              was.(timers := was.timers[was.nextId := due], armed := Some(was.nextId), nextId := was.nextId + 1)
      ensures OthersKept(user)
    {
      var timer := Or(Find(ids, user), 0);
      pending := pending[user := Or(Find(pending, user), map[]) [timer := due]];
      restartTimers := restartTimers[user := timer];
      ids := ids[user := timer + 1];
    }

    method OnExit(user: UserId, id: nat, clean: bool, error: string, io: ProfileIo, now: int)
      modifies this
      ensures View(user) == Next(policy, old(View(user)), Exit(id, clean, error, io), now)
      ensures OthersKept(user)
    {
      if user !in children || id !in children[user] { return; }
      children := children[user := children[user] - {id}];
      if user !in mains || mains[user] != id { return; }
      if clean {
        mains := mains - {user};
      } else {
        ScheduleCrashRestart(user, error, io, now);
      }
    }

    method OnTimer(user: UserId, timer: nat, now: int)
      modifies `pending, `restartTimers, `spawning
      ensures View(user) == Next(policy, old(View(user)), TimerFires(timer), now)
      ensures OthersKept(user)
    {
      if user !in pending || timer !in pending[user] || now < pending[user][timer] { return; }
      pending := pending[user := pending[user] - {timer}];
      restartTimers := restartTimers - {user};
      BeginSpawn(user);
    }

    method OnStable(user: UserId, id: nat)
      modifies `crashStreak
      ensures View(user) == Next(policy, old(View(user)), StableTick(id), 0)
      ensures OthersKept(user)
    {
      if user in mains && mains[user] == id && user in children && id in children[user] {
        crashStreak := crashStreak - {user};
      }
    }

    method StopUser(user: UserId)
      modifies `pending, `restartTimers, `mains, `crashHistory, `crashStreak
      ensures View(user) == Next(policy, old(View(user)), Stop, 0)
      ensures OthersKept(user)
    {
      CancelRestart(user);
      mains := mains - {user};
      ForgetCrashes(user);
    }

    method CancelRestart(user: UserId)
      modifies `pending, `restartTimers
      ensures var s := old(View(user));
              View(user) == s.(armed := None,
                               timers := if s.armed.Some? then s.timers - {s.armed.value} else s.timers)
      ensures OthersKept(user)
    {
      if user in restartTimers {
        pending := pending[user := Or(Find(pending, user), map[]) - {restartTimers[user]}];
        restartTimers := restartTimers - {user};
      }
    }

    method RestartMainOf(user: UserId)
      modifies `spawning, `crashHistory, `crashStreak
      ensures View(user) == Next(policy, old(View(user)), RestartMain, 0)
      ensures OthersKept(user)
    {
      if user !in mains { return; }
      ForgetCrashes(user);
      BeginSpawn(user);
    }
  }
}
