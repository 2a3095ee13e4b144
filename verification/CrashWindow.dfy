/**
 Why a crash opens the circuit or is followed by a restart, and when that restart is due: decided by
 the restarts of the run itself, over every run whose clock does not go back, attended or not.
 */
module CrashWindow {
  import opened Basics
  import opened PluginHeal
  import opened CrashSupervisor

  /** The clock does not go back. */
  predicate Forward(run: seq<Timed>) {
    forall i, j :: 0 <= i < j < |run| ==> run[i].now <= run[j].now
  }

  /** The current instance exits without being told to. */
  predicate IsCrash(s: Supervised, e: Event) {
    e.Exit? && e.id in s.alive && s.current == Some(e.id) && !e.clean
  }

  predicate TakesPluginOut(s: Supervised, e: Event) {
    IsCrash(s, e) && Culprit(e.error).Some? && Culprit(e.error).value in s.bundles && e.io.Works?
  }

  /** What clears the counters before the event's own restart: a launch that passes, a heal, or somebody's hand. */
  predicate Clears(p: Policy, s: Supervised, e: Event, now: int) {
    || (e.LaunchBegin? && LaunchAllowed(p, s, e.force, now))
    || TakesPluginOut(s, e)
    || e.Stop?
    || (e.RestartMain? && s.current.Some?)
  }

  /** A crash after which no restart is decided: the circuit opens, and the counters are cleared. */
  predicate GivesUp(p: Policy, s: Supervised, e: Event, now: int) {
    IsCrash(s, e) && Next(p, s, e, now).log == s.log
  }

  /** How many restarts had been decided when the counters were last cleared. */
  function ClearedAt(p: Policy, bundles: seq<string>, run: seq<Timed>): nat {
    if run == [] then 0
    else
      var init, last := run[..|run| - 1], run[|run| - 1];
      var s := Run(p, bundles, init);
      if Clears(p, s, last.event, last.now) || GivesUp(p, s, last.event, last.now) then |s.log|
      else ClearedAt(p, bundles, init)
  }

  /** How many restarts had been decided when the backoff last started anew: then, or at a stable tick since. */
  function AnewAt(p: Policy, bundles: seq<string>, run: seq<Timed>): nat {
    if run == [] then 0
    else
      var init, last := run[..|run| - 1], run[|run| - 1];
      var s := Run(p, bundles, init);
      if Clears(p, s, last.event, last.now) || GivesUp(p, s, last.event, last.now)
         || (last.event.StableTick? && s.current == Some(last.event.id) && last.event.id in s.alive)
      then |s.log|
      else AnewAt(p, bundles, init)
  }

  /** Restarts decided less than a window ago. */
  function Recent(times: seq<int>, now: int, window: nat): nat {
    if times == [] then 0
    else Recent(times[..|times| - 1], now, window) + if now - times[|times| - 1] < window then 1 else 0
  }

  lemma RecentSnoc(times: seq<int>, t: int, now: int, window: nat)
    ensures Recent(times + [t], now, window) == Recent(times, now, window) + if now - t < window then 1 else 0
  {
    assert (times + [t])[..|times + [t]| - 1] == times;
  }

  /** Pruning leaves exactly the recent ones, and none that will be recent later is lost. */
  lemma {:induction false} PruneIsRecent(history: seq<int>, now: int, window: nat, later: int)
    requires now <= later
    ensures |PruneHistory(history, now, window)| == Recent(history, now, window)
    ensures Recent(PruneHistory(history, now, window), later, window) == Recent(history, later, window)
  {
    if history != [] {
      var init, last := history[..|history| - 1], history[|history| - 1];
      PruneIsRecent(init, now, window, later);
      RecentSnoc(PruneHistory(init, now, window), last, later, window);
      assert PruneHistory(init, now, window) + [] == PruneHistory(init, now, window);
    }
  }

  /** At any time from now on the history tells how many restarts since the last clearing are recent. */
  ghost predicate Faithful(p: Policy, s: Supervised, now: int, cleared: nat, anew: nat) {
    && cleared <= |s.log| && anew <= |s.log| && s.streak == |s.log| - anew
    && forall later :: later >= now ==> SameRecent(p, s, later, cleared)
  }

  predicate SameRecent(p: Policy, s: Supervised, later: int, cleared: nat)
    requires cleared <= |s.log|
  {
    Recent(s.history, later, p.window) == Recent(s.log[cleared..], later, p.window)
  }

  lemma ClearedIsFaithful(p: Policy, s: Supervised, now: int)
    requires s.history == [] && s.streak == 0
    ensures Faithful(p, s, now, |s.log|, |s.log|)
  {
    assert s.log[|s.log|..] == [];
  }

  lemma SameCounters(p: Policy, s: Supervised, d: Supervised, before: int, now: int, cleared: nat, anew: nat)
    requires Faithful(p, s, before, cleared, anew) && before <= now
    requires d.log == s.log && d.history == s.history && d.streak == s.streak
    ensures Faithful(p, d, now, cleared, anew)
  {
    forall later | later >= now ensures SameRecent(p, d, later, cleared) {
      assert SameRecent(p, s, later, cleared);
    }
  }

  lemma TickIsFaithful(p: Policy, s: Supervised, d: Supervised, before: int, now: int, cleared: nat, anew: nat)
    requires Faithful(p, s, before, cleared, anew) && before <= now && d == s.(streak := 0)
    ensures Faithful(p, d, now, cleared, |s.log|)
  {
    forall later | later >= now ensures SameRecent(p, d, later, cleared) {
      assert SameRecent(p, s, later, cleared);
    }
  }

  lemma RestartIsFaithful(p: Policy, s: Supervised, d: Supervised, before: int, now: int, cleared: nat, anew: nat)
    requires Faithful(p, s, before, cleared, anew) && before <= now
    requires d.log == s.log + [now] && d.streak == s.streak + 1
    requires d.history == PruneHistory(s.history, now, p.window) + [now]
    ensures Faithful(p, d, now, cleared, anew)
  {
    forall later | later >= now ensures SameRecent(p, d, later, cleared) {
      assert SameRecent(p, s, later, cleared);
      assert d.log[cleared..] == s.log[cleared..] + [now];
      PruneIsRecent(s.history, now, p.window, later);
      RecentSnoc(PruneHistory(s.history, now, p.window), now, later, p.window);
      RecentSnoc(s.log[cleared..], now, later, p.window);
    }
  }

  /** The recent restarts a crash is judged by: none if it takes a plugin out. */
  function Judged(p: Policy, s: Supervised, e: Event, now: int, cleared: nat): nat
    requires cleared <= |s.log|
  {
    if TakesPluginOut(s, e) then 0 else Recent(s.log[cleared..], now, p.window)
  }

  lemma DecisionIs(p: Policy, c: Supervised, now: int)
    ensures var d := Decided(p, c, now);
            if Recent(c.history, now, p.window) >= p.max
            then d.log == c.log && d.history == [] && d.streak == 0 && d.current.None?
                 && d.breaker.Some? && d.breaker.value.openedAt == now && d.timers == c.timers
            else && d.log == c.log + [now] && d.history == PruneHistory(c.history, now, p.window) + [now]
                 && d.streak == c.streak + 1 && d.breaker == c.breaker && d.current == c.current
                 && d.timers == c.timers[c.nextId := now + BackoffMs(c.streak, p)] && d.armed == Some(c.nextId)
  {
    PruneIsRecent(c.history, now, p.window, now);
  }

  /** The base delay, doubled up to twenty times and capped. */
  function Delay(p: Policy, restarts: nat): nat {
    var d := p.baseDelay * Pow2(if restarts < 20 then restarts else 20);
    if d < p.maxDelay then d else p.maxDelay
  }

  /** The circuit opens, or one restart is decided. */
  predicate CrashOutcome(p: Policy, s: Supervised, d: Supervised, e: Event, now: int, cleared: nat, anew: nat)
    requires cleared <= |s.log| && anew <= |s.log|
  {
    if Judged(p, s, e, now, cleared) >= p.max
    then d.log == s.log && d.current.None? && d.breaker.Some? && d.breaker.value.openedAt == now && d.timers == s.timers
    else && d.log == s.log + [now] && d.breaker == s.breaker && d.current == s.current && d.armed == Some(s.nextId)
         && d.timers == s.timers[s.nextId := now + Delay(p, if TakesPluginOut(s, e) then 0 else |s.log| - anew)]
  }

  /** What a crash does, by the restarts since the counters were cleared. */
  /** The state in which a crash is decided: a plugin taken out has cleared the counters. */
  function BeforeDecision(s: Supervised, e: Event, now: int): (c: Supervised)
    requires IsCrash(s, e)
    ensures c.log == s.log && c.timers == s.timers && c.nextId == s.nextId && c.breaker == s.breaker
    ensures c.current == s.current
    ensures TakesPluginOut(s, e) ==> c.history == [] && c.streak == 0
    ensures !TakesPluginOut(s, e) ==> c.history == s.history && c.streak == s.streak
  {
    var a := s.(alive := s.alive - {e.id});
    var h := Healed(a, Culprit(e.error), e.io);
    if TakesPluginOut(s, e) then ResetCrashState(h).(heals := a.heals + [now]) else h
  }

  lemma CrashIs(p: Policy, s: Supervised, e: Event, before: int, now: int, cleared: nat, anew: nat)
    requires IsCrash(s, e) && Faithful(p, s, before, cleared, anew) && before <= now
    ensures var d := Next(p, s, e, now);
            && CrashOutcome(p, s, d, e, now, cleared, anew)
            && (if Judged(p, s, e, now, cleared) >= p.max then d.history == [] && d.streak == 0
                else if TakesPluginOut(s, e) then d.history == [now] && d.streak == 1
                else d.history == PruneHistory(s.history, now, p.window) + [now] && d.streak == s.streak + 1)
  {
    assert SameRecent(p, s, now, cleared);
    var c := BeforeDecision(s, e, now);
    assert Next(p, s, e, now) == Decided(p, c, now);
    assert PruneHistory([], now, p.window) == [] && Recent([], now, p.window) == 0;
    DecisionIs(p, c, now);
  }

  lemma CrashKeepsFaith(p: Policy, s: Supervised, e: Event, before: int, now: int, cleared: nat, anew: nat)
    requires IsCrash(s, e) && Faithful(p, s, before, cleared, anew) && before <= now
    ensures var d := Next(p, s, e, now);
            if Clears(p, s, e, now) || GivesUp(p, s, e, now) then Faithful(p, d, now, |s.log|, |s.log|)
            else Faithful(p, d, now, cleared, anew)
  {
    var d := Next(p, s, e, now);
    CrashIs(p, s, e, before, now, cleared, anew);
    if Judged(p, s, e, now, cleared) >= p.max {
      ClearedIsFaithful(p, d, now);
    } else if TakesPluginOut(s, e) {
      var c := s.(history := [], streak := 0);
      ClearedIsFaithful(p, c, now);
      assert PruneHistory([], now, p.window) + [now] == [now];
      RestartIsFaithful(p, c, d, now, now, |s.log|, |s.log|);
    } else {
      RestartIsFaithful(p, s, d, before, now, cleared, anew);
    }
  }

  lemma NextKeepsFaith(p: Policy, s: Supervised, e: Event, before: int, now: int, cleared: nat, anew: nat)
    requires Faithful(p, s, before, cleared, anew) && before <= now
    ensures var d := Next(p, s, e, now);
            if Clears(p, s, e, now) || GivesUp(p, s, e, now) then Faithful(p, d, now, |s.log|, |s.log|)
            else if e.StableTick? && s.current == Some(e.id) && e.id in s.alive
              then Faithful(p, d, now, cleared, |s.log|)
            else Faithful(p, d, now, cleared, anew)
  {
    var d := Next(p, s, e, now);
    if IsCrash(s, e) {
      CrashKeepsFaith(p, s, e, before, now, cleared, anew);
    } else if Clears(p, s, e, now) {
      ClearedIsFaithful(p, d, now);
    } else if e.StableTick? && s.current == Some(e.id) && e.id in s.alive {
      TickIsFaithful(p, s, d, before, now, cleared, anew);
    } else {
      SameCounters(p, s, d, before, now, cleared, anew);
    }
  }

  lemma {:induction false} RunIsFaithful(p: Policy, bundles: seq<string>, run: seq<Timed>, now: int)
    requires Forward(run) && (run != [] ==> run[|run| - 1].now <= now)
    ensures Faithful(p, Run(p, bundles, run), now, ClearedAt(p, bundles, run), AnewAt(p, bundles, run))
  {
    if run == [] {
      ClearedIsFaithful(p, Run(p, bundles, []), now);
    } else {
      var init, last := run[..|run| - 1], run[|run| - 1];
      RunIsFaithful(p, bundles, init, last.now);
      NextKeepsFaith(p, Run(p, bundles, init), last.event, last.now, last.now, ClearedAt(p, bundles, init),
                     AnewAt(p, bundles, init));
      SameCounters(p, Run(p, bundles, run), Run(p, bundles, run), last.now, now, ClearedAt(p, bundles, run),
                   AnewAt(p, bundles, run));
    }
  }

  /**
   After every run a crash opens the circuit exactly if as many restarts as the budget allows were
   decided less than a window ago and since the counters were cleared; a crash that takes a plugin
   out clears them first. Otherwise one restart is decided, due after a delay that doubles with each
   restart since the backoff started anew.
   */
  lemma OpensExactly(p: Policy, bundles: seq<string>, run: seq<Timed>, e: Event, now: int)
    requires Forward(run) && (run != [] ==> run[|run| - 1].now <= now) && IsCrash(Run(p, bundles, run), e)
    ensures var s, cleared, anew := Run(p, bundles, run), ClearedAt(p, bundles, run), AnewAt(p, bundles, run);
            && cleared <= |s.log| && anew <= |s.log|
            && CrashOutcome(p, s, Next(p, s, e, now), e, now, cleared, anew)
  {
    RunIsFaithful(p, bundles, run, now);
    CrashIs(p, Run(p, bundles, run), e, now, now, ClearedAt(p, bundles, run), AnewAt(p, bundles, run));
  }

  // ----- the circuit

  /** The base cooldown, doubled with each opening after the first up to the twentieth and capped. */
  function Cooldown(p: Policy, opens: nat): nat {
    var n := if opens < 1 then 1 else if opens < 20 then opens else 20;
    var d := p.baseCooldown * Pow2(n - 1);
    if d < p.maxCooldown then d else p.maxCooldown
  }

  /** Twice as long with each further opening, as long as that is below the cap. */
  lemma CooldownDoubles(p: Policy, opens: nat)
    requires 1 <= opens < 20
    ensures Cooldown(p, 1) == if p.baseCooldown < p.maxCooldown then p.baseCooldown else p.maxCooldown
    ensures Cooldown(p, opens + 1) < p.maxCooldown ==> Cooldown(p, opens + 1) == 2 * Cooldown(p, opens)
    ensures Cooldown(p, opens) <= Cooldown(p, opens + 1) <= p.maxCooldown
  {
    var d := p.baseCooldown * Pow2(opens - 1);
    assert p.baseCooldown * (2 * Pow2(opens - 1)) == 2 * d;
  }

  /**
   A launch passes its checks exactly if no instance is there and it is forced, the circuit is closed,
   or the cooldown is over; it then starts with no restarts counted and a closed circuit, and a launch
   that does not pass changes nothing.
   */
  lemma PassesExactly(p: Policy, s: Supervised, force: bool, now: int)
    ensures var d := Next(p, s, LaunchBegin(force), now);
            if s.current.None?
               && (force || s.breaker.None? || now >= s.breaker.value.openedAt + Cooldown(p, s.breaker.value.opens))
            then d == s.(history := [], streak := 0, breaker := None, spawning := s.spawning + 1)
            else d == s
  {}

  /** What a decision reports: which consecutive restart it is, and how many the window then holds. */
  lemma DecisionReports(p: Policy, history: seq<int>, consecutive: nat, now: int)
    ensures DecideCrashAction(history, consecutive, now, p)
            == var n := Recent(history, now, p.window);
               if n >= p.max then CircuitOpen(n) else Restart(Delay(p, consecutive), consecutive + 1, n + 1)
  {
    PruneIsRecent(history, now, p.window, now);
  }

  /** An instance that exits when it was told to, or is not the current one, is not restarted. */
  lemma CleanExit(p: Policy, s: Supervised, e: Event, now: int)
    requires e.Exit? && !IsCrash(s, e)
    ensures var d := Next(p, s, e, now);
            d == s.(alive := s.alive - {e.id},
                    current := if e.id in s.alive && s.current == Some(e.id) then None else s.current)
  {
    assert e.id !in s.alive ==> s.alive - {e.id} == s.alive;
  }

  // ----- spawns and instances add up

  /** A launch passes, a restart timer fires when it is due, or an instance is restarted by hand. */
  predicate Spawns(p: Policy, s: Supervised, e: Event, now: int) {
    || (e.LaunchBegin? && LaunchAllowed(p, s, e.force, now))
    || (e.TimerFires? && e.timer in s.timers && s.timers[e.timer] <= now)
    || (e.RestartMain? && s.current.Some?)
  }

  function Begun(p: Policy, bundles: seq<string>, run: seq<Timed>): nat {
    if run == [] then 0
    else
      var init, last := run[..|run| - 1], run[|run| - 1];
      Begun(p, bundles, init) + if Spawns(p, Run(p, bundles, init), last.event, last.now) then 1 else 0
  }

  /** Spawns that got a port and took the user's place. */
  function Took(p: Policy, bundles: seq<string>, run: seq<Timed>): nat {
    if run == [] then 0
    else
      var init, last := run[..|run| - 1], run[|run| - 1];
      Took(p, bundles, init) + if last.event.PlaceTaken? && Run(p, bundles, init).spawning != 0 then 1 else 0
  }

  /** Spawns that got none. */
  function TurnedAway(p: Policy, bundles: seq<string>, run: seq<Timed>): nat {
    if run == [] then 0
    else
      var init, last := run[..|run| - 1], run[|run| - 1];
      TurnedAway(p, bundles, init) + if last.event.NoPort? && Run(p, bundles, init).spawning != 0 then 1 else 0
  }

  function Exited(p: Policy, bundles: seq<string>, run: seq<Timed>): nat {
    if run == [] then 0
    else
      var init, last := run[..|run| - 1], run[|run| - 1];
      Exited(p, bundles, init) + if last.event.Exit? && last.event.id in Run(p, bundles, init).alive then 1 else 0
  }

  lemma CrashKeepsProcesses(p: Policy, s: Supervised, now: int, culprit: Option<string>, io: ProfileIo)
    ensures var d := Crashed(p, s, now, culprit, io);
            d.spawning == s.spawning && d.alive == s.alive && d.nextId >= s.nextId
  {}

  lemma ProcessStep(p: Policy, s: Supervised, e: Event, now: int)
    requires forall id :: id in s.alive ==> id < s.nextId
    ensures var d := Next(p, s, e, now);
            && d.spawning == s.spawning + (if Spawns(p, s, e, now) then 1 else 0)
                             - (if (e.PlaceTaken? || e.NoPort?) && s.spawning != 0 then 1 else 0)
            && |d.alive| == |s.alive| + (if e.PlaceTaken? && s.spawning != 0 then 1 else 0)
                            - (if e.Exit? && e.id in s.alive then 1 else 0)
            && forall id :: id in d.alive ==> id < d.nextId
  {
    if e.Exit? && e.id in s.alive {
      CrashKeepsProcesses(p, s.(alive := s.alive - {e.id}), now, Culprit(e.error), e.io);
    }
  }

  /**
   In every run each spawn waits for its port, was refused one, or took the place; and each that did
   lives or has exited.
   */
  lemma {:induction false} SpawnsAddUp(p: Policy, bundles: seq<string>, run: seq<Timed>)
    ensures var s := Run(p, bundles, run);
            && Begun(p, bundles, run) == Took(p, bundles, run) + TurnedAway(p, bundles, run) + s.spawning
            && Took(p, bundles, run) == |s.alive| + Exited(p, bundles, run)
            && forall id :: id in s.alive ==> id < s.nextId
  {
    if run != [] {
      var init, last := run[..|run| - 1], run[|run| - 1];
      SpawnsAddUp(p, bundles, init);
      ProcessStep(p, Run(p, bundles, init), last.event, last.now);
    }
  }

  /**
   After an orderly run a stop leaves nothing to restart: no instance is current, and no restart is
   pending or counted.
   */
  lemma StopCancels(p: Policy, bundles: seq<string>, run: seq<Timed>, now: int)
    requires Orderly(p, bundles, run) && (run != [] ==> run[|run| - 1].now <= now)
    ensures var s := Run(p, bundles, run); var d := Next(p, s, Stop, now);
            && d.current.None? && d.timers == map[] && d.armed.None? && d.history == [] && d.streak == 0
            && d.alive == s.alive && d.spawning == s.spawning && d.breaker == s.breaker && d.log == s.log
  {
    RunKeepsInv(p, bundles, run, now);
    var s := Run(p, bundles, run);
    assert Next(p, s, Stop, now).timers.Keys == {};
  }

  // ----- the profile

  /** The instance's exit is a crash whose error blames this plugin of the profile. */
  predicate Blames(s: Supervised, e: Event, plugin: string) {
    e.Exit? && IsCrash(s, e) && Culprit(e.error) == Some(plugin) && plugin in s.bundles
  }

  /**
   A plugin is in the profile from the start or since it was added, until a crash blames it and the
   file is readable.
   */
  function PluginThere(p: Policy, bundles: seq<string>, run: seq<Timed>, plugin: string): bool {
    if run == [] then plugin in bundles
    else
      var init, e := run[..|run| - 1], run[|run| - 1].event;
      if e.Install? && e.plugin == plugin then true
      else if Blames(Run(p, bundles, init), e, plugin) && e.io != Unreadable then false
      else PluginThere(p, bundles, init, plugin)
  }

  /** The patch file: as it was written last, without the entries of plugins blamed since. */
  function PatchNow(p: Policy, bundles: seq<string>, run: seq<Timed>): seq<string> {
    if run == [] then []
    else
      var init, e := run[..|run| - 1], run[|run| - 1].event;
      var s, was := Run(p, bundles, init), PatchNow(p, bundles, init);
      if e.Install? then e.patch
      else if e.Exit? && e.io == Works && Culprit(e.error).Some? && Blames(s, e, Culprit(e.error).value)
      then Patched(was, Culprit(e.error).value)
      else was
  }

  lemma ProfileAfterCrash(p: Policy, s: Supervised, now: int, culprit: Option<string>, io: ProfileIo)
    ensures var d := Crashed(p, s, now, culprit, io);
            d.bundles == Healed(s, culprit, io).bundles && d.patch == Healed(s, culprit, io).patch
  {}

  lemma ProfileStep(p: Policy, s: Supervised, e: Event, now: int, plugin: string)
    ensures var d := Next(p, s, e, now);
            && (plugin in d.bundles
                <==> (e.Install? && e.plugin == plugin)
                     || (plugin in s.bundles && !(Blames(s, e, plugin) && e.io != Unreadable)))
            && d.patch == if e.Install? then e.patch
                          else if e.Exit? && e.io == Works && Culprit(e.error).Some?
                                  && Blames(s, e, Culprit(e.error).value)
                               then Patched(s.patch, Culprit(e.error).value) else s.patch
  {
    if e.Exit? && IsCrash(s, e) {
      ProfileAfterCrash(p, s.(alive := s.alive - {e.id}), now, Culprit(e.error), e.io);
      if Culprit(e.error).Some? { WithoutShrinks(s.bundles, Culprit(e.error).value); }
    }
  }

  /** In every run, attended or not, the profile holds exactly the plugins and the patch its history says. */
  lemma {:induction false} ProfileIsHistory(p: Policy, bundles: seq<string>, run: seq<Timed>, plugin: string)
    ensures plugin in Run(p, bundles, run).bundles <==> PluginThere(p, bundles, run, plugin)
    ensures Run(p, bundles, run).patch == PatchNow(p, bundles, run)
  {
    if run != [] {
      var init, last := run[..|run| - 1], run[|run| - 1];
      ProfileIsHistory(p, bundles, init, plugin);
      ProfileStep(p, Run(p, bundles, init), last.event, last.now, plugin);
    }
  }
}
