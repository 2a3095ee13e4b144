/**
 The relay client's connection lifecycle: seven states, one socket, one retry timer, graceful
 burst windows and backoff. The handlers do not look at which socket an event comes from, so
 an event may come late, from a socket that was already given up; every event is possible in
 every state. `Client` is the value of all fields, `RelayClient` the object the handlers update.
 */
module RelayLifecycle {
  import opened Basics

  datatype LinkState = Idle | Connecting | Handshaking | Up | Backoff | Queued | Stopped

  datatype Options = Options(reconnectMin: nat, reconnectMax: nat, gracefulRetry: nat, burstWindow: nat)

  /** What the history remembers: state entries that matter for health, and retry bookkeeping. */
  datatype Mark = WentDown(at: int) | WentUp | Ordinary(at: int) | Forgiven

  datatype Client = Client(
    state: LinkState,
    stopped: bool,
    socket: Option<nat>,
    retryTimer: Option<nat>,
    attempts: nat,
    fatal: bool,
    burstUntil: Option<int>,
    unhealthySince: Option<int>,
    nextRetryAt: Option<int>,
    timers: set<nat>,          // one-shot retry timers the runtime still has pending
    nextId: nat,               // names the next socket or timer
    dials: nat,                // how often a socket was opened or attempted
    waiters: set<nat>,         // port requests in flight
    answered: seq<nat>,        // port requests resolved, in order
    nextReq: nat,
    history: seq<Mark>)

  /** A jitter draw: the client spreads ordinary retries by up to a quarter either way. */
  type Jitter = j: real | -1.0 <= j <= 1.0

  /** Everything a handler reads from outside: the clock, the jitter draw, and whether `new WebSocket` throws. */
  datatype Env = Env(now: int, jitter: Jitter, ctorThrows: bool)

  const INITIAL := Client(Idle, true, None, None, 0, false, None, None, None, {}, 1, 0, {}, [], 1, [])

  // ----- the handlers as functions

  function SetState(c: Client, s: LinkState, now: int): Client {
    if c.state == s then c
    else
      c.(state := s,
         unhealthySince := if s == Backoff && c.unhealthySince.None? then Some(now)
                           else if s == Up then None else c.unhealthySince,
         history := if s == Backoff then c.history + [WentDown(now)]
                    else if s == Up then c.history + [WentUp] else c.history)
  }

  function Round(x: real): int { (x + 0.5).Floor }

  /** Exponential backoff, capped, before jitter. */
  function BackoffMs(o: Options, attempts: nat): nat
    requires attempts >= 1
  {
    var doubled := o.reconnectMin * Pow2(Min(attempts - 1, 6));
    if doubled < o.reconnectMax then doubled else o.reconnectMax
  }

  function OrdinaryDelay(o: Options, attempts: nat, fatal: bool, jitter: Jitter): int
    requires attempts >= 1
  {
    var exp := BackoffMs(o, attempts) as real;
    if fatal then o.reconnectMax else Max(200, Round(exp + exp * 0.25 * jitter))
  }

  function GracefulMs(o: Options): int { Max(50, o.gracefulRetry) }

  function ScheduleRetry(o: Options, c: Client, env: Env, graceful: bool, fixed: Option<real>): Client {
    if c.stopped || c.retryTimer.Some? then c
    else
      var forgive := fixed.Some? || graceful || (c.burstUntil.Some? && env.now < c.burstUntil.value);
      var attempts := if forgive then 0 else c.attempts + 1;
      var delay := if fixed.Some? then Max(100, Round(fixed.value))
                   else if forgive then GracefulMs(o)
                   else OrdinaryDelay(o, attempts, c.fatal, env.jitter);
      c.(attempts := attempts,
         burstUntil := if fixed.None? && graceful
                       then (if o.burstWindow > 0 then Some(env.now + o.burstWindow) else None)
                       else c.burstUntil,
         nextRetryAt := Some(env.now + delay),
         retryTimer := Some(c.nextId), timers := c.timers + {c.nextId}, nextId := c.nextId + 1,
         history := c.history + [if forgive then Forgiven else Ordinary(env.now)])
  }

  function Dial(o: Options, c: Client, env: Env): Client {
    var d := SetState(c, Connecting, env.now).(dials := c.dials + 1);
    if env.ctorThrows then ScheduleRetry(o, d, env, false, None)
    else d.(socket := Some(d.nextId), nextId := d.nextId + 1)
  }

  /** Resolves every port request in flight, as failed; the order is irrelevant. */
  ghost function FailWaiters(c: Client, order: seq<nat>): Client {
    c.(waiters := {}, answered := c.answered + order)
  }

  /** `order` lists a set without repetition. */
  ghost predicate Lists(order: seq<nat>, s: set<nat>) {
    && (forall i, j :: 0 <= i < j < |order| ==> order[i] != order[j])
    && (forall x :: x in order <==> x in s)
  }

  ghost function OnDown(o: Options, c: Client, env: Env, graceful: bool, fixed: Option<real>, order: seq<nat>): Client {
    if c.retryTimer.Some? then c
    else
      var d := SetState(FailWaiters(c, order).(socket := None), Backoff, env.now);
      if d.stopped then d else ScheduleRetry(o, d, env, graceful, fixed)
  }

  function OnHelloAck(c: Client, now: int): Client {
    SetState(c.(attempts := 0, fatal := false, burstUntil := None, nextRetryAt := None,
                history := c.history + [Forgiven]), Up, now)
  }

  function RetryNow(o: Options, c: Client, env: Env): Client {
    if c.stopped then c
    else if c.retryTimer.Some? then
      Dial(o, c.(timers := c.timers - {c.retryTimer.value}, retryTimer := None, nextRetryAt := None), env)
    else Dial(o, c, env)
  }

  datatype Event =
    | Start
    | Stop
    | SocketOpen
    | SocketClose(code: nat)
    | SocketError
    | HelloAck(wellFormed: bool)
    | HelloErr(reason: string, retryable: bool, retryAfterMs: real)
    | Bye
    | BadFrame
    | HalfOpenTick(silent: bool)
    | NetTick(changed: bool)
    | TimerFires(id: nat)
    | RequestPort(sent: bool)
    | PortAck(req: nat)
    | PortTimeout(req: nat)

  function Answer(c: Client, req: nat): Client {
    if req in c.waiters then c.(waiters := c.waiters - {req}, answered := c.answered + [req]) else c
  }

  /** The client after one event. `order` is the order in which requests in flight are failed, if they are. */
  ghost function Next(o: Options, c: Client, e: Event, env: Env, order: seq<nat>): Client {
    match e
    case Start => if c.stopped then Dial(o, c.(stopped := false), env) else c
    case Stop =>
      var timers := if c.retryTimer.Some? then c.timers - {c.retryTimer.value} else c.timers;
      SetState(FailWaiters(c, order).(stopped := true, retryTimer := None, nextRetryAt := None, socket := None,
                                      timers := timers),
               Stopped, env.now)
    case SocketOpen => SetState(c, Handshaking, env.now)
    case SocketClose(code) => OnDown(o, c, env, code == 1000 || code == 1001, None, order)
    case SocketError => OnDown(o, c, env, false, None, order)
    case HelloAck(wellFormed) =>
      if wellFormed then OnHelloAck(c, env.now) else OnDown(o, c, env, false, None, order)
    case HelloErr(reason, retryable, retryAfterMs) =>
      var d := c.(fatal := c.fatal || !retryable);
      if reason == "at-capacity" then
        var down := OnDown(o, d, env, false, Some(if retryAfterMs > 0.0 then retryAfterMs else 5000.0), order);
        if down.stopped then down else SetState(down, Queued, env.now)
      else OnDown(o, d, env, reason == "clock-skew", None, order)
    case Bye => OnDown(o, c, env, true, None, order)
    case BadFrame => OnDown(o, c, env, false, None, order)
    case HalfOpenTick(silent) =>
      if c.stopped || c.state != Up || !silent then c else OnDown(o, c, env, false, None, order)
    case NetTick(changed) =>
      if c.stopped || !changed || c.state == Up then c else RetryNow(o, c, env)
    case TimerFires(id) =>
      if id !in c.timers then c
      else
        var d := c.(timers := c.timers - {id}, retryTimer := None, nextRetryAt := None);
        if d.stopped then d else Dial(o, d, env)
    case RequestPort(sent) =>
      if c.state != Up || c.socket.None? then c
      else
        var d := c.(waiters := c.waiters + {c.nextReq}, nextReq := c.nextReq + 1);
        if sent then d else Answer(d, c.nextReq)
    case PortAck(req) => Answer(c, req)
    case PortTimeout(req) => Answer(c, req)
  }

  // ----- runs

  datatype Input = Input(event: Event, env: Env, order: seq<nat>)

  /** Clocks do not go back, and failing the requests in flight fails each of them once. */
  ghost predicate Possible(o: Options, inputs: seq<Input>)
  {
    && (forall i, j :: 0 <= i < j < |inputs| ==> inputs[i].env.now <= inputs[j].env.now)
    && (forall i :: 0 <= i < |inputs| ==> Lists(inputs[i].order, Run(o, inputs[..i]).waiters))
  }

  ghost function Run(o: Options, inputs: seq<Input>): Client {
    if inputs == [] then INITIAL
    else
      var last := inputs[|inputs| - 1];
      Next(o, Run(o, inputs[..|inputs| - 1]), last.event, last.env, last.order)
  }

  lemma PrefixPossible(o: Options, inputs: seq<Input>)
    requires Possible(o, inputs) && inputs != []
    ensures Possible(o, inputs[..|inputs| - 1])
  {
    var init := inputs[..|inputs| - 1];
    forall i | 0 <= i < |init|
      ensures Lists(init[i].order, Run(o, init[..i]).waiters)
    {
      assert init[..i] == inputs[..i];
    }
  }

  // ----- never stuck, never leaking a timer

  ghost predicate LinkInv(c: Client) {
    && (c.stopped ==> c.socket.None? && c.retryTimer.None?)
    && (!c.stopped ==> c.socket.Some? || c.retryTimer.Some?)
    && c.timers == (if c.retryTimer.Some? then {c.retryTimer.value} else {})
  }

  ghost predicate TimersExact(c: Client) {
    c.timers == if c.retryTimer.Some? then {c.retryTimer.value} else {}
  }

  lemma DialMakesLink(o: Options, c: Client, env: Env)
    requires !c.stopped && TimersExact(c)
    ensures LinkInv(Dial(o, c, env)) && !Dial(o, c, env).stopped
  {}

  lemma DownKeepsLink(o: Options, c: Client, env: Env, graceful: bool, fixed: Option<real>, order: seq<nat>)
    requires LinkInv(c)
    ensures LinkInv(OnDown(o, c, env, graceful, fixed, order))
  {}

  lemma RefusalKeepsLink(o: Options, c: Client, e: Event, env: Env, order: seq<nat>)
    requires LinkInv(c) && e.HelloErr?
    ensures LinkInv(Next(o, c, e, env, order))
  {
    var d := c.(fatal := c.fatal || !e.retryable);
    if e.reason == "at-capacity" {
      DownKeepsLink(o, d, env, false, Some(if e.retryAfterMs > 0.0 then e.retryAfterMs else 5000.0), order);
    } else {
      DownKeepsLink(o, d, env, e.reason == "clock-skew", None, order);
    }
  }

  lemma {:induction false} NextKeepsLink(o: Options, c: Client, e: Event, env: Env, order: seq<nat>)
    requires LinkInv(c)
    ensures LinkInv(Next(o, c, e, env, order))
  {
    match e
    case Start => DialMakesLink(o, c.(stopped := false), env);
    case Stop =>
    case SocketOpen =>
    case SocketClose(code) => DownKeepsLink(o, c, env, code == 1000 || code == 1001, None, order);
    case HelloAck(wellFormed) => if !wellFormed { DownKeepsLink(o, c, env, false, None, order); }
    case HelloErr(reason, retryable, ms) =>
      RefusalKeepsLink(o, c, e, env, order);
    case NetTick(_) =>
      if !c.stopped && c.retryTimer.Some? {
        DialMakesLink(o, c.(timers := c.timers - {c.retryTimer.value}, retryTimer := None, nextRetryAt := None), env);
      } else if !c.stopped {
        DialMakesLink(o, c, env);
      }
    case TimerFires(id) =>
      if id in c.timers {
        DialMakesLink(o, c.(timers := c.timers - {id}, retryTimer := None, nextRetryAt := None), env);
      }
    case Bye => DownKeepsLink(o, c, env, true, None, order);
    case SocketError => DownKeepsLink(o, c, env, false, None, order);
    case BadFrame => DownKeepsLink(o, c, env, false, None, order);
    case HalfOpenTick(_) => DownKeepsLink(o, c, env, false, None, order);
    case RequestPort(_) =>
    case PortAck(_) =>
    case PortTimeout(_) =>
  }

  /**
   In every run a client that is not stopped has a socket or exactly one pending retry timer,
   and a stopped client has neither.
   */
  lemma {:induction false} NeverStuck(o: Options, inputs: seq<Input>)
    ensures var c := Run(o, inputs);
            && LinkInv(c)
            && (!c.stopped && c.socket.None? ==> |c.timers| == 1)
            && (c.stopped ==> c.socket.None? && c.timers == {})
  {
    if inputs != [] {
      NeverStuck(o, inputs[..|inputs| - 1]);
      var last := inputs[|inputs| - 1];
      NextKeepsLink(o, Run(o, inputs[..|inputs| - 1]), last.event, last.env, last.order);
    }
  }

  /** A stopped client opens no socket: only `start` ends the stop, whatever arrives late. */
  lemma {:induction false} StoppedNeverDials(o: Options, inputs: seq<Input>, e: Event, env: Env, order: seq<nat>)
    requires Run(o, inputs).stopped && !e.Start?
    ensures var c := Run(o, inputs); var d := Next(o, c, e, env, order);
            d.stopped && d.dials == c.dials && d.socket.None? && d.timers == {}
  {
    NeverStuck(o, inputs);
  }

  // ----- health: since when has the client been failing

  /** The first backoff entered since the last `up`, read off the history. */
  function FirstDownSinceUp(h: seq<Mark>): Option<int> {
    if h == [] then None
    else
      match h[|h| - 1]
      case WentUp => None
      case WentDown(at) => if FirstDownSinceUp(h[..|h| - 1]).Some? then FirstDownSinceUp(h[..|h| - 1]) else Some(at)
      case _ => FirstDownSinceUp(h[..|h| - 1])
  }

  /** Ordinary retries since the counter was last forgiven. */
  function OrdinarySince(h: seq<Mark>): nat {
    if h == [] then 0
    else
      match h[|h| - 1]
      case Forgiven => 0
      case Ordinary(_) => OrdinarySince(h[..|h| - 1]) + 1
      case _ => OrdinarySince(h[..|h| - 1])
  }

  ghost predicate HealthInv(c: Client) {
    && c.unhealthySince == FirstDownSinceUp(c.history)
    && (c.state == Backoff ==> c.unhealthySince.Some?)
    && (c.state == Up ==> c.unhealthySince.None?)
    && c.attempts == OrdinarySince(c.history)
  }

  lemma MarkAdded(h: seq<Mark>, m: Mark)
    ensures FirstDownSinceUp(h + [m]) ==
            match m
            case WentUp => None
            case WentDown(at) => if FirstDownSinceUp(h).Some? then FirstDownSinceUp(h) else Some(at)
            case _ => FirstDownSinceUp(h)
    ensures OrdinarySince(h + [m]) ==
            match m
            case Forgiven => 0
            case Ordinary(_) => OrdinarySince(h) + 1
            case _ => OrdinarySince(h)
  {
    assert (h + [m])[..|h + [m]| - 1] == h;
  }

  lemma SetStateKeepsHealth(c: Client, s: LinkState, now: int)
    requires HealthInv(c)
    ensures HealthInv(SetState(c, s, now))
  {
    MarkAdded(c.history, WentDown(now));
    MarkAdded(c.history, WentUp);
  }

  lemma ScheduleKeepsHealth(o: Options, c: Client, env: Env, graceful: bool, fixed: Option<real>)
    requires HealthInv(c)
    ensures HealthInv(ScheduleRetry(o, c, env, graceful, fixed))
  {
    MarkAdded(c.history, Forgiven);
    MarkAdded(c.history, Ordinary(env.now));
  }

  lemma {:induction false} DialKeepsHealth(o: Options, c: Client, env: Env)
    requires HealthInv(c)
    ensures HealthInv(Dial(o, c, env))
  {
    SetStateKeepsHealth(c, Connecting, env.now);
    ScheduleKeepsHealth(o, SetState(c, Connecting, env.now).(dials := c.dials + 1), env, false, None);
  }

  lemma {:induction false} DownKeepsHealth(o: Options, c: Client, env: Env, graceful: bool, fixed: Option<real>,
                                           order: seq<nat>)
    requires HealthInv(c)
    ensures HealthInv(OnDown(o, c, env, graceful, fixed, order))
  {
    var d := FailWaiters(c, order).(socket := None);
    SetStateKeepsHealth(d, Backoff, env.now);
    ScheduleKeepsHealth(o, SetState(d, Backoff, env.now), env, graceful, fixed);
  }

  lemma AckKeepsHealth(c: Client, now: int)
    requires HealthInv(c)
    ensures HealthInv(OnHelloAck(c, now))
  {
    var h := c.history + [Forgiven];
    MarkAdded(c.history, Forgiven);
    SetStateKeepsHealth(c.(attempts := 0, fatal := false, burstUntil := None, nextRetryAt := None, history := h), Up,
                        now);
  }

  lemma RefusalKeepsHealth(o: Options, c: Client, e: Event, env: Env, order: seq<nat>)
    requires HealthInv(c) && e.HelloErr?
    ensures HealthInv(Next(o, c, e, env, order))
  {
    var d := c.(fatal := c.fatal || !e.retryable);
    var fixed := Some(if e.retryAfterMs > 0.0 then e.retryAfterMs else 5000.0);
    DownKeepsHealth(o, d, env, false, fixed, order);
    SetStateKeepsHealth(OnDown(o, d, env, false, fixed, order), Queued, env.now);
    DownKeepsHealth(o, d, env, e.reason == "clock-skew", None, order);
  }

  lemma {:induction false} NextKeepsHealth(o: Options, c: Client, e: Event, env: Env, order: seq<nat>)
    requires HealthInv(c)
    ensures HealthInv(Next(o, c, e, env, order))
  {
    match e
    case Start => DialKeepsHealth(o, c.(stopped := false), env);
    case Stop => SetStateKeepsHealth(FailWaiters(c, order), Stopped, env.now);
    case SocketOpen => SetStateKeepsHealth(c, Handshaking, env.now);
    case SocketClose(code) => DownKeepsHealth(o, c, env, code == 1000 || code == 1001, None, order);
    case HelloAck(_) => AckKeepsHealth(c, env.now); DownKeepsHealth(o, c, env, false, None, order);
    case HelloErr(_, _, _) => RefusalKeepsHealth(o, c, e, env, order);
    case NetTick(_) =>
      DialKeepsHealth(o, c, env);
      if c.retryTimer.Some? {
        DialKeepsHealth(o, c.(timers := c.timers - {c.retryTimer.value}, retryTimer := None, nextRetryAt := None), env);
      }
    case TimerFires(id) =>
      DialKeepsHealth(o, c.(timers := c.timers - {id}, retryTimer := None, nextRetryAt := None), env);
    case Bye => DownKeepsHealth(o, c, env, true, None, order);
    case SocketError => DownKeepsHealth(o, c, env, false, None, order);
    case BadFrame => DownKeepsHealth(o, c, env, false, None, order);
    case HalfOpenTick(_) => DownKeepsHealth(o, c, env, false, None, order);
    case _ =>
  }

  /**
   In every run `unhealthySince` is set exactly when backoff was entered since the last `up`,
   and holds the first such time; `attempts` counts the ordinary retries since the last
   graceful, burst or queued retry or acknowledged hello.
   */
  lemma {:induction false} HealthIsFirstFailure(o: Options, inputs: seq<Input>)
    ensures HealthInv(Run(o, inputs))
  {
    if inputs != [] {
      HealthIsFirstFailure(o, inputs[..|inputs| - 1]);
      var last := inputs[|inputs| - 1];
      NextKeepsHealth(o, Run(o, inputs[..|inputs| - 1]), last.event, last.env, last.order);
    }
  }

  // ----- planned restarts are not failures

  /** `status().inGracefulBurstWindow`. */
  predicate InBurstWindow(c: Client, now: int) {
    c.state == Backoff && c.burstUntil.Some? && now < c.burstUntil.value
  }

  /** The verdict on which a caller gives a channel up. */
  predicate FailedTerminally(c: Client, now: int) {
    c.state == Backoff && !InBurstWindow(c, now) && c.attempts >= 1
  }

  /** An ordinary retry is counted only outside the burst window. */
  predicate BurstInv(c: Client, now: int) {
    c.burstUntil.Some? && c.attempts >= 1 ==> c.burstUntil.value <= now
  }

  lemma ScheduleKeepsBurst(o: Options, c: Client, env: Env, graceful: bool, fixed: Option<real>)
    requires BurstInv(c, env.now)
    ensures BurstInv(ScheduleRetry(o, c, env, graceful, fixed), env.now)
  {}

  lemma DialKeepsBurst(o: Options, c: Client, env: Env)
    requires BurstInv(c, env.now)
    ensures BurstInv(Dial(o, c, env), env.now)
  {
    var d := SetState(c, Connecting, env.now).(dials := c.dials + 1);
    assert d.burstUntil == c.burstUntil && d.attempts == c.attempts;
    ScheduleKeepsBurst(o, d, env, false, None);
  }

  lemma DownKeepsBurst(o: Options, c: Client, env: Env, graceful: bool, fixed: Option<real>, order: seq<nat>)
    requires BurstInv(c, env.now)
    ensures BurstInv(OnDown(o, c, env, graceful, fixed, order), env.now)
  {
    var d := SetState(FailWaiters(c, order).(socket := None), Backoff, env.now);
    assert d.burstUntil == c.burstUntil && d.attempts == c.attempts;
    ScheduleKeepsBurst(o, d, env, graceful, fixed);
  }

  lemma {:induction false} NextKeepsBurst(o: Options, c: Client, e: Event, env: Env, order: seq<nat>)
    requires BurstInv(c, env.now)
    ensures BurstInv(Next(o, c, e, env, order), env.now)
  {
    match e
    case Start => DialKeepsBurst(o, c.(stopped := false), env);
    case Stop =>
    case SocketOpen =>
    case SocketClose(code) => DownKeepsBurst(o, c, env, code == 1000 || code == 1001, None, order);
    case SocketError => DownKeepsBurst(o, c, env, false, None, order);
    case HelloAck(wellFormed) => if !wellFormed { DownKeepsBurst(o, c, env, false, None, order); }
    case HelloErr(reason, retryable, ms) =>
      var d := c.(fatal := c.fatal || !retryable);
      if reason == "at-capacity" {
        DownKeepsBurst(o, d, env, false, Some(if ms > 0.0 then ms else 5000.0), order);
      } else {
        DownKeepsBurst(o, d, env, reason == "clock-skew", None, order);
      }
    case Bye => DownKeepsBurst(o, c, env, true, None, order);
    case BadFrame => DownKeepsBurst(o, c, env, false, None, order);
    case HalfOpenTick(_) => DownKeepsBurst(o, c, env, false, None, order);
    case NetTick(_) =>
      DialKeepsBurst(o, c, env);
      if c.retryTimer.Some? {
        DialKeepsBurst(o, c.(timers := c.timers - {c.retryTimer.value}, retryTimer := None, nextRetryAt := None), env);
      }
    case TimerFires(id) =>
      DialKeepsBurst(o, c.(timers := c.timers - {id}, retryTimer := None, nextRetryAt := None), env);
    case RequestPort(_) =>
    case PortAck(_) =>
    case PortTimeout(_) =>
  }

  lemma {:induction false} BurstAlways(o: Options, inputs: seq<Input>, now: int)
    requires Possible(o, inputs) && forall i :: 0 <= i < |inputs| ==> inputs[i].env.now <= now
    ensures BurstInv(Run(o, inputs), now)
  {
    if inputs != [] {
      var init, last := inputs[..|inputs| - 1], inputs[|inputs| - 1];
      PrefixPossible(o, inputs);
      BurstAlways(o, init, last.env.now);
      NextKeepsBurst(o, Run(o, init), last.event, last.env, last.order);
    }
  }

  /**
   With a clock that does not go back, a client in its burst window has no counted retry:
   the verdict "failed terminally" needs only the state and the counter, and a planned
   restart is never mistaken for a failure while its window is open.
   */
  lemma {:induction false} BurstWindowForgives(o: Options, inputs: seq<Input>, now: int)
    requires Possible(o, inputs) && forall i :: 0 <= i < |inputs| ==> inputs[i].env.now <= now
    ensures InBurstWindow(Run(o, inputs), now) ==> Run(o, inputs).attempts == 0
    ensures FailedTerminally(Run(o, inputs), now) <==>
            Run(o, inputs).state == Backoff && Run(o, inputs).attempts >= 1
  {
    BurstAlways(o, inputs, now);
  }

  // ----- which ends of a link are planned

  /** A relay that closes normally or goes away, says goodbye, or only corrects the clock. */
  predicate Planned(e: Event) {
    || (e.SocketClose? && e.code in {1000, 1001})
    || e.Bye?
    || (e.HelloErr? && e.reason == "clock-skew")
  }

  /** The relay is full and says when to come back. */
  predicate QueuesUp(e: Event) {
    e.HelloErr? && e.reason == "at-capacity"
  }

  /** Events that end the link. */
  predicate EndsLink(c: Client, e: Event) {
    || e.SocketClose? || e.SocketError? || e.HelloErr? || e.Bye? || e.BadFrame?
    || e == HelloAck(false) || (e == HalfOpenTick(true) && c.state == Up)
  }

  predicate WindowOpen(c: Client, now: int) {
    c.burstUntil.Some? && now < c.burstUntil.value
  }

  /** What the end of a link leaves behind. */
  lemma DownIs(o: Options, c: Client, env: Env, graceful: bool, fixed: Option<real>, order: seq<nat>)
    requires !c.stopped && c.retryTimer.None?
    ensures var d := OnDown(o, c, env, graceful, fixed, order);
            && d.state == Backoff && d.retryTimer.Some? && d.socket.None? && d.waiters == {} && !d.stopped
            && d.attempts == (if fixed.Some? || graceful || WindowOpen(c, env.now) then 0 else c.attempts + 1)
            && d.nextRetryAt == Some(env.now + if fixed.Some? then Max(100, Round(fixed.value))
                                               else if graceful || WindowOpen(c, env.now) then Max(50, o.gracefulRetry)
                                               else OrdinaryDelay(o, c.attempts + 1, c.fatal, env.jitter))
            && d.burstUntil == if fixed.Some? || !graceful then c.burstUntil
                               else if o.burstWindow > 0 then Some(env.now + o.burstWindow) else None
  {}

  /**
   The retry an end plans: short if it was planned or the window is open, later if the relay is full,
   else counted.
   */
  predicate RetryAfterEnd(o: Options, c: Client, d: Client, e: Event, env: Env) {
    && d.attempts == (if Planned(e) || QueuesUp(e) || WindowOpen(c, env.now) then 0 else c.attempts + 1)
    && d.nextRetryAt
       == Some(env.now + if QueuesUp(e) then Max(100, Round(if e.retryAfterMs > 0.0 then e.retryAfterMs else 5000.0))
                                       else if Planned(e) || WindowOpen(c, env.now) then Max(50, o.gracefulRetry)
                                       else OrdinaryDelay(o, c.attempts + 1, c.fatal || (e.HelloErr? && !e.retryable),
                                                          env.jitter))
    && d.burstUntil == if !Planned(e) then c.burstUntil
                       else if o.burstWindow > 0 then Some(env.now + o.burstWindow) else None
  }

  /**
   When the link of a running client ends with no retry pending, it is reported as failed at once
   exactly if the end was neither planned nor a queue, and no burst window is open. A planned end
   opens a window, if windows are configured, and the retry is due after the short delay.
   */
  lemma EndExactly(o: Options, c: Client, e: Event, env: Env, order: seq<nat>)
    requires !c.stopped && c.retryTimer.None? && EndsLink(c, e)
    ensures var d := Next(o, c, e, env, order);
            && (FailedTerminally(d, env.now) <==> !Planned(e) && !QueuesUp(e) && !WindowOpen(c, env.now))
            && RetryAfterEnd(o, c, d, e, env)
            && d.retryTimer.Some? && d.socket.None? && d.waiters == {}
            && d.state == if QueuesUp(e) then Queued else Backoff
  {
    match e
    case SocketClose(code) => DownIs(o, c, env, code == 1000 || code == 1001, None, order);
    case HelloErr(reason, retryable, ms) => RefusalExactly(o, c, e, env, order);
    case Bye => DownIs(o, c, env, true, None, order);
    case _ => DownIs(o, c, env, false, None, order);
  }

  /** A planned end is reported as a window from then on for as long as configured. */
  lemma {:induction false} WindowIsReported(o: Options, c: Client, e: Event, env: Env, order: seq<nat>, later: int)
    requires !c.stopped && c.retryTimer.None? && EndsLink(c, e) && Planned(e) && env.now <= later
    ensures InBurstWindow(Next(o, c, e, env, order), later) <==> later < env.now + o.burstWindow
  {
    EndExactly(o, c, e, env, order);
  }

  lemma RefusalExactly(o: Options, c: Client, e: Event, env: Env, order: seq<nat>)
    requires !c.stopped && c.retryTimer.None? && e.HelloErr?
    ensures var d := Next(o, c, e, env, order);
            && (FailedTerminally(d, env.now) <==> !Planned(e) && !QueuesUp(e) && !WindowOpen(c, env.now))
            && RetryAfterEnd(o, c, d, e, env)
            && d.retryTimer.Some? && d.socket.None? && d.waiters == {}
            && d.state == if QueuesUp(e) then Queued else Backoff
  {
    var f := c.(fatal := c.fatal || !e.retryable);
    if e.reason == "at-capacity" {
      DownIs(o, f, env, false, Some(if e.retryAfterMs > 0.0 then e.retryAfterMs else 5000.0), order);
    } else {
      DownIs(o, f, env, e.reason == "clock-skew", None, order);
    }
  }

  /** The window reaches at least to `until`, and no retry is counted. */
  predicate Forgiving(c: Client, until: int) {
    c.burstUntil.Some? && until <= c.burstUntil.value && c.attempts == 0
  }

  /** A retry planned in the window is due after the short delay, or when the relay asked for. */
  predicate DueSoon(o: Options, c: Client, d: Client, e: Event, now: int) {
    d.retryTimer.Some? && d.retryTimer != c.retryTimer ==>
      d.nextRetryAt
        == Some(now + if QueuesUp(e) then Max(100, Round(if e.retryAfterMs > 0.0 then e.retryAfterMs else 5000.0))
                                  else Max(50, o.gracefulRetry))
  }

  lemma DialForgives(o: Options, c: Client, env: Env, until: int)
    requires Forgiving(c, until) && env.now < until
    ensures var d := Dial(o, c, env);
            && Forgiving(d, until)
            && (d.retryTimer.Some? && d.retryTimer != c.retryTimer ==>
                  d.nextRetryAt == Some(env.now + Max(50, o.gracefulRetry)))
  {}

  lemma DownForgives(o: Options, c: Client, env: Env, graceful: bool, fixed: Option<real>, order: seq<nat>, until: int)
    requires Forgiving(c, until) && env.now < until &&
             (graceful ==> o.burstWindow > 0 && until <= env.now + o.burstWindow)
    ensures var d := OnDown(o, c, env, graceful, fixed, order);
            && Forgiving(d, until)
            && (d.retryTimer.Some? && d.retryTimer != c.retryTimer ==>
                  d.nextRetryAt == Some(env.now + if fixed.Some? then Max(100, Round(fixed.value))
                                                  else Max(50, o.gracefulRetry)))
  {}

  lemma EndForgives(o: Options, c: Client, e: Event, env: Env, order: seq<nat>, until: int)
    requires Forgiving(c, until) && env.now < until && e != HelloAck(true) && !e.HelloErr?
    requires e.SocketClose? || e.SocketError? || e.HelloAck? || e.Bye? || e.BadFrame? || e.HalfOpenTick?
    requires o.burstWindow > 0 && until <= env.now + o.burstWindow
    ensures Forgiving(Next(o, c, e, env, order), until) && DueSoon(o, c, Next(o, c, e, env, order), e, env.now)
  {
    match e
    case SocketClose(code) => DownForgives(o, c, env, code == 1000 || code == 1001, None, order, until);
    case Bye => DownForgives(o, c, env, true, None, order, until);
    case _ => DownForgives(o, c, env, false, None, order, until);
  }

  lemma RefusalForgives(o: Options, c: Client, e: Event, env: Env, order: seq<nat>, until: int)
    requires Forgiving(c, until) && env.now < until && e.HelloErr?
    requires o.burstWindow > 0 && until <= env.now + o.burstWindow
    ensures Forgiving(Next(o, c, e, env, order), until) && DueSoon(o, c, Next(o, c, e, env, order), e, env.now)
  {
    var d := c.(fatal := c.fatal || !e.retryable);
    if e.reason == "at-capacity" {
      DownForgives(o, d, env, false, Some(if e.retryAfterMs > 0.0 then e.retryAfterMs else 5000.0), order, until);
    } else {
      DownForgives(o, d, env, e.reason == "clock-skew", None, order, until);
    }
  }

  lemma DialsForgive(o: Options, c: Client, e: Event, env: Env, order: seq<nat>, until: int)
    requires Forgiving(c, until) && env.now < until && (e.Start? || e.NetTick? || e.TimerFires?)
    ensures Forgiving(Next(o, c, e, env, order), until) && DueSoon(o, c, Next(o, c, e, env, order), e, env.now)
  {
    match e
    case Start => DialForgives(o, c.(stopped := false), env, until);
    case NetTick(_) =>
      if !c.stopped && c.retryTimer.Some? { TickForgives(o, c, env, until); }
      DialForgives(o, c, env, until);
    case TimerFires(id) => TimerForgives(o, c, id, env, until);
  }

  lemma {:induction false} NextForgives(o: Options, c: Client, e: Event, env: Env, order: seq<nat>, until: int)
    requires Forgiving(c, until) && env.now < until && e != HelloAck(true)
    requires o.burstWindow > 0 && until <= env.now + o.burstWindow
    ensures Forgiving(Next(o, c, e, env, order), until) && DueSoon(o, c, Next(o, c, e, env, order), e, env.now)
  {
    if e.HelloErr? {
      RefusalForgives(o, c, e, env, order, until);
    } else if e.Start? || e.NetTick? || e.TimerFires? {
      DialsForgive(o, c, e, env, order, until);
    } else if e.SocketClose? || e.SocketError? || e.HelloAck? || e.Bye? || e.BadFrame? || e.HalfOpenTick? {
      EndForgives(o, c, e, env, order, until);
    }
  }

  lemma TickForgives(o: Options, c: Client, env: Env, until: int)
    requires Forgiving(c, until) && env.now < until && c.retryTimer.Some?
    ensures var d := Dial(o, c.(timers := c.timers - {c.retryTimer.value}, retryTimer := None, nextRetryAt := None),
                          env);
            && Forgiving(d, until)
            && (d.retryTimer.Some? ==> d.nextRetryAt == Some(env.now + Max(50, o.gracefulRetry)))
  {
    DialForgives(o, c.(timers := c.timers - {c.retryTimer.value}, retryTimer := None, nextRetryAt := None), env, until);
  }

  lemma TimerForgives(o: Options, c: Client, id: nat, env: Env, until: int)
    requires Forgiving(c, until) && env.now < until
    ensures var d := Dial(o, c.(timers := c.timers - {id}, retryTimer := None, nextRetryAt := None), env);
            && Forgiving(d, until)
            && (d.retryTimer.Some? ==> d.nextRetryAt == Some(env.now + Max(50, o.gracefulRetry)))
  {
    DialForgives(o, c.(timers := c.timers - {id}, retryTimer := None, nextRetryAt := None), env, until);
  }

  ghost function RunFrom(o: Options, c: Client, more: seq<Input>): Client {
    if more == [] then c
    else
      var last := more[|more| - 1];
      Next(o, RunFrom(o, c, more[..|more| - 1]), last.event, last.env, last.order)
  }

  /** Everything that follows happens inside the window that began at `start`, and the link is not up again. */
  predicate Inside(o: Options, more: seq<Input>, start: int) {
    forall i :: 0 <= i < |more| ==>
      start <= more[i].env.now < start + o.burstWindow && more[i].event != HelloAck(true)
  }

  /**
   A planned end is not a failure: from any state of a running client with no retry pending, after a
   close with 1000 or 1001, a goodbye or a corrected clock nothing that follows inside the window
   makes the client fail terminally, and every retry it plans there is due after the short delay, or
   when a full relay asked for. Only a link that came up again ends this.
   */
  lemma {:induction false} PlannedEndIsForgiven(o: Options, c: Client, end: Input, more: seq<Input>)
    requires !c.stopped && c.retryTimer.None? && Planned(end.event) && o.burstWindow > 0
    requires Inside(o, more, end.env.now)
    ensures var d := RunFrom(o, Next(o, c, end.event, end.env, end.order), more);
            && Forgiving(d, end.env.now + o.burstWindow)
            && (forall now :: !FailedTerminally(d, now))
            && (more != [] ==>
                  var last := more[|more| - 1];
                  DueSoon(o, RunFrom(o, Next(o, c, end.event, end.env, end.order), more[..|more| - 1]), d, last.event,
                          last.env.now))
  {
    EndExactly(o, c, end.event, end.env, end.order);
    if more != [] {
      var init, last := more[..|more| - 1], more[|more| - 1];
      PlannedEndIsForgiven(o, c, end, init);
      NextForgives(o, RunFrom(o, Next(o, c, end.event, end.env, end.order), init), last.event, last.env, last.order,
                   end.env.now + o.burstWindow);
    }
  }

  // ----- the retry always comes, and soon enough

  /** The longest any retry can wait, given what the relay may ask for in the queued case. */
  function LongestDelay(o: Options, fixed: Option<real>): int {
    if fixed.Some? then Max(100, Round(fixed.value))
    else Max(GracefulMs(o), Max(200, Round(o.reconnectMax as real * 1.25)))
  }

  lemma OrdinaryDelayBounds(o: Options, attempts: nat, fatal: bool, jitter: Jitter)
    requires attempts >= 1
    ensures OrdinaryDelay(o, attempts, fatal, jitter) <= Max(200, Round(o.reconnectMax as real * 1.25))
    ensures !fatal ==> 200 <= OrdinaryDelay(o, attempts, fatal, jitter)
    ensures fatal ==> OrdinaryDelay(o, attempts, fatal, jitter) == o.reconnectMax
  {
    JitteredIsBounded(BackoffMs(o, attempts) as real, o.reconnectMax as real, jitter);
    RoundMonotone(o.reconnectMax as real, o.reconnectMax as real * 1.25);
  }

  lemma JitteredIsBounded(exp: real, cap: real, jitter: Jitter)
    requires 0.0 <= exp <= cap
    ensures Round(exp + exp * 0.25 * jitter) <= Round(cap * 1.25)
  {
    ScaledJitter(exp, jitter);
    RoundMonotone(exp + exp * 0.25 * jitter, cap * 1.25);
  }

  lemma RoundMonotone(x: real, y: real)
    requires x <= y
    ensures Round(x) <= Round(y)
  {
    assert Round(x) as real <= x + 0.5 && y + 0.5 < Round(y) as real + 1.0;
  }

  lemma ScaledJitter(exp: real, jitter: Jitter)
    requires exp >= 0.0
    ensures exp + exp * 0.25 * jitter <= exp * 1.25
  {
    assert exp * 0.25 * (1.0 - jitter) >= 0.0;
  }

  /** Every retry that gets scheduled is due within a fixed bound: the client slows down but never gives up. */
  lemma RetriesAreBounded(o: Options, c: Client, env: Env, graceful: bool, fixed: Option<real>)
    requires !c.stopped && c.retryTimer.None?
    ensures var d := ScheduleRetry(o, c, env, graceful, fixed);
            && d.nextRetryAt.Some? && d.retryTimer.Some?
            && env.now <= d.nextRetryAt.value <= env.now + LongestDelay(o, fixed)
    ensures fixed.None? && (graceful || (c.burstUntil.Some? && env.now < c.burstUntil.value)) ==>
              ScheduleRetry(o, c, env, graceful, fixed).nextRetryAt == Some(env.now + GracefulMs(o))
  {
    OrdinaryDelayBounds(o, c.attempts + 1, c.fatal, env.jitter);
  }

  // ----- every request in flight is resolved once

  ghost predicate RequestsInv(c: Client) {
    && c.nextReq >= 1
    && (forall i, j :: 0 <= i < j < |c.answered| ==> c.answered[i] != c.answered[j])
    && (forall r :: r in c.answered ==> r !in c.waiters)
    && (forall r: nat :: 1 <= r < c.nextReq <==> r in c.waiters || r in c.answered)
  }

  lemma FailKeepsRequests(c: Client, order: seq<nat>)
    requires RequestsInv(c) && Lists(order, c.waiters)
    ensures RequestsInv(FailWaiters(c, order))
  {
    var all := c.answered + order;
    forall i, j | 0 <= i < j < |all|
      ensures all[i] != all[j]
    {
      if i < |c.answered| <= j {
        assert all[i] in c.answered && order[j - |c.answered|] in order;
      }
    }
    assert forall r :: r in all <==> r in c.answered || r in order;
  }

  /** Handlers other than the port requests' own leave the requests alone or fail all of them. */
  ghost predicate RequestsKeptOrFailed(c: Client, d: Client, order: seq<nat>) {
    && d.nextReq == c.nextReq
    && ((d.waiters == c.waiters && d.answered == c.answered)
        || (d.waiters == {} && d.answered == c.answered + order))
  }

  lemma DownKeepsOrFails(o: Options, c: Client, env: Env, graceful: bool, fixed: Option<real>, order: seq<nat>)
    ensures RequestsKeptOrFailed(c, OnDown(o, c, env, graceful, fixed, order), order)
  {}

  lemma DialKeepsWaiters(o: Options, c: Client, env: Env)
    ensures var d := Dial(o, c, env); d.nextReq == c.nextReq && d.waiters == c.waiters && d.answered == c.answered
  {}

  lemma RefusalKeepsOrFails(o: Options, c: Client, e: Event, env: Env, order: seq<nat>)
    requires e.HelloErr?
    ensures RequestsKeptOrFailed(c, Next(o, c, e, env, order), order)
  {
    var d := c.(fatal := c.fatal || !e.retryable);
    if e.reason == "at-capacity" {
      DownKeepsOrFails(o, d, env, false, Some(if e.retryAfterMs > 0.0 then e.retryAfterMs else 5000.0), order);
    } else {
      DownKeepsOrFails(o, d, env, e.reason == "clock-skew", None, order);
    }
  }

  lemma {:induction false} LinkEventsKeepOrFail(o: Options, c: Client, e: Event, env: Env, order: seq<nat>)
    requires !e.RequestPort? && !e.PortAck? && !e.PortTimeout?
    ensures RequestsKeptOrFailed(c, Next(o, c, e, env, order), order)
  {
    match e
    case HelloErr(_, _, _) => RefusalKeepsOrFails(o, c, e, env, order);
    case SocketClose(code) => DownKeepsOrFails(o, c, env, code == 1000 || code == 1001, None, order);
    case Bye => DownKeepsOrFails(o, c, env, true, None, order);
    case Stop =>
    case Start => DialKeepsWaiters(o, c.(stopped := false), env);
    case NetTick(_) =>
      DialKeepsWaiters(o, c, env);
      if c.retryTimer.Some? {
        DialKeepsWaiters(o, c.(timers := c.timers - {c.retryTimer.value}, retryTimer := None, nextRetryAt := None),
                         env);
      }
    case TimerFires(id) =>
      DialKeepsWaiters(o, c.(timers := c.timers - {id}, retryTimer := None, nextRetryAt := None), env);
    case SocketOpen =>
    case HelloAck(_) => DownKeepsOrFails(o, c, env, false, None, order);
    case SocketError => DownKeepsOrFails(o, c, env, false, None, order);
    case BadFrame => DownKeepsOrFails(o, c, env, false, None, order);
    case HalfOpenTick(_) => DownKeepsOrFails(o, c, env, false, None, order);
  }

  lemma AnswerKeepsRequests(c: Client, req: nat)
    requires RequestsInv(c)
    ensures RequestsInv(Answer(c, req))
  {}

  lemma NextKeepsRequests(o: Options, c: Client, e: Event, env: Env, order: seq<nat>)
    requires RequestsInv(c) && Lists(order, c.waiters)
    ensures RequestsInv(Next(o, c, e, env, order))
  {
    match e
    case RequestPort(sent) =>
      if c.state == Up && c.socket.Some? {
        var asked := c.(waiters := c.waiters + {c.nextReq}, nextReq := c.nextReq + 1);
        assert c.nextReq !in c.waiters && c.nextReq !in c.answered;
        assert RequestsInv(asked);
        AnswerKeepsRequests(asked, c.nextReq);
      }
    case PortAck(req) => AnswerKeepsRequests(c, req);
    case PortTimeout(req) => AnswerKeepsRequests(c, req);
    case _ =>
      FailKeepsRequests(c, order);
      LinkEventsKeepOrFail(o, c, e, env, order);
  }

  /**
   In every run each port request is in flight or has been resolved, never both, and no
   request is resolved twice. When the link goes down or the client stops, none stays in flight.
   */
  lemma {:induction false} RequestsResolveOnce(o: Options, inputs: seq<Input>)
    requires Possible(o, inputs)
    ensures RequestsInv(Run(o, inputs))
    ensures inputs != [] && inputs[|inputs| - 1].event.Stop? ==> Run(o, inputs).waiters == {}
    ensures inputs != [] && Run(o, inputs[..|inputs| - 1]).retryTimer.None?
            && (inputs[|inputs| - 1].event.SocketClose? || inputs[|inputs| - 1].event.SocketError?) ==>
              Run(o, inputs).waiters == {}
  {
    if inputs != [] {
      var init, last := inputs[..|inputs| - 1], inputs[|inputs| - 1];
      PrefixPossible(o, inputs);
      RequestsResolveOnce(o, init);
      NextKeepsRequests(o, Run(o, init), last.event, last.env, last.order);
    }
  }

  // ----- the object

  class RelayClient {
    const opts: Options
    var state: LinkState
    var stopped: bool
    var socket: Option<nat>
    var retryTimer: Option<nat>
    var attempts: nat
    var fatal: bool
    var burstUntil: Option<int>
    var unhealthySince: Option<int>
    var nextRetryAt: Option<int>
    var timers: set<nat>
    var nextId: nat
    var dials: nat
    var waiters: set<nat>
    var answered: seq<nat>
    var nextReq: nat
    ghost var history: seq<Mark>

    ghost function Model(): Client
      reads this
    {
      Client(state, stopped, socket, retryTimer, attempts, fatal, burstUntil, unhealthySince, nextRetryAt,
             timers, nextId, dials, waiters, answered, nextReq, history)
    }

    constructor (opts: Options)
      ensures Model() == INITIAL && this.opts == opts
    {
      this.opts := opts;
      state, stopped, socket, retryTimer, attempts, fatal := Idle, true, None, None, 0, false;
      burstUntil, unhealthySince, nextRetryAt := None, None, None;
      timers, nextId, dials, waiters, answered, nextReq, history := {}, 1, 0, {}, [], 1, [];
    }

    method EnterState(s: LinkState, now: int)
      modifies `state, `unhealthySince, `history
      ensures Model() == SetState(old(Model()), s, now)
    {
      if state == s {
        return;
      }
      if s == Backoff && unhealthySince.None? {
        unhealthySince := Some(now);
      } else if s == Up {
        unhealthySince := None;
      }
      state := s;
      history := if s == Backoff then history + [WentDown(now)] else if s == Up then history + [WentUp] else history;
    }

    method PlanRetry(env: Env, graceful: bool, fixed: Option<real>)
      modifies `attempts, `burstUntil, `nextRetryAt, `timers, `retryTimer, `nextId, `history
      ensures Model() == ScheduleRetry(opts, old(Model()), env, graceful, fixed)
    {
      if stopped || retryTimer.Some? {
        return;
      }
      var delay: int;
      ghost var mark, planned := Forgiven, ScheduleRetry(opts, Model(), env, graceful, fixed);
      if fixed.Some? {
        attempts := 0;
        delay := Max(100, Round(fixed.value));
      } else if graceful {
        burstUntil := if opts.burstWindow > 0 then Some(env.now + opts.burstWindow) else None;
        attempts := 0;
        delay := GracefulMs(opts);
      } else if burstUntil.Some? && env.now < burstUntil.value {
        attempts := 0;
        delay := GracefulMs(opts);
      } else {
        attempts := attempts + 1;
        delay := OrdinaryDelay(opts, attempts, fatal, env.jitter);
        mark := Ordinary(env.now);
      }
      assert planned.attempts == attempts && planned.burstUntil == burstUntil;
      assert planned.nextRetryAt == Some(env.now + delay) && planned.history == history + [mark];
      history := history + [mark];
      nextRetryAt := Some(env.now + delay);
      timers := timers + {nextId};
      retryTimer := Some(nextId);
      nextId := nextId + 1;
    }

    method CancelRetry()
      modifies `timers, `retryTimer, `nextRetryAt
      ensures Model() == var was := old(Model());
              was.(timers := if was.retryTimer.Some? then was.timers - {was.retryTimer.value} else was.timers,
                   retryTimer := None, nextRetryAt := None)
    {
      if retryTimer.Some? {
        timers := timers - {retryTimer.value};
      }
      retryTimer, nextRetryAt := None, None;
    }

    method OpenSocket(env: Env)
      modifies this
      ensures Model() == Dial(opts, old(Model()), env)
    {
      EnterState(Connecting, env.now);
      dials := dials + 1;
      if env.ctorThrows {
        PlanRetry(env, false, None);
        return;
      }
      socket := Some(nextId);
      nextId := nextId + 1;
    }

    method FailPortWaiters() returns (ghost order: seq<nat>)
      modifies `waiters, `answered
      ensures Lists(order, old(waiters))
      ensures Model() == FailWaiters(old(Model()), order)
    {
      order := [];
      while waiters != {}
        invariant Lists(order, old(waiters) - waiters) && waiters <= old(waiters)
        invariant Model() == old(Model()).(waiters := waiters, answered := old(answered) + order)
        decreases waiters
      {
        var req :| req in waiters;
        waiters := waiters - {req};
        answered := answered + [req];
        ghost var before := order;
        order := order + [req];
        assert forall x :: x in order <==> x in before || x == req;
      }
    }

    /** The link is gone: fail what is in flight, drop the socket, and plan the retry. */
    method LinkDown(env: Env, graceful: bool, fixed: Option<real>) returns (ghost order: seq<nat>)
      modifies this
      ensures Lists(order, old(waiters))
      ensures Model() == OnDown(opts, old(Model()), env, graceful, fixed, order)
    {
      if retryTimer.Some? {
        order := SomeOrder(waiters);
        return;
      }
      order := FailPortWaiters();
      socket := None;
      EnterState(Backoff, env.now);
      if stopped {
        return;
      }
      PlanRetry(env, graceful, fixed);
    }

    method Start(env: Env) returns (ghost order: seq<nat>)
      modifies this
      ensures Lists(order, old(waiters))
      ensures Model() == Next(opts, old(Model()), Event.Start, env, order)
    {
      order := SomeOrder(waiters);
      if !stopped {
        return;
      }
      stopped := false;
      OpenSocket(env);
    }

    method Stop(env: Env) returns (ghost order: seq<nat>)
      modifies this
      ensures Lists(order, old(waiters))
      ensures Model() == Next(opts, old(Model()), Event.Stop, env, order)
    {
      stopped := true;
      CancelRetry();
      order := FailPortWaiters();
      socket := None;
      EnterState(Stopped, env.now);
    }

    method OnSocketOpen(env: Env) returns (ghost order: seq<nat>)
      modifies this
      ensures Lists(order, old(waiters))
      ensures Model() == Next(opts, old(Model()), SocketOpen, env, order)
    {
      order := SomeOrder(waiters);
      EnterState(Handshaking, env.now);
    }

    method OnSocketClose(code: nat, env: Env) returns (ghost order: seq<nat>)
      modifies this
      ensures Lists(order, old(waiters))
      ensures Model() == Next(opts, old(Model()), SocketClose(code), env, order)
    {
      order := LinkDown(env, code == 1000 || code == 1001, None);
    }

    method OnHello(wellFormed: bool, env: Env) returns (ghost order: seq<nat>)
      modifies this
      ensures Lists(order, old(waiters))
      ensures Model() == Next(opts, old(Model()), HelloAck(wellFormed), env, order)
    {
      if !wellFormed {
        order := LinkDown(env, false, None);
        return;
      }
      order := SomeOrder(waiters);
      Forgive();
      EnterState(Up, env.now);
    }

    method Forgive()
      modifies `attempts, `fatal, `burstUntil, `nextRetryAt, `history
      ensures Model() == var was := old(Model());
              was.(attempts := 0, fatal := false, burstUntil := None, nextRetryAt := None,
                   history := was.history + [Forgiven])
    {
      attempts, fatal, burstUntil, nextRetryAt := 0, false, None, None;
      history := history + [Forgiven];
    }

    method OnHelloRefused(reason: string, retryable: bool, retryAfterMs: real, env: Env) returns (ghost order: seq<nat>)
      modifies this
      ensures Lists(order, old(waiters))
      ensures Model() == Next(opts, old(Model()), HelloErr(reason, retryable, retryAfterMs), env, order)
    {
      if !retryable {
        fatal := true;
      }
      if reason == "at-capacity" {
        order := LinkDown(env, false, Some(if retryAfterMs > 0.0 then retryAfterMs else 5000.0));
        if !stopped {
          EnterState(Queued, env.now);
        }
        return;
      }
      order := LinkDown(env, reason == "clock-skew", None);
    }

    method OnRetryTimer(id: nat, env: Env) returns (ghost order: seq<nat>)
      requires id in timers
      modifies this
      ensures Lists(order, old(waiters))
      ensures Model() == Next(opts, old(Model()), TimerFires(id), env, order)
    {
      order := SomeOrder(waiters);
      timers := timers - {id};
      retryTimer, nextRetryAt := None, None;
      if !stopped {
        OpenSocket(env);
      }
    }

    method OnNetTick(changed: bool, env: Env) returns (ghost order: seq<nat>)
      modifies this
      ensures Lists(order, old(waiters))
      ensures Model() == Next(opts, old(Model()), NetTick(changed), env, order)
    {
      order := SomeOrder(waiters);
      if stopped || !changed || state == Up {
        return;
      }
      if retryTimer.Some? {
        CancelRetry();
      }
      OpenSocket(env);
    }

    method OnHalfOpenTick(silent: bool, env: Env) returns (ghost order: seq<nat>)
      modifies this
      ensures Lists(order, old(waiters))
      ensures Model() == Next(opts, old(Model()), HalfOpenTick(silent), env, order)
    {
      if stopped || state != Up || !silent {
        order := SomeOrder(waiters);
        return;
      }
      order := LinkDown(env, false, None);
    }
  }

  /** A set can be listed; used where a handler fails no request. */
  ghost function SomeOrder(s: set<nat>): (order: seq<nat>)
    ensures Lists(order, s)
  {
    if s == {} then [] else
      var x :| x in s;
      var rest := SomeOrder(s - {x});
      assert forall y :: y in rest + [x] <==> y in rest || y == x;
      rest + [x]
  }
}
