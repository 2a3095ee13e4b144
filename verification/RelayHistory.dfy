/**
 What the relay client's fields say about its run: when it dials, since when a refusal is final, and
 that a due time is only announced for a retry that is pending.
 */
module RelayHistory {
  import opened Basics
  import opened RelayLifecycle

  // ----- backoff

  /** Twice as long with each ordinary retry, up to the seventh and the cap. */
  lemma BackoffDoubles(o: Options, attempts: nat)
    requires attempts >= 1
    ensures BackoffMs(o, 1) == if o.reconnectMin < o.reconnectMax then o.reconnectMin else o.reconnectMax
    ensures var next := if attempts <= 6 then 2 * BackoffMs(o, attempts) else BackoffMs(o, attempts);
            BackoffMs(o, attempts + 1) == if next < o.reconnectMax then next else o.reconnectMax
  {
    var k := Min(attempts - 1, 6);
    assert o.reconnectMin * (2 * Pow2(k)) == 2 * (o.reconnectMin * Pow2(k));
    assert Pow2(0) == 1;
  }

  // ----- when the client dials

  predicate Dials(c: Client, e: Event) {
    || (e.Start? && c.stopped)
    || (e == NetTick(true) && !c.stopped && c.state != Up)
    || (e.TimerFires? && e.id in c.timers && !c.stopped)
  }

  /** A socket is opened, or the constructor threw and a retry is planned instead. */
  predicate Dialled(o: Options, c: Client, d: Client, env: Env) {
    && d.dials == c.dials + 1 && d.state == Connecting && !d.stopped
    && (if env.ctorThrows then d.socket == c.socket && d.retryTimer.Some?
        else d.socket == Some(c.nextId) && d.retryTimer.None? && d.attempts == c.attempts)
  }

  lemma DialIs(o: Options, c: Client, env: Env)
    requires !c.stopped && c.retryTimer.None?
    ensures Dialled(o, c, Dial(o, c, env), env)
  {}

  /**
   In every run the client dials when it is started, when its retry is due, and when the network
   changed while it is not up, and at no other moment; each time it opens one socket, or plans a retry.
   */
  lemma DialsExactly(o: Options, inputs: seq<Input>, next: Input)
    ensures var c := Run(o, inputs); var d := Next(o, c, next.event, next.env, next.order);
            if Dials(c, next.event) then Dialled(o, c, d, next.env) else d.dials == c.dials
  {
    NeverStuck(o, inputs);
    var c, env := Run(o, inputs), next.env;
    match next.event
    case Start => if c.stopped { DialIs(o, c.(stopped := false), env); }
    case NetTick(changed) => if Dials(c, next.event) { TickDials(o, c, env); }
    case TimerFires(id) =>
      if Dials(c, next.event) {
        DialIs(o, c.(timers := c.timers - {id}, retryTimer := None, nextRetryAt := None), env);
      }
    case _ => DialsNothing(o, c, next.event, env, next.order);
  }

  lemma TickDials(o: Options, c: Client, env: Env)
    requires !c.stopped
    ensures Dialled(o, c, RetryNow(o, c, env), env)
  {
    if c.retryTimer.Some? {
      DialIs(o, c.(timers := c.timers - {c.retryTimer.value}, retryTimer := None, nextRetryAt := None), env);
    } else {
      DialIs(o, c, env);
    }
  }

  lemma DownDialsNothing(o: Options, c: Client, env: Env, graceful: bool, fixed: Option<real>, order: seq<nat>)
    ensures OnDown(o, c, env, graceful, fixed, order).dials == c.dials
  {}

  lemma DialsNothing(o: Options, c: Client, e: Event, env: Env, order: seq<nat>)
    requires !e.Start? && !e.NetTick? && !e.TimerFires?
    ensures Next(o, c, e, env, order).dials == c.dials
  {
    match e
    case SocketClose(code) => DownDialsNothing(o, c, env, code == 1000 || code == 1001, None, order);
    case HelloErr(reason, retryable, ms) =>
      var d := c.(fatal := c.fatal || !retryable);
      DownDialsNothing(o, d, env, false, Some(if ms > 0.0 then ms else 5000.0), order);
      DownDialsNothing(o, d, env, reason == "clock-skew", None, order);
    case Bye => DownDialsNothing(o, c, env, true, None, order);
    case SocketError => DownDialsNothing(o, c, env, false, None, order);
    case HelloAck(_) => DownDialsNothing(o, c, env, false, None, order);
    case BadFrame => DownDialsNothing(o, c, env, false, None, order);
    case HalfOpenTick(_) => DownDialsNothing(o, c, env, false, None, order);
    case _ =>
  }

  // ----- final refusals

  /** Since the last acknowledged hello the relay refused in a way that retrying does not cure. */
  function RefusedForGood(inputs: seq<Input>): bool {
    if inputs == [] then false
    else
      var before := RefusedForGood(inputs[..|inputs| - 1]);
      match inputs[|inputs| - 1].event
      case HelloAck(wellFormed) => !wellFormed && before
      case HelloErr(_, retryable, _) => before || !retryable
      case _ => before
  }

  lemma DownKeepsFatal(o: Options, c: Client, env: Env, graceful: bool, fixed: Option<real>, order: seq<nat>)
    ensures OnDown(o, c, env, graceful, fixed, order).fatal == c.fatal
  {}

  lemma DialKeepsFatal(o: Options, c: Client, env: Env)
    ensures Dial(o, c, env).fatal == c.fatal
  {}

  lemma FatalStep(o: Options, c: Client, e: Event, env: Env, order: seq<nat>)
    ensures Next(o, c, e, env, order).fatal
            == match e
               case HelloAck(wellFormed) => !wellFormed && c.fatal
               case HelloErr(_, retryable, _) => c.fatal || !retryable
               case _ => c.fatal
  {
    match e
    case Start => DialKeepsFatal(o, c.(stopped := false), env);
    case NetTick(_) =>
      DialKeepsFatal(o, c, env);
      if c.retryTimer.Some? {
        DialKeepsFatal(o, c.(timers := c.timers - {c.retryTimer.value}, retryTimer := None, nextRetryAt := None), env);
      }
    case TimerFires(id) =>
      DialKeepsFatal(o, c.(timers := c.timers - {id}, retryTimer := None, nextRetryAt := None), env);
    case SocketClose(code) => DownKeepsFatal(o, c, env, code == 1000 || code == 1001, None, order);
    case HelloErr(reason, retryable, ms) =>
      var d := c.(fatal := c.fatal || !retryable);
      DownKeepsFatal(o, d, env, false, Some(if ms > 0.0 then ms else 5000.0), order);
      DownKeepsFatal(o, d, env, reason == "clock-skew", None, order);
    case Bye => DownKeepsFatal(o, c, env, true, None, order);
    case SocketError => DownKeepsFatal(o, c, env, false, None, order);
    case HelloAck(_) => DownKeepsFatal(o, c, env, false, None, order);
    case BadFrame => DownKeepsFatal(o, c, env, false, None, order);
    case HalfOpenTick(_) => DownKeepsFatal(o, c, env, false, None, order);
    case _ =>
  }

  /** In every run a refusal counts as final exactly from a final one on until a hello is acknowledged. */
  lemma {:induction false} FatalExactly(o: Options, inputs: seq<Input>)
    ensures Run(o, inputs).fatal == RefusedForGood(inputs)
  {
    if inputs != [] {
      var init, last := inputs[..|inputs| - 1], inputs[|inputs| - 1];
      FatalExactly(o, init);
      FatalStep(o, Run(o, init), last.event, last.env, last.order);
    }
  }

  /** An ordinary retry then waits the longest time, and else at most a quarter more or less than its step. */
  lemma OrdinaryDelayIs(o: Options, attempts: nat, fatal: bool, jitter: Jitter)
    requires attempts >= 1
    ensures var delay := OrdinaryDelay(o, attempts, fatal, jitter);
            if fatal then delay == o.reconnectMax else WithinAQuarter(delay, BackoffMs(o, attempts), jitter)
  {
    var exp := BackoffMs(o, attempts) as real;
    var x := exp + exp * 0.25 * jitter;
    JitterWithin(exp, jitter, x);
    if jitter == 0.0 { NoJitter(exp, jitter); }
    RoundedStep(BackoffMs(o, attempts), x, jitter);
    assert !fatal ==> OrdinaryDelay(o, attempts, fatal, jitter) == Max(200, Round(x));
  }

  /** At least 200 ms, and above that at most a quarter away from the step, rounded; without jitter the step itself. */
  predicate WithinAQuarter(delay: int, step: nat, jitter: Jitter) {
    && delay >= 200
    && (delay > 200 ==> step as real * 0.75 - 0.5 <= delay as real <= step as real * 1.25 + 0.5)
    && (jitter == 0.0 && step > 200 ==> delay == step)
  }

  lemma RoundedStep(step: nat, x: real, jitter: Jitter)
    requires step as real * 0.75 <= x <= step as real * 1.25 && (jitter == 0.0 ==> x == step as real)
    ensures WithinAQuarter(Max(200, Round(x)), step, jitter)
  {
    RoundNear(x);
    RoundWhole(step);
  }

  lemma NoJitter(step: real, jitter: Jitter)
    requires jitter == 0.0
    ensures step + step * 0.25 * jitter == step
  {}

  lemma JitterWithin(step: real, jitter: Jitter, x: real)
    requires step >= 0.0 && x == step + step * 0.25 * jitter
    ensures step * 0.75 <= x && x <= step * 1.25
  {
    assert step * 0.25 * (1.0 - jitter) >= 0.0;
    assert step * 0.25 * (1.0 + jitter) >= 0.0;
  }

  lemma RoundNear(x: real)
    ensures x - 0.5 <= Round(x) as real <= x + 0.5
  {
    assert Round(x) as real <= x + 0.5 < Round(x) as real + 1.0;
  }

  lemma RoundWhole(n: nat)
    ensures Round(n as real) == n
  {
    assert Round(n as real) as real <= n as real + 0.5 < Round(n as real) as real + 1.0;
  }

  // ----- a due time is that of a pending retry

  lemma DownKeepsDue(o: Options, c: Client, env: Env, graceful: bool, fixed: Option<real>, order: seq<nat>)
    requires c.nextRetryAt.Some? ==> c.retryTimer.Some?
    ensures var d := OnDown(o, c, env, graceful, fixed, order); d.nextRetryAt.Some? ==> d.retryTimer.Some?
  {}

  lemma DialKeepsDue(o: Options, c: Client, env: Env)
    requires c.nextRetryAt.Some? ==> c.retryTimer.Some?
    ensures var d := Dial(o, c, env); d.nextRetryAt.Some? ==> d.retryTimer.Some?
  {}

  lemma DueStep(o: Options, c: Client, e: Event, env: Env, order: seq<nat>)
    requires c.nextRetryAt.Some? ==> c.retryTimer.Some?
    ensures var d := Next(o, c, e, env, order); d.nextRetryAt.Some? ==> d.retryTimer.Some?
  {
    match e
    case Start => DialKeepsDue(o, c.(stopped := false), env);
    case NetTick(_) =>
      DialKeepsDue(o, c, env);
      if c.retryTimer.Some? {
        DialKeepsDue(o, c.(timers := c.timers - {c.retryTimer.value}, retryTimer := None, nextRetryAt := None), env);
      }
    case TimerFires(id) => DialKeepsDue(o, c.(timers := c.timers - {id}, retryTimer := None, nextRetryAt := None), env);
    case SocketClose(code) => DownKeepsDue(o, c, env, code == 1000 || code == 1001, None, order);
    case HelloErr(reason, retryable, ms) =>
      var d := c.(fatal := c.fatal || !retryable);
      DownKeepsDue(o, d, env, false, Some(if ms > 0.0 then ms else 5000.0), order);
      DownKeepsDue(o, d, env, reason == "clock-skew", None, order);
    case Bye => DownKeepsDue(o, c, env, true, None, order);
    case SocketError => DownKeepsDue(o, c, env, false, None, order);
    case HelloAck(_) => DownKeepsDue(o, c, env, false, None, order);
    case BadFrame => DownKeepsDue(o, c, env, false, None, order);
    case HalfOpenTick(_) => DownKeepsDue(o, c, env, false, None, order);
    case _ =>
  }

  /** In every run a time for the next retry is announced only while a retry is pending. */
  lemma {:induction false} DueMeansPending(o: Options, inputs: seq<Input>)
    ensures Run(o, inputs).nextRetryAt.Some? ==> Run(o, inputs).retryTimer.Some?
  {
    if inputs != [] {
      var init, last := inputs[..|inputs| - 1], inputs[|inputs| - 1];
      DueMeansPending(o, init);
      DueStep(o, Run(o, init), last.event, last.env, last.order);
    }
  }

  // ----- a new start

  /**
   In every run an acknowledged hello leaves nothing of the failures before it: the client is up and
   healthy, no window is open, and the next unplanned end is followed by the first step of the backoff.
   */
  lemma HelloForgets(o: Options, inputs: seq<Input>, ack: Input, end: Input)
    requires ack.event == HelloAck(true)
    ensures var d := Next(o, Run(o, inputs), ack.event, ack.env, ack.order);
            && d.state == Up && d.unhealthySince.None? && d.attempts == 0 && !d.fatal && d.burstUntil.None?
            && d.nextRetryAt.None?
            && (!d.stopped && d.retryTimer.None? && EndsLink(d, end.event) && !Planned(end.event) &&
                !end.event.HelloErr? ==>
                  var n := Next(o, d, end.event, end.env, end.order);
                  n.attempts == 1 && n.nextRetryAt == Some(end.env.now + OrdinaryDelay(o, 1, false, end.env.jitter)))
  {
    var c := Run(o, inputs);
    HealthIsFirstFailure(o, inputs);
    var d := Next(o, c, ack.event, ack.env, ack.order);
    assert d == OnHelloAck(c, ack.env.now);
    AckForgets(c, ack.env.now);
    if !d.stopped && d.retryTimer.None? && EndsLink(d, end.event) && !Planned(end.event) && !end.event.HelloErr? {
      FirstEndAnew(o, d, end);
    }
  }

  lemma AckForgets(c: Client, now: int)
    requires c.state == Up ==> c.unhealthySince.None?
    ensures var d := OnHelloAck(c, now);
            && d.state == Up && d.unhealthySince.None? && d.attempts == 0 && !d.fatal && d.burstUntil.None?
            && d.nextRetryAt.None?
  {}

  lemma FirstEndAnew(o: Options, d: Client, end: Input)
    requires d.attempts == 0 && !d.fatal && d.burstUntil.None? && !d.stopped && d.retryTimer.None?
    requires EndsLink(d, end.event) && !Planned(end.event) && !end.event.HelloErr?
    ensures var n := Next(o, d, end.event, end.env, end.order);
            n.attempts == 1 && n.nextRetryAt == Some(end.env.now + OrdinaryDelay(o, 1, false, end.env.jitter))
  {
    EndExactly(o, d, end.event, end.env, end.order);
  }

  /** A port is asked for exactly while the link is up; what cannot be sent is answered at once. */
  lemma PortsAreAskedWhenUp(o: Options, c: Client, sent: bool, env: Env, order: seq<nat>)
    ensures var d := Next(o, c, RequestPort(sent), env, order);
            if c.state == Up && c.socket.Some?
            then d.nextReq == c.nextReq + 1 && (c.nextReq in d.waiters <==> sent)
                 && (c.nextReq !in c.waiters ==>
                       d.waiters - {c.nextReq} == c.waiters &&
                         d.answered == c.answered + if sent then [] else [c.nextReq])
            else d == c
  {
    if c.nextReq !in c.waiters {
      assert (c.waiters + {c.nextReq}) - {c.nextReq} == c.waiters;
    }
  }
}
