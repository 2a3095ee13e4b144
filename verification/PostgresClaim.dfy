/**
 The Postgres adapter runs claim and pin as separate statements, each atomic, with anything
 in between. This module proves that every interleaving refines a run in which each call is
 one atomic SQLite call placed between its invocation and its answer.
 */
module PostgresClaim {
  import opened Basics
  import opened LeaseRows

  type CallId = nat

  /** A call as invoked; `now` is read once, before the first statement. */
  datatype Op =
    | Claim(user: User, host: Host, now: int, ttl: nat, meta: Meta)
    | Renew(user: User, host: Host, epoch: nat, now: int, ttl: nat)
    | Release(user: User, host: Host, epoch: nat)
    | Pin(user: User, host: Host, now: int)

  datatype Answer = ClaimReply(result: ClaimResult) | Changed(ok: bool) | Nothing

  /** How far a call has got. `Missed`: the claim's UPDATE hit no row, the SELECT is next. */
  datatype Phase = Begun | Inserted | Missed | Done(answer: Answer)

  datatype Call = Call(op: Op, phase: Phase)

  datatype Server = Server(rows: Rows, calls: map<CallId, Call>)

  datatype Event = Invoke(id: CallId, op: Op) | Exec(id: CallId)

  // ----- the statements

  function RunStatement(rows: Rows, call: Call): (Rows, Phase) {
    match call
    case Call(Claim(user, host, now, ttl, meta), Begun) =>
      (InsertIfMissing(rows, user, FRESH_ROW), Inserted)
    case Call(Claim(user, host, now, ttl, meta), Inserted) =>
      if user in rows && Free(rows[user], now)
      then (rows[user := Taken(rows[user], host, now, ttl, meta)],
            Done(ClaimReply(Claimed(rows[user].epoch + 1, now + ttl))))
      else (rows, Missed)
    case Call(Claim(user, host, now, ttl, meta), Missed) =>
      (rows, Done(ClaimReply(if user in rows then Busy(rows[user].host, rows[user].leaseUntil) else Busy(None, 0))))
    case Call(Renew(user, host, epoch, now, ttl), Begun) =>
      (AfterRenew(rows, user, host, epoch, now, ttl), Done(Changed(Matches(rows, user, host, epoch))))
    case Call(Release(user, host, epoch), Begun) =>
      (AfterRelease(rows, user, host, epoch), Done(Changed(Matches(rows, user, host, epoch))))
    case Call(Pin(user, host, now), Begun) =>
      (InsertIfMissing(rows, user, FRESH_ROW.(host := Some(host))), Inserted)
    case Call(Pin(user, host, now), Inserted) =>
      (if user in rows && Free(rows[user], now) then rows[user := rows[user].(host := Some(host))] else rows,
       Done(Nothing))
    case _ => (rows, call.phase)
  }

  function Next(s: Server, e: Event): Server {
    match e
    case Invoke(id, op) =>
      if id in s.calls then s else s.(calls := s.calls[id := Call(op, Begun)])
    case Exec(id) =>
      if id !in s.calls then s
      else
        var (rows, phase) := RunStatement(s.rows, s.calls[id]);
        Server(rows, s.calls[id := s.calls[id].(phase := phase)])
  }

  function Run(rows: Rows, events: seq<Event>): Server {
    if events == [] then Server(rows, map[])
    else Next(Run(rows, events[..|events| - 1]), events[|events| - 1])
  }

  // ----- the atomic calls

  function AtomicRows(rows: Rows, op: Op): Rows {
    match op
    case Claim(user, host, now, ttl, meta) => AfterClaim(rows, user, host, now, ttl, meta)
    case Renew(user, host, epoch, now, ttl) => AfterRenew(rows, user, host, epoch, now, ttl)
    case Release(user, host, epoch) => AfterRelease(rows, user, host, epoch)
    case Pin(user, host, now) => AfterPin(rows, user, host, now)
  }

  function AtomicAnswer(rows: Rows, op: Op): Answer {
    match op
    case Claim(user, host, now, ttl, meta) => ClaimReply(LeaseRows.ClaimAnswer(rows, user, now, ttl))
    case Renew(user, host, epoch, _, _) => Changed(Matches(rows, user, host, epoch))
    case Release(user, host, epoch) => Changed(Matches(rows, user, host, epoch))
    case Pin(_, _, _) => Nothing
  }

  datatype Entry = Entry(id: CallId, op: Op)

  function AtomicRun(rows: Rows, log: seq<Entry>): Rows {
    if log == [] then rows else AtomicRows(AtomicRun(rows, log[..|log| - 1]), log[|log| - 1].op)
  }

  /** The answer the `i`-th atomic call of the log gets. */
  function AnswerAt(rows: Rows, log: seq<Entry>, i: nat): Answer
    requires i < |log|
  {
    AtomicAnswer(AtomicRun(rows, log[..i]), log[i].op)
  }

  /**
   Which statement is a call's atomic point: the UPDATE of a claim, the only statement of a
   renewal or release, and of a pin its UPDATE and also its INSERT if that creates the row.
   */
  predicate TakesEffect(s: Server, id: CallId) {
    id in s.calls &&
    match s.calls[id]
    case Call(Claim(_, _, _, _, _), phase) => phase.Inserted?
    case Call(Pin(user, _, _), phase) => phase.Inserted? || (phase.Begun? && user !in s.rows)
    case Call(_, phase) => phase.Begun?
  }

  /** The atomic calls of an interleaving, in the order of their atomic points. */
  function Linearized(rows: Rows, events: seq<Event>): seq<Entry> {
    if events == [] then []
    else
      var s := Run(rows, events[..|events| - 1]);
      var e := events[|events| - 1];
      Linearized(rows, events[..|events| - 1])
      + if e.Exec? && TakesEffect(s, e.id) then [Entry(e.id, s.calls[e.id].op)] else []
  }

  // ----- refinement

  /** Equal up to rows that exist but are still fresh, which read like missing rows. */
  ghost predicate SameRows(pg: Rows, lite: Rows) {
    && lite.Keys <= pg.Keys
    && forall user :: Lookup(pg, user) == Lookup(lite, user)
  }

  /** A claim past its INSERT has a row; rows are never deleted. */
  ghost predicate RowsInserted(s: Server) {
    forall id :: id in s.calls && s.calls[id].phase != Begun && (s.calls[id].op.Claim? || s.calls[id].op.Pin?) ==>
      s.calls[id].op.user in s.rows
  }

  lemma RowsStay(s: Server, e: Event)
    ensures s.rows.Keys <= Next(s, e).rows.Keys
  {}

  lemma {:induction false} RowsInsertedAlways(rows: Rows, events: seq<Event>)
    ensures RowsInserted(Run(rows, events))
  {
    if events != [] {
      RowsInsertedAlways(rows, events[..|events| - 1]);
      RowsStay(Run(rows, events[..|events| - 1]), events[|events| - 1]);
    }
  }

  lemma SetBoth(pg: Rows, lite: Rows, user: User, row: Row)
    requires SameRows(pg, lite)
    ensures SameRows(pg[user := row], lite[user := row])
  {
    var pg', lite' := pg[user := row], lite[user := row];
    forall other | other != user
      ensures Lookup(pg', other) == Lookup(lite', other)
    {
      assert Lookup(pg, other) == Lookup(lite, other);
    }
  }

  lemma ClaimRefines(pg: Rows, lite: Rows, user: User, host: Host, now: int, ttl: nat, meta: Meta)
    requires SameRows(pg, lite) && user in pg
    ensures SameRows(if Free(pg[user], now) then pg[user := Taken(pg[user], host, now, ttl, meta)] else pg,
                     AfterClaim(lite, user, host, now, ttl, meta))
  {
    assert Lookup(pg, user) == Lookup(lite, user);
    assert pg[user := pg[user]] == pg;
    SetBoth(pg, lite, user, if Free(pg[user], now) then Taken(pg[user], host, now, ttl, meta) else pg[user]);
  }

  lemma PinRefines(pg: Rows, lite: Rows, user: User, host: Host, now: int)
    requires SameRows(pg, lite) && user in pg
    ensures SameRows(if Free(pg[user], now) then pg[user := pg[user].(host := Some(host))] else pg,
                     AfterPin(lite, user, host, now))
  {
    assert Lookup(pg, user) == Lookup(lite, user);
    assert pg[user := pg[user]] == pg && (user in lite ==> lite[user := lite[user]] == lite);
    SetBoth(pg, lite, user, if Free(pg[user], now) then pg[user].(host := Some(host)) else pg[user]);
  }

  lemma StepRefines(s: Server, e: Event, lite: Rows)
    requires SameRows(s.rows, lite) && RowsInserted(s)
    ensures SameRows(Next(s, e).rows,
                     if e.Exec? && TakesEffect(s, e.id) then AtomicRows(lite, s.calls[e.id].op) else lite)
    ensures e.Exec? && TakesEffect(s, e.id) && !s.calls[e.id].op.Pin? ==>
              var answer := AtomicAnswer(lite, s.calls[e.id].op);
              Next(s, e).calls[e.id].phase ==
              if answer.ClaimReply? && answer.result.Busy? then Missed else Done(answer)
  {
    if e.Exec? && TakesEffect(s, e.id) {
      var op := s.calls[e.id].op;
      assert Lookup(s.rows, op.user) == Lookup(lite, op.user);
      match op
      case Claim(user, host, now, ttl, meta) =>
        ClaimRefines(s.rows, lite, user, host, now, ttl, meta);
      case Pin(user, host, now) =>
        if s.calls[e.id].phase.Inserted? {
          assert user in s.rows;
          PinRefines(s.rows, lite, user, host, now);
        } else {
          SetBoth(s.rows, lite, user, FRESH_ROW.(host := Some(host)));
          assert AfterPin(lite, user, host, now) == lite[user := FRESH_ROW.(host := Some(host))];
        }
      case Renew(user, host, epoch, now, ttl) =>
        if Matches(s.rows, user, host, epoch) {
          SetBoth(s.rows, lite, user, s.rows[user].(heartbeat := now, leaseUntil := now + ttl));
        }
      case Release(user, host, epoch) =>
        if Matches(s.rows, user, host, epoch) {
          SetBoth(s.rows, lite, user, s.rows[user].(leaseUntil := 0));
        }
    }
  }

  /** Row for row, every interleaving of statements equals its run of atomic calls. */
  lemma {:induction false} RowsRefine(rows: Rows, events: seq<Event>)
    ensures SameRows(Run(rows, events).rows, AtomicRun(rows, Linearized(rows, events)))
  {
    if events != [] {
      var init := events[..|events| - 1];
      RowsRefine(rows, init);
      RowsInsertedAlways(rows, init);
      var log := Linearized(rows, events);
      StepRefines(Run(rows, init), events[|events| - 1], AtomicRun(rows, Linearized(rows, init)));
      if log != Linearized(rows, init) {
        assert log[..|log| - 1] == Linearized(rows, init);
      }
    }
  }

  function Occurrences(log: seq<Entry>, id: CallId): nat {
    if log == [] then 0
    else Occurrences(log[..|log| - 1], id) + if log[|log| - 1].id == id then 1 else 0
  }

  predicate Lost(answer: Answer) {
    answer.ClaimReply? && answer.result.Busy?
  }

  /**
   What a call reports and what its atomic call answers: a claim wins exactly when its atomic
   call wins, with the same epoch and lease end; a losing claim loses; any other answer is equal.
   */
  predicate Agrees(call: Call, atomic: Answer) {
    match call.phase
    case Done(answer) => if call.op.Claim? && Lost(answer) then Lost(atomic) else atomic == answer
    case _ => call.phase.Missed? && Lost(atomic)
  }

  /** One of the atomic calls is this call, with an answer that agrees. */
  ghost predicate Answered(rows: Rows, log: seq<Entry>, id: CallId, call: Call) {
    exists i :: 0 <= i < |log| && log[i] == Entry(id, call.op) && Agrees(call, AnswerAt(rows, log, i))
  }

  /** How many atomic calls a call has contributed so far, and that its report agrees with them. */
  ghost predicate CallRefines(rows: Rows, call: Call, log: seq<Entry>, id: CallId) {
    var n := Occurrences(log, id);
    if call.op.Pin? then
      match call.phase
      case Begun => n == 0
      case Inserted => n <= 1
      case Missed => false
      case Done(_) => 1 <= n <= 2
    else if call.phase.Begun? || call.phase.Inserted? then
      n == 0 && (call.phase.Inserted? ==> call.op.Claim?)
    else
      n == 1 && Answered(rows, log, id, call) && (call.phase.Missed? ==> call.op.Claim?)
  }

  /**
   Every call takes effect atomically exactly once (a pin once or twice), between its
   invocation and its answer, and reports what its atomic call answers. Only the holder that a
   losing claim reports may be newer than its atomic point.
   */
  lemma {:induction false} CallsRefine(rows: Rows, events: seq<Event>, id: CallId)
    ensures var s := Run(rows, events); var log := Linearized(rows, events);
            if id in s.calls then CallRefines(rows, s.calls[id], log, id) else Occurrences(log, id) == 0
  {
    if events != [] {
      var init := events[..|events| - 1];
      var e := events[|events| - 1];
      var s, log := Run(rows, init), Linearized(rows, init);
      CallsRefine(rows, init, id);
      RowsRefine(rows, init);
      RowsInsertedAlways(rows, init);
      StepRefines(s, e, AtomicRun(rows, log));
      if e.Exec? && TakesEffect(s, e.id) {
        assert Linearized(rows, events) == log + [Entry(e.id, s.calls[e.id].op)];
        CallStep(rows, log, s, e.id, id);
      } else {
        assert Linearized(rows, events) == log;
      }
    }
  }

  lemma CallStep(rows: Rows, log: seq<Entry>, s: Server, acting: CallId, id: CallId)
    requires acting in s.calls && TakesEffect(s, acting)
    requires if id in s.calls then CallRefines(rows, s.calls[id], log, id) else Occurrences(log, id) == 0
    requires !s.calls[acting].op.Pin? ==>
               var answer := AtomicAnswer(AtomicRun(rows, log), s.calls[acting].op);
               Next(s, Exec(acting)).calls[acting].phase ==
               if answer.ClaimReply? && answer.result.Busy? then Missed else Done(answer)
    ensures var longer := log + [Entry(acting, s.calls[acting].op)];
            if id in s.calls then CallRefines(rows, Next(s, Exec(acting)).calls[id], longer, id)
            else Occurrences(longer, id) == 0
  {
    var entry := Entry(acting, s.calls[acting].op);
    var longer := log + [entry];
    Appended(rows, log, entry);
    if id in s.calls && !s.calls[id].op.Pin? {
      var call := Next(s, Exec(acting)).calls[id];
      if id == acting {
        assert longer[|log|] == Entry(id, call.op) && Agrees(call, AnswerAt(rows, longer, |log|));
      } else if Answered(rows, log, id, call) {
        var i :| 0 <= i < |log| && log[i] == Entry(id, call.op) && Agrees(call, AnswerAt(rows, log, i));
        assert longer[i] == Entry(id, call.op) && Agrees(call, AnswerAt(rows, longer, i));
      }
    }
  }

  lemma {:induction false} Appended(rows: Rows, log: seq<Entry>, entry: Entry)
    ensures var longer := log + [entry];
            && longer[|log|] == entry && AnswerAt(rows, longer, |log|) == AtomicAnswer(AtomicRun(rows, log), entry.op)
            && (forall id :: Occurrences(longer, id) == Occurrences(log, id) + if entry.id == id then 1 else 0)
            && (forall i :: 0 <= i < |log| ==>
                longer[i] == log[i] && AnswerAt(rows, longer, i) == AnswerAt(rows, log, i))
  {
    var longer := log + [entry];
    assert longer[..|log|] == log;
    forall i | 0 <= i < |log| ensures longer[..i] == log[..i] {}
  }

  function Alone(s: Server, id: CallId, op: Op): Server {
    Next(Next(Next(Next(s, Invoke(id, op)), Exec(id)), Exec(id)), Exec(id))
  }

  /** A call whose statements nothing interrupts is the atomic call: three statements at most, its answer, its rows. */
  lemma AloneIsAtomic(s: Server, id: CallId, op: Op)
    requires id !in s.calls
    ensures Alone(s, id, op).calls == s.calls[id := Call(op, Done(AtomicAnswer(s.rows, op)))]
    ensures SameRows(Alone(s, id, op).rows, AtomicRows(s.rows, op))
  {
    match op
    case Claim(user, host, now, ttl, meta) =>
      var rows := InsertIfMissing(s.rows, user, FRESH_ROW);
      assert Lookup(rows, user) == Lookup(s.rows, user);
    case _ =>
  }
}
