/**
 Requests and verifications of mail codes that overlap in time. Between reading the counts and
 recording the row, and between reading a code and closing it, other calls run: the promises of
 `EmailGuard` then hold with as much slack as there is overlap.
 */
module EmailOverlap {
  import opened Basics
  import opened EmailGuard

  /** A request that has its verdict and has still to be mailed and recorded, with the time it was read at. */
  datatype Ask = Ask(email: string, ip: Option<string>, username: string, at: int, verdict: SendVerdict)

  /**
   A verification that has read an open code: whether it guessed right, and whether a wrong guess is to
   close the code.
   */
  datatype Guess = Guess(code: nat, right: bool, closes: bool, at: int)

  datatype Race = Race(store: Store, asks: map<nat, Ask>, guesses: map<nat, Guess>)

  datatype Step =
    | Check(id: nat, email: string, ip: Option<string>, username: string, purgeWorks: bool)
    | Record(id: nat, code: string, mailOk: bool)
    | Look(id: nat, email: string, username: string, code: string, pick: nat)
    | Settle(id: nat)

  function RowAt(rows: seq<Row>, id: nat): (at: Option<nat>)
    ensures at.Some? ==> at.value < |rows| && rows[at.value].id == id
    ensures at.None? ==> forall r :: r in rows ==> r.id != id
  {
    if rows == [] then None
    else
      assert rows == rows[..|rows| - 1] + [rows[|rows| - 1]];
      if rows[|rows| - 1].id == id then Some(|rows| - 1) else RowAt(rows[..|rows| - 1], id)
  }

  /** The reading half of a verification: nothing to do later if it is refused at once. */
  function Looked(p: Policy, hash: Hash, lower: string -> string, s: Store, e: Step, now: int): Option<Guess>
    requires e.Look?
  {
    if !WellFormedCode(e.code) || !IsLatestSent(s.rows, e.email, e.pick) then None
    else
      var r := s.rows[e.pick];
      if !EvaluateVerifyGuard(Some(r), now, p).CodeOk? then None
      else if r.username.Some? && lower(r.username.value) != lower(e.username) then None
      else Some(Guess(r.id, r.codeHash == Some(hash(e.email, e.code)), r.attempts + 1 >= p.maxAttempts, now))
  }

  /** The writing half: an update of the code's row if that is still open. */
  function Settled(s: Store, g: Guess): Store {
    var pick := RowAt(s.rows, g.code);
    if pick.None? || s.rows[pick.value].consumedAt.Some? then s
    else if g.right then Consumed(s, pick.value, g.at)
    else Bumped(s, pick.value, g.closes, g.at)
  }

  function RecordedAs(p: Policy, hash: Hash, s: Store, a: Ask, code: string, mailOk: bool): Store {
    if a.verdict.Refused? then Recorded(s, a.email, Throttled, a.ip, a.username, None, a.at, None)
    else if !mailOk then Recorded(s, a.email, Failed, a.ip, a.username, None, a.at, None)
    else Recorded(s, a.email, Sent, a.ip, a.username, Some(hash(a.email, code)), a.at, Some(a.at + p.codeTtl))
  }

  /** A step that cannot happen changes nothing. */
  function Do(p: Policy, hash: Hash, lower: string -> string, s: Race, e: Step, now: int): Race {
    match e
    case Check(id, email, ip, username, purgeWorks) =>
      if id in s.asks then s
      else
        var t := MaybePurge(s.store, now, purgeWorks);
        s.(store := t, asks := s.asks[id := Ask(email, ip, username, now, Verdict(t.rows, email, ip, now, p))])
    case Record(id, code, mailOk) =>
      if id !in s.asks then s
      else s.(store := RecordedAs(p, hash, s.store, s.asks[id], code, mailOk), asks := s.asks - {id})
    case Look(id, _, _, _, _) =>
      if id in s.guesses then s
      else
        var g := Looked(p, hash, lower, s.store, e, now);
        if g.None? then s else s.(guesses := s.guesses[id := g.value])
    case Settle(id) =>
      if id !in s.guesses then s else s.(store := Settled(s.store, s.guesses[id]), guesses := s.guesses - {id})
  }

  datatype At = At(step: Step, now: int)

  const NO_RACE := Race(EMPTY, map[], map[])

  function Course(p: Policy, hash: Hash, lower: string -> string, run: seq<At>): Race {
    if run == [] then NO_RACE
    else Do(p, hash, lower, Course(p, hash, lower, run[..|run| - 1]), run[|run| - 1].step, run[|run| - 1].now)
  }

  /** The clock does not go back. */
  predicate Ordered(run: seq<At>) {
    forall i, j :: 0 <= i < j < |run| ==> run[i].now <= run[j].now
  }

  /** Without a step in between, checking and recording are the whole request. */
  lemma RequestInHalves(p: Policy, hash: Hash, lower: string -> string, s: Race, id: nat, e: Event, now: int)
    requires id !in s.asks && e.Request?
    ensures var a := Do(p, hash, lower, s, Check(id, e.email, e.ip, e.username, e.purgeWorks), now);
            Do(p, hash, lower, a, Record(id, e.code, e.mailOk), now)
              == s.(store := Next(p, hash, lower, s.store, e, now))
  {
    var a := Do(p, hash, lower, s, Check(id, e.email, e.ip, e.username, e.purgeWorks), now);
    assert a.asks - {id} == s.asks;
  }

  /** And reading and settling are the whole verification. */
  lemma VerificationInHalves(p: Policy, hash: Hash, lower: string -> string, s: Race, id: nat, e: Event, now: int)
    requires id !in s.guesses && e.Verify?
    requires forall i, j :: 0 <= i < j < |s.store.rows| ==> s.store.rows[i].id != s.store.rows[j].id
    ensures var a := Do(p, hash, lower, s, Look(id, e.email, e.username, e.code, e.pick), now);
            Do(p, hash, lower, a, Settle(id), now) == s.(store := Next(p, hash, lower, s.store, e, now))
  {
    var a := Do(p, hash, lower, s, Look(id, e.email, e.username, e.code, e.pick), now);
    if id in a.guesses {
      assert a.guesses - {id} == s.guesses;
      assert RowAt(s.store.rows, s.store.rows[e.pick].id) == Some(e.pick);
    }
  }

  // ----- quotas with overlap

  predicate Concerns(a: Ask, scope: Scope) {
    match scope
    case OfEmail(email) => a.email == email
    case SentTo(email) => a.email == email
    case OfIp(ip) => a.ip == Some(ip)
    case Everyone => true
  }

  /** The requests in scope that were let through and are not yet recorded. */
  ghost function Under(s: Race, scope: Scope): set<nat> {
    set i | i in s.asks && s.asks[i].verdict.Allowed? && Concerns(s.asks[i], scope)
  }

  ghost function UnderIn(s: Race, scope: Scope, lo: int, hi: int): set<nat> {
    set i | i in s.asks && s.asks[i].verdict.Allowed? && Concerns(s.asks[i], scope) && lo <= s.asks[i].at <= hi
  }

  /**
   The rows count as the log does, and recorded and pending requests together stay within the quota and
   the overlap.
   */
  ghost predicate SlackInv(p: Policy, s: Race, now: int, scope: Scope, m: nat) {
    && SameCounts(s.store, now)
    && forall lo :: SlackAt(p, s, scope, lo, m)
  }

  ghost predicate SameCounts(s: Store, now: int) {
    forall scope, lo :: lo >= now - PURGE_AGE ==> CountSince(s.rows, scope, lo) == CountSince(s.log, scope, lo)
  }

  ghost predicate SlackAt(p: Policy, s: Race, scope: Scope, lo: int, m: nat) {
    var hi := lo + WindowOf(scope);
    Tally(s.store.log, scope, lo, hi) + |UnderIn(s, scope, lo, hi)| <= Max(0, QuotaOf(p, scope)) + m - 1
  }

  lemma SubsetSize(a: set<nat>, b: set<nat>)
    requires a <= b
    ensures |a| <= |b|
  {
    assert b == a + (b - a);
  }

  lemma PurgeKeepsCounts(s: Store, before: int, now: int, works: bool)
    requires SameCounts(s, before) && before <= now
    ensures SameCounts(MaybePurge(s, now, works), now)
  {
    forall scope, lo | lo >= now - PURGE_AGE
      ensures CountSince(MaybePurge(s, now, works).rows, scope, lo) == CountSince(s.log, scope, lo)
    {
      CountPurged(s.rows, now - PURGE_AGE, scope, lo);
    }
  }

  lemma CheckKeepsSlack(p: Policy, s: Race, d: Race, id: nat, now: int, scope: Scope, lo: int, m: nat)
    requires SlackAt(p, s, scope, lo, m) && SameCounts(d.store, now)
    requires id !in s.asks && id in d.asks && d.asks == s.asks[id := d.asks[id]] && d.store.log == s.store.log
    requires var a := d.asks[id]; a.at == now && a.verdict == Verdict(d.store.rows, a.email, a.ip, now, p)
    requires |Under(d, scope)| <= m
    ensures SlackAt(p, d, scope, lo, m)
  {
    var a, hi := d.asks[id], lo + WindowOf(scope);
    if a.verdict.Allowed? && Concerns(a, scope) && lo <= now <= hi {
      var r := Row(0, a.email, Sent, a.ip, None, None, now, None, 0, None);
      AllowedIsUnderQuota(p, d.store.rows, a.email, a.ip, now, r, scope);
      TallyIsCounted(d.store.log, scope, lo, hi);
      CountMonotone(d.store.log, scope, now - WindowOf(scope), lo);
      SubsetSize(UnderIn(d, scope, lo, hi), Under(d, scope));
    } else {
      assert UnderIn(d, scope, lo, hi) == UnderIn(s, scope, lo, hi);
    }
  }

  lemma RecordKeepsSlack(p: Policy, s: Race, d: Race, id: nat, r: Row, scope: Scope, lo: int, m: nat)
    requires SlackAt(p, s, scope, lo, m) && id in s.asks && d.asks == s.asks - {id} && d.store.log == s.store.log + [r]
    requires var a := s.asks[id];
             r.email == a.email && r.ip == a.ip && r.at == a.at && (r.status != Throttled ==> a.verdict.Allowed?)
    ensures SlackAt(p, d, scope, lo, m)
  {
    var hi := lo + WindowOf(scope);
    TallySnoc(s.store.log, r, scope, lo, hi);
    assert UnderIn(d, scope, lo, hi) == UnderIn(s, scope, lo, hi) - {id};
  }

  lemma RecordKeepsCounts(s: Store, r: Row, now: int)
    requires SameCounts(s, now)
    ensures SameCounts(s.(rows := s.rows + [r], log := s.log + [r], nextId := s.nextId + 1), now)
  {
    forall scope, lo | lo >= now - PURGE_AGE
      ensures CountSince(s.rows + [r], scope, lo) == CountSince(s.log + [r], scope, lo)
    {
      CountSnoc(s.rows, r, scope, lo);
      CountSnoc(s.log, r, scope, lo);
    }
  }

  lemma SettleKeepsCounts(s: Store, g: Guess, now: int)
    requires SameCounts(s, now)
    ensures SameCounts(Settled(s, g), now) && Settled(s, g).log == s.log
  {
    var pick, d := RowAt(s.rows, g.code), Settled(s, g);
    if d.rows != s.rows {
      forall scope, lo | lo >= now - PURGE_AGE
        ensures CountSince(d.rows, scope, lo) == CountSince(s.log, scope, lo)
      {
        CountUpdated(s.rows, pick.value, d.rows[pick.value], scope, lo);
      }
    }
  }

  lemma DoKeepsSlack(p: Policy, hash: Hash, lower: string -> string, s: Race, e: Step, before: int, now: int,
                     scope: Scope, m: nat)
    requires SlackInv(p, s, before, scope, m) && before <= now && |Under(Do(p, hash, lower, s, e, now), scope)| <= m
    ensures SlackInv(p, Do(p, hash, lower, s, e, now), now, scope, m)
  {
    var d := Do(p, hash, lower, s, e, now);
    if e.Check? && e.id !in s.asks {
      PurgeKeepsCounts(s.store, before, now, e.purgeWorks);
    } else if e.Record? && e.id in s.asks {
      RecordKeepsCounts(s.store, d.store.rows[|s.store.rows|], now);
    } else if e.Settle? && e.id in s.guesses {
      SettleKeepsCounts(s.store, s.guesses[e.id], now);
    }
    forall lo ensures SlackAt(p, d, scope, lo, m) {
      assert SlackAt(p, s, scope, lo, m);
      if e.Check? && e.id !in s.asks {
        CheckKeepsSlack(p, s, d, e.id, now, scope, lo, m);
      } else if e.Record? && e.id in s.asks {
        RecordKeepsSlack(p, s, d, e.id, d.store.rows[|s.store.rows|], scope, lo, m);
      } else {
        assert UnderIn(d, scope, lo, lo + WindowOf(scope)) == UnderIn(s, scope, lo, lo + WindowOf(scope));
      }
    }
  }

  /** At no time are more than `m` requests in scope let through and not yet recorded. */
  ghost predicate OverlapUpTo(p: Policy, hash: Hash, lower: string -> string, run: seq<At>, scope: Scope, m: nat) {
    forall i :: 0 <= i <= |run| ==> |Under(Course(p, hash, lower, run[..i]), scope)| <= m
  }

  lemma {:induction false} RunKeepsSlack(p: Policy, hash: Hash, lower: string -> string, run: seq<At>, scope: Scope,
                                         m: nat, now: int)
    requires Ordered(run) && m >= 1 && OverlapUpTo(p, hash, lower, run, scope, m) &&
             (run != [] ==> run[|run| - 1].now <= now)
    ensures SlackInv(p, Course(p, hash, lower, run), now, scope, m)
  {
    if run == [] {
      forall lo ensures SlackAt(p, NO_RACE, scope, lo, m) {
        assert UnderIn(NO_RACE, scope, lo, lo + WindowOf(scope)) == {};
      }
    } else {
      var init, last := run[..|run| - 1], run[|run| - 1];
      forall i | 0 <= i <= |init|
        ensures |Under(Course(p, hash, lower, init[..i]), scope)| <= m
      {
        assert init[..i] == run[..i];
      }
      RunKeepsSlack(p, hash, lower, init, scope, m, last.now);
      assert run[..|run|] == run;
      DoKeepsSlack(p, hash, lower, Course(p, hash, lower, init), last.step, last.now, last.now, scope, m);
      assert forall lo :: SlackAt(p, Course(p, hash, lower, run), scope, lo, m);
    }
  }

  /**
   In every run every closed window holds at most the quota of requests let through, and one more
   for each request in scope that overlapped another: with none overlapping, the quota itself.
   */
  lemma QuotasWithOverlap(p: Policy, hash: Hash, lower: string -> string, run: seq<At>, scope: Scope, lo: int, m: nat)
    requires Ordered(run) && m >= 1 && OverlapUpTo(p, hash, lower, run, scope, m)
    ensures Tally(Course(p, hash, lower, run).store.log, scope, lo, lo + WindowOf(scope))
            <= Max(0, QuotaOf(p, scope)) + m - 1
  {
    RunKeepsSlack(p, hash, lower, run, scope, m, if run == [] then 0 else run[|run| - 1].now);
    assert SlackAt(p, Course(p, hash, lower, run), scope, lo, m);
  }

  // ----- the overlap does get through

  function Checks(m: nat, email: string, ip: Option<string>, username: string, now: int): seq<At> {
    if m == 0 then [] else Checks(m - 1, email, ip, username, now) + [At(Check(m - 1, email, ip, username, false), now)]
  }

  function Records(m: nat, code: string, now: int): seq<At> {
    if m == 0 then [] else Records(m - 1, code, now) + [At(Record(m - 1, code, true), now)]
  }

  lemma CourseSnoc(p: Policy, hash: Hash, lower: string -> string, run: seq<At>, e: At)
    ensures Course(p, hash, lower, run + [e]) == Do(p, hash, lower, Course(p, hash, lower, run), e.step, e.now)
  {
    assert (run + [e])[..|run + [e]| - 1] == run;
  }

  function Ids(n: nat): (ids: set<nat>)
    ensures forall i: nat :: i in ids <==> i < n
  {
    if n == 0 then {} else Ids(n - 1) + {n - 1}
  }

  /** The first `m` requests have passed and nothing is recorded. */
  ghost predicate Passed(s: Race, m: nat, email: string, now: int) {
    && s.store.rows == [] && s.store.log == [] && s.asks.Keys == Ids(m)
    && forall i :: i in s.asks ==> s.asks[i].email == email && s.asks[i].at == now && s.asks[i].verdict.Allowed?
  }

  lemma CheckPasses(p: Policy, hash: Hash, lower: string -> string, s: Race, m: nat, email: string, ip: Option<string>,
                    username: string, now: int)
    requires p.emailPerHour > 0 && p.emailSentPerDay > 0 && p.ipPerHour > 0 && p.globalPerHour > 0
    requires Passed(s, m, email, now)
    ensures Passed(Do(p, hash, lower, s, Check(m, email, ip, username, false), now), m + 1, email, now)
  {
    var d := Do(p, hash, lower, s, Check(m, email, ip, username, false), now);
    assert d.asks.Keys == s.asks.Keys + {m};
    assert d.asks[m] == Ask(email, ip, username, now, Verdict([], email, ip, now, p));
  }

  lemma {:induction false} ChecksPass(p: Policy, hash: Hash, lower: string -> string, m: nat, email: string,
                                      ip: Option<string>, username: string, now: int)
    requires p.emailPerHour > 0 && p.emailSentPerDay > 0 && p.ipPerHour > 0 && p.globalPerHour > 0
    ensures Passed(Course(p, hash, lower, Checks(m, email, ip, username, now)), m, email, now)
  {
    if m > 0 {
      var init := Checks(m - 1, email, ip, username, now);
      ChecksPass(p, hash, lower, m - 1, email, ip, username, now);
      CheckPasses(p, hash, lower, Course(p, hash, lower, init), m - 1, email, ip, username, now);
      CourseSnoc(p, hash, lower, init, At(Check(m - 1, email, ip, username, false), now));
    }
  }

  /** Of the requests that passed the first `n` are mailed and recorded. */
  ghost predicate Mailed(s: Race, asks: map<nat, Ask>, n: nat, email: string, now: int) {
    s.asks == asks - Ids(n) && Tally(s.store.log, SentTo(email), now, now) == n
  }

  lemma RecordMails(p: Policy, hash: Hash, lower: string -> string, s: Race, asks: map<nat, Ask>, n: nat, code: string,
                    email: string, now: int)
    requires Mailed(s, asks, n, email, now) && n in asks
    requires asks[n].email == email && asks[n].at == now && asks[n].verdict.Allowed?
    ensures Mailed(Do(p, hash, lower, s, Record(n, code, true), now), asks, n + 1, email, now)
  {
    var d := Do(p, hash, lower, s, Record(n, code, true), now);
    assert n in s.asks && d.asks == asks - Ids(n + 1);
    TallySnoc(s.store.log, d.store.log[|s.store.log|], SentTo(email), now, now);
  }

  ghost predicate AllAllowed(asks: map<nat, Ask>, m: nat, email: string, now: int) {
    forall i: nat :: i < m ==> i in asks && asks[i].email == email && asks[i].at == now && asks[i].verdict.Allowed?
  }

  lemma {:induction false} RecordsCount(p: Policy, hash: Hash, lower: string -> string, run: seq<At>,
                                        asks: map<nat, Ask>, m: nat, n: nat, code: string, email: string, now: int)
    requires n <= m && AllAllowed(asks, m, email, now) && Mailed(Course(p, hash, lower, run), asks, 0, email, now)
    ensures Mailed(Course(p, hash, lower, run + Records(n, code, now)), asks, n, email, now)
  {
    if n == 0 {
      assert run + [] == run;
    } else {
      var e, init := At(Record(n - 1, code, true), now), run + Records(n - 1, code, now);
      RecordsCount(p, hash, lower, run, asks, m, n - 1, code, email, now);
      RecordMails(p, hash, lower, Course(p, hash, lower, init), asks, n - 1, code, email, now);
      CourseSnoc(p, hash, lower, init, e);
      assert init + [e] == run + Records(n, code, now);
    }
  }

  /**
   Requests of one address made at the same time are all mailed, whatever the quota: the lock per
   address lets them mail one after the other, but all have their verdict already.
   */
  lemma OverlapIsMailed(p: Policy, hash: Hash, lower: string -> string, m: nat, email: string, ip: Option<string>,
                        username: string, code: string, now: int)
    requires p.emailPerHour > 0 && p.emailSentPerDay > 0 && p.ipPerHour > 0 && p.globalPerHour > 0
    ensures var s := Course(p, hash, lower, Checks(m, email, ip, username, now) + Records(m, code, now));
            Tally(s.store.log, SentTo(email), now, now) == m
  {
    ChecksPass(p, hash, lower, m, email, ip, username, now);
    var s := Course(p, hash, lower, Checks(m, email, ip, username, now));
    assert s.asks - Ids(0) == s.asks;
    RecordsCount(p, hash, lower, Checks(m, email, ip, username, now), s.asks, m, m, code, email, now);
  }

  // ----- guesses with overlap

  /** The pending wrong guesses of a code that will not close it. */
  ghost function OpenGuesses(s: Race, code: nat): set<nat> {
    set i | i in s.guesses && s.guesses[i].code == code && !s.guesses[i].right && !s.guesses[i].closes
  }

  ghost predicate RowOk(p: Policy, s: Race, g: nat, r: Row) {
    && r.id < s.store.nextId && r.attempts == CountId(s.store.wrong, r.id)
    && (r.consumedAt.None? ==> r.attempts + |OpenGuesses(s, r.id)| <= p.maxAttempts - 2 + g
                               && forall u :: u in s.store.accepted ==> u.id != r.id)
    && r.attempts <= p.maxAttempts + g - 1
  }

  ghost predicate UseOk(p: Policy, s: Race, g: nat, u: Use) {
    && u.id < s.store.nextId && CountId(s.store.wrong, u.id) == u.wrongBefore <= p.maxAttempts - 2 + g
    && (u.expiresAt.Some? ==> u.at <= u.expiresAt.value)
  }

  ghost predicate GuessOk(s: Race, q: Guess) {
    q.code < s.store.nextId && forall r :: r in s.store.rows && r.id == q.code && r.expiresAt.Some? ==>
      q.at <= r.expiresAt.value
  }

  ghost predicate DistinctIds(rows: seq<Row>) {
    forall i, j :: 0 <= i < j < |rows| ==> rows[i].id != rows[j].id
  }

  ghost predicate GuessInv(p: Policy, s: Race, g: nat) {
    && DistinctIds(s.store.rows) && DistinctUses(s.store.accepted)
    && (forall r :: r in s.store.rows ==> RowOk(p, s, g, r))
    && (forall u :: u in s.store.accepted ==> UseOk(p, s, g, u))
    && (forall i :: i in s.guesses ==> GuessOk(s, s.guesses[i]))
    && (forall id :: id in s.store.wrong ==> id < s.store.nextId)
  }

  lemma PurgedKeepsGuesses(p: Policy, s: Race, d: Race, g: nat, now: int, works: bool)
    requires GuessInv(p, s, g) && d.store == MaybePurge(s.store, now, works) && d.guesses == s.guesses
    ensures GuessInv(p, d, g)
  {
    PurgedIsPart(s.store.rows, now - PURGE_AGE);
    forall r | r in d.store.rows
      ensures r in s.store.rows && RowOk(p, d, g, r)
    {
      assert r in s.store.rows && RowOk(p, s, g, r);
      assert OpenGuesses(d, r.id) == OpenGuesses(s, r.id);
    }
    forall u | u in d.store.accepted ensures UseOk(p, d, g, u) { assert UseOk(p, s, g, u); }
    forall i | i in d.guesses ensures GuessOk(d, d.guesses[i]) { assert GuessOk(s, s.guesses[i]); }
  }

  lemma RecordKeepsGuesses(p: Policy, s: Race, d: Race, g: nat, r: Row)
    requires GuessInv(p, s, g) && g >= 1 && p.maxAttempts >= 1 && d.guesses == s.guesses
    requires r.id == s.store.nextId && r.attempts == 0
    requires d.store == s.store.(rows := s.store.rows + [r], log := s.store.log + [r], nextId := s.store.nextId + 1)
    ensures GuessInv(p, d, g)
  {
    CountIdNone(s.store.wrong, r.id);
    assert OpenGuesses(d, r.id) == {} by {
      forall i | i in s.guesses ensures s.guesses[i].code != r.id { assert GuessOk(s, s.guesses[i]); }
    }
    forall q | q in d.store.rows
      ensures RowOk(p, d, g, q)
    {
      if q in s.store.rows {
        assert RowOk(p, s, g, q);
        assert OpenGuesses(d, q.id) == OpenGuesses(s, q.id);
      } else {
        assert q == r;
        forall u | u in s.store.accepted ensures u.id != r.id { assert UseOk(p, s, g, u); }
      }
    }
    forall i | 0 <= i < |s.store.rows| ensures s.store.rows[i].id != r.id { assert RowOk(p, s, g, s.store.rows[i]); }
    forall u | u in d.store.accepted ensures UseOk(p, d, g, u) { assert UseOk(p, s, g, u); }
    forall i | i in d.guesses ensures GuessOk(d, d.guesses[i]) { assert GuessOk(s, s.guesses[i]); }
  }

  lemma LookKeepsGuesses(p: Policy, s: Race, d: Race, g: nat, id: nat, r: Row)
    requires GuessInv(p, s, g) && id !in s.guesses && id in d.guesses && d.guesses == s.guesses[id := d.guesses[id]] &&
             d.store == s.store
    requires r in s.store.rows && r.consumedAt.None?
    requires var q := d.guesses[id];
             q.code == r.id && (q.closes <==> r.attempts + 1 >= p.maxAttempts) &&
               (r.expiresAt.Some? ==> q.at <= r.expiresAt.value)
    requires |OpenGuesses(d, r.id)| <= g
    ensures GuessInv(p, d, g)
  {
    var q := d.guesses[id];
    forall x | x in d.store.rows
      ensures RowOk(p, d, g, x)
    {
      assert RowOk(p, s, g, x);
      if x.id == r.id {
        SameRow(s.store.rows, x, r);
        if q.right || q.closes {
          assert OpenGuesses(d, x.id) == OpenGuesses(s, x.id);
        }
      } else {
        assert OpenGuesses(d, x.id) == OpenGuesses(s, x.id);
      }
    }
    assert GuessOk(d, q) by {
      assert RowOk(p, s, g, r);
      forall x | x in s.store.rows && x.id == q.code ensures x == r { SameRow(s.store.rows, x, r); }
    }
    forall i | i in d.guesses ensures GuessOk(d, d.guesses[i]) {
      if i != id { assert GuessOk(s, s.guesses[i]); }
    }
    forall u | u in d.store.accepted ensures UseOk(p, d, g, u) { assert UseOk(p, s, g, u); }
  }

  lemma SameRow(rows: seq<Row>, a: Row, b: Row)
    requires DistinctIds(rows) && a in rows && b in rows && a.id == b.id
    ensures a == b
  {}

  /** A guess that finds its code gone or closed changes nothing. */
  lemma LateKeepsGuesses(p: Policy, s: Race, d: Race, g: nat, id: nat)
    requires GuessInv(p, s, g) && id in s.guesses && d == s.(guesses := s.guesses - {id})
    ensures GuessInv(p, d, g)
  {
    forall r | r in d.store.rows ensures RowOk(p, d, g, r) {
      assert RowOk(p, s, g, r);
      SubsetSize(OpenGuesses(d, r.id), OpenGuesses(s, r.id));
    }
    forall u | u in d.store.accepted ensures UseOk(p, d, g, u) { assert UseOk(p, s, g, u); }
    forall i | i in d.guesses ensures GuessOk(d, d.guesses[i]) { assert GuessOk(s, s.guesses[i]); }
  }

  lemma WrongCounts(p: Policy, s: Race, d: Race, g: nat, id: nat, pick: nat)
    requires GuessInv(p, s, g) && id in s.guesses && !s.guesses[id].right && d.guesses == s.guesses - {id}
    requires pick < |s.store.rows| && s.store.rows[pick].id == s.guesses[id].code && s.store.rows[pick].consumedAt.None?
    requires d.store == Bumped(s.store, pick, s.guesses[id].closes, s.guesses[id].at)
    ensures RowOk(p, d, g, d.store.rows[pick])
  {
    var q, r := s.guesses[id], s.store.rows[pick];
    assert RowOk(p, s, g, r);
    if !q.closes { assert OpenGuesses(d, r.id) == OpenGuesses(s, r.id) - {id}; }
    CountIdSnoc(s.store.wrong, r.id, r.id);
  }

  lemma WrongKeepsOthers(p: Policy, s: Race, d: Race, g: nat, id: nat, pick: nat, n: Row, x: Row)
    requires GuessInv(p, s, g) && id in s.guesses && !s.guesses[id].right && d.guesses == s.guesses - {id}
    requires pick < |s.store.rows| && s.store.rows[pick].id == s.guesses[id].code && s.store.rows[pick].consumedAt.None?
    requires d.store == Bumped(s.store, pick, s.guesses[id].closes, s.guesses[id].at)
    requires n == d.store.rows[pick] && x in d.store.rows && x != n
    ensures RowOk(p, d, g, x)
  {
    assert x in s.store.rows && RowOk(p, s, g, x);
    OtherRow(s.store.rows, pick, n, x);
    CountIdSnoc(s.store.wrong, s.store.rows[pick].id, x.id);
    assert OpenGuesses(d, x.id) == OpenGuesses(s, x.id);
  }

  lemma WrongKeepsGuesses(p: Policy, s: Race, d: Race, g: nat, id: nat, pick: nat)
    requires GuessInv(p, s, g) && id in s.guesses && !s.guesses[id].right && d.guesses == s.guesses - {id}
    requires pick < |s.store.rows| && s.store.rows[pick].id == s.guesses[id].code && s.store.rows[pick].consumedAt.None?
    requires d.store == Bumped(s.store, pick, s.guesses[id].closes, s.guesses[id].at)
    ensures GuessInv(p, d, g)
  {
    var r, n := s.store.rows[pick], d.store.rows[pick];
    WrongCounts(p, s, d, g, id, pick);
    CountIdSnoc(s.store.wrong, r.id, r.id);
    forall x | x in d.store.rows && x != n
      ensures RowOk(p, d, g, x)
    {
      WrongKeepsOthers(p, s, d, g, id, pick, n, x);
    }
    forall u | u in d.store.accepted ensures UseOk(p, d, g, u) {
      assert UseOk(p, s, g, u);
      CountIdSnoc(s.store.wrong, r.id, u.id);
    }
    forall i | i in d.guesses ensures GuessOk(d, d.guesses[i]) {
      assert GuessOk(s, s.guesses[i]);
      forall x | x in d.store.rows && x != n ensures x in s.store.rows {}
    }
  }

  lemma OtherRow(rows: seq<Row>, pick: nat, n: Row, x: Row)
    requires DistinctIds(rows) && pick < |rows| && n.id == rows[pick].id && x in rows[pick := n] && x != n
    ensures x in rows && x.id != n.id
  {
    var i :| 0 <= i < |rows| && rows[pick := n][i] == x;
    assert i != pick && rows[i] == x;
  }

  lemma RightKeepsGuesses(p: Policy, s: Race, d: Race, g: nat, id: nat, pick: nat)
    requires GuessInv(p, s, g) && id in s.guesses && s.guesses[id].right && d.guesses == s.guesses - {id}
    requires pick < |s.store.rows| && s.store.rows[pick].id == s.guesses[id].code && s.store.rows[pick].consumedAt.None?
    requires d.store == Consumed(s.store, pick, s.guesses[id].at)
    ensures GuessInv(p, d, g)
  {
    var q, r, n := s.guesses[id], s.store.rows[pick], d.store.rows[pick];
    assert RowOk(p, s, g, r) && GuessOk(s, q);
    forall x | x in d.store.rows
      ensures RowOk(p, d, g, x)
    {
      if x != n {
        OtherRow(s.store.rows, pick, n, x);
        assert RowOk(p, s, g, x);
        assert OpenGuesses(d, x.id) == OpenGuesses(s, x.id);
      }
    }
    forall u | u in d.store.accepted ensures UseOk(p, d, g, u) {
      if u in s.store.accepted { assert UseOk(p, s, g, u); }
    }
    forall i | i in d.guesses ensures GuessOk(d, d.guesses[i]) {
      assert GuessOk(s, s.guesses[i]);
      forall x | x in d.store.rows && x != n ensures x in s.store.rows {}
    }
  }

  /** At no time has a code more than `g` wrong guesses pending that will not close it. */
  ghost predicate GuessesUpTo(s: Race, g: nat) {
    forall code :: |OpenGuesses(s, code)| <= g
  }

  lemma DoKeepsGuesses(p: Policy, hash: Hash, lower: string -> string, s: Race, e: Step, now: int, g: nat)
    requires GuessInv(p, s, g) && g >= 1 && p.maxAttempts >= 1 && GuessesUpTo(Do(p, hash, lower, s, e, now), g)
    ensures GuessInv(p, Do(p, hash, lower, s, e, now), g)
  {
    var d := Do(p, hash, lower, s, e, now);
    match e
    case Check(id, _, _, _, purgeWorks) =>
      if id !in s.asks { PurgedKeepsGuesses(p, s, d, g, now, purgeWorks); }
    case Record(id, _, _) =>
      if id in s.asks { RecordKeepsGuesses(p, s, d, g, d.store.rows[|s.store.rows|]); }
    case Look(id, _, _, _, pick) =>
      if id !in s.guesses && Looked(p, hash, lower, s.store, e, now).Some? {
        LookKeepsGuesses(p, s, d, g, id, s.store.rows[pick]);
      }
    case Settle(id) =>
      if id in s.guesses { SettleKeepsGuesses(p, s, d, g, id); }
  }

  lemma SettleKeepsGuesses(p: Policy, s: Race, d: Race, g: nat, id: nat)
    requires GuessInv(p, s, g) && id in s.guesses
    requires d == s.(store := Settled(s.store, s.guesses[id]), guesses := s.guesses - {id})
    ensures GuessInv(p, d, g)
  {
    var pick := RowAt(s.store.rows, s.guesses[id].code);
    if pick.None? || s.store.rows[pick.value].consumedAt.Some? {
      LateKeepsGuesses(p, s, d, g, id);
    } else if s.guesses[id].right {
      RightKeepsGuesses(p, s, d, g, id, pick.value);
    } else {
      WrongKeepsGuesses(p, s, d, g, id, pick.value);
    }
  }

  lemma {:induction false} RunKeepsGuesses(p: Policy, hash: Hash, lower: string -> string, run: seq<At>, g: nat)
    requires g >= 1 && p.maxAttempts >= 1
    requires forall i :: 0 <= i <= |run| ==> GuessesUpTo(Course(p, hash, lower, run[..i]), g)
    ensures GuessInv(p, Course(p, hash, lower, run), g)
  {
    if run != [] {
      var init, last := run[..|run| - 1], run[|run| - 1];
      forall i | 0 <= i <= |init|
        ensures GuessesUpTo(Course(p, hash, lower, init[..i]), g)
      {
        assert init[..i] == run[..i];
      }
      RunKeepsGuesses(p, hash, lower, init, g);
      assert run[..|run|] == run;
      DoKeepsGuesses(p, hash, lower, Course(p, hash, lower, init), last.step, last.now, g);
    }
  }

  /**
   In every run each code is accepted at most once, at a time read before it expired, and takes no
   guess afterwards; and a code takes as many wrong guesses as allowed and at most one more for
   each that overlapped another.
   */
  lemma CodesWithOverlap(p: Policy, hash: Hash, lower: string -> string, run: seq<At>, g: nat)
    requires g >= 1 && p.maxAttempts >= 1
    requires forall i :: 0 <= i <= |run| ==> GuessesUpTo(Course(p, hash, lower, run[..i]), g)
    ensures var s := Course(p, hash, lower, run).store;
            && DistinctUses(s.accepted)
            && (forall u :: u in s.accepted ==>
                  CountId(s.wrong, u.id) == u.wrongBefore < p.maxAttempts + g - 1 &&
                    (u.expiresAt.Some? ==> u.at <= u.expiresAt.value))
            && (forall r :: r in s.rows ==> CountId(s.wrong, r.id) == r.attempts <= p.maxAttempts + g - 1)
  {
    RunKeepsGuesses(p, hash, lower, run, g);
    var s := Course(p, hash, lower, run);
    forall u | u in s.store.accepted ensures UseOk(p, s, g, u) {}
    forall r | r in s.store.rows ensures RowOk(p, s, g, r) {}
  }

  // ----- the overlap is guessed

  function Looks(g: nat, email: string, username: string, code: string, now: int): seq<At> {
    if g == 0 then [] else Looks(g - 1, email, username, code, now) + [At(Look(g - 1, email, username, code, 0), now)]
  }

  function Settles(g: nat, now: int): seq<At> {
    if g == 0 then [] else Settles(g - 1, now) + [At(Settle(g - 1), now)]
  }

  /** A mailed code that is open and takes another guess without closing. */
  predicate Fresh(p: Policy, r: Row, email: string, username: string, now: int) {
    && InScope(r, SentTo(email)) && r.codeHash.Some? && r.consumedAt.None? && r.attempts + 1 < p.maxAttempts
    && r.username == Some(username) && (r.expiresAt.Some? ==> now <= r.expiresAt.value)
  }

  /** The first `g` wrong guesses of the only code have been read, none is settled. */
  ghost predicate Guessed(s: Race, r: Row, g: nat, now: int) {
    s.store.rows == [r] && s.guesses.Keys == Ids(g) && forall i :: i in s.guesses ==>
      s.guesses[i] == Guess(r.id, false, false, now)
  }

  lemma LookStep(p: Policy, hash: Hash, lower: string -> string, s: Race, r: Row, g: nat, email: string,
                 username: string, code: string, now: int)
    requires Guessed(s, r, g, now) && Fresh(p, r, email, username, now) && WellFormedCode(code) &&
             r.codeHash != Some(hash(email, code))
    ensures Guessed(Do(p, hash, lower, s, Look(g, email, username, code, 0), now), r, g + 1, now)
  {
    var d := Do(p, hash, lower, s, Look(g, email, username, code, 0), now);
    assert g !in s.guesses && IsLatestSent(s.store.rows, email, 0);
    assert d.guesses == s.guesses[g := Guess(r.id, false, false, now)];
    assert d.guesses.Keys == s.guesses.Keys + {g};
  }

  lemma LookSnoc(p: Policy, hash: Hash, lower: string -> string, run: seq<At>, r: Row, g: nat, email: string,
                 username: string, code: string, now: int)
    requires Guessed(Course(p, hash, lower, run), r, g, now) && Wrong(p, hash, r, email, username, code, now)
    ensures Guessed(Course(p, hash, lower, run + [At(Look(g, email, username, code, 0), now)]), r, g + 1, now)
  {
    LookStep(p, hash, lower, Course(p, hash, lower, run), r, g, email, username, code, now);
    CourseSnoc(p, hash, lower, run, At(Look(g, email, username, code, 0), now));
  }

  /** Reading this wrong code again and again, nothing else happening. */
  predicate Wrong(p: Policy, hash: Hash, r: Row, email: string, username: string, code: string, now: int) {
    Fresh(p, r, email, username, now) && WellFormedCode(code) && r.codeHash != Some(hash(email, code))
  }

  lemma LooksMore(p: Policy, hash: Hash, lower: string -> string, run: seq<At>, r: Row, g: nat, email: string,
                  username: string, code: string, now: int)
    requires Guessed(Course(p, hash, lower, run + Looks(g, email, username, code, now)), r, g, now)
    requires Wrong(p, hash, r, email, username, code, now)
    ensures Guessed(Course(p, hash, lower, run + Looks(g + 1, email, username, code, now)), r, g + 1, now)
  {
    var init, e := run + Looks(g, email, username, code, now), At(Look(g, email, username, code, 0), now);
    LookSnoc(p, hash, lower, init, r, g, email, username, code, now);
    assert init + [e] == run + Looks(g + 1, email, username, code, now);
  }

  lemma {:induction false} LooksRead(p: Policy, hash: Hash, lower: string -> string, run: seq<At>, r: Row, g: nat,
                                     email: string, username: string, code: string, now: int)
    requires Guessed(Course(p, hash, lower, run), r, 0, now) && Wrong(p, hash, r, email, username, code, now)
    ensures Guessed(Course(p, hash, lower, run + Looks(g, email, username, code, now)), r, g, now)
  {
    if g == 0 {
      assert run + Looks(0, email, username, code, now) == run;
    } else {
      LooksRead(p, hash, lower, run, r, g - 1, email, username, code, now);
      LooksMore(p, hash, lower, run, r, g - 1, email, username, code, now);
    }
  }

  /** The first `n` of `g` guesses are settled, and the code is still open. */
  ghost predicate Counted(s: Race, r: Row, g: nat, n: nat, now: int) {
    && s.store.rows == [r.(attempts := r.attempts + n)]
    && forall i: nat :: n <= i < g ==> i in s.guesses && s.guesses[i] == Guess(r.id, false, false, now)
  }

  lemma SettleStep(p: Policy, hash: Hash, lower: string -> string, s: Race, r: Row, g: nat, n: nat, now: int)
    requires Counted(s, r, g, n, now) && n < g && r.consumedAt.None?
    ensures Counted(Do(p, hash, lower, s, Settle(n), now), r, g, n + 1, now)
  {
    var q := r.(attempts := r.attempts + n);
    assert s.store.rows[..0] == [] && RowAt([q], r.id) == Some(0);
    assert [q][0 := q.(attempts := q.attempts + 1)] == [q.(attempts := q.attempts + 1)];
  }

  lemma OneMoreSettles(p: Policy, hash: Hash, lower: string -> string, run: seq<At>, r: Row, g: nat, n: nat, now: int)
    requires 0 < n <= g && Counted(Course(p, hash, lower, run), r, g, n - 1, now) && r.consumedAt.None?
    ensures Counted(Course(p, hash, lower, run + [At(Settle(n - 1), now)]), r, g, n, now)
  {
    SettleStep(p, hash, lower, Course(p, hash, lower, run), r, g, n - 1, now);
    CourseSnoc(p, hash, lower, run, At(Settle(n - 1), now));
  }

  lemma {:induction false} SettlesCount(p: Policy, hash: Hash, lower: string -> string, run: seq<At>, r: Row, g: nat,
                                        n: nat, now: int)
    requires n <= g && Counted(Course(p, hash, lower, run), r, g, 0, now) && r.consumedAt.None?
    ensures Counted(Course(p, hash, lower, run + Settles(n, now)), r, g, n, now)
  {
    if n == 0 {
      assert run + [] == run;
    } else {
      SettlesCount(p, hash, lower, run, r, g, n - 1, now);
      OneMoreSettles(p, hash, lower, run + Settles(n - 1, now), r, g, n, now);
      assert run + Settles(n - 1, now) + [At(Settle(n - 1), now)] == run + Settles(n, now);
    }
  }

  /**
   Wrong guesses of an open code made at the same time are all taken, however few are allowed, and
   the code is open afterwards: each was read before the others were counted.
   */
  lemma OverlapIsGuessed(p: Policy, hash: Hash, lower: string -> string, run: seq<At>, r: Row, g: nat, email: string,
                         username: string, code: string, now: int)
    requires Guessed(Course(p, hash, lower, run), r, 0, now) && Wrong(p, hash, r, email, username, code, now)
    ensures Course(p, hash, lower, run + Looks(g, email, username, code, now) + Settles(g, now)).store.rows
            == [r.(attempts := r.attempts + g)]
  {
    LooksRead(p, hash, lower, run, r, g, email, username, code, now);
    var read := run + Looks(g, email, username, code, now);
    assert r.(attempts := r.attempts + 0) == r;
    SettlesCount(p, hash, lower, read, r, g, g, now);
  }
}
