/**
 Verification codes by mail: rolling quotas and cooldowns computed from a table of past requests,
 codes that can be guessed a few times and used once, and a purge of old rows that must not be
 noticed. Each request is one step; `log` keeps every row ever written, `accepted` every code used.
 */
module EmailGuard {
  import opened Basics
  import opened ConfigText

  const HOUR: int := 3600000
  const DAY: int := 24 * HOUR
  const PURGE_AGE: int := 30 * DAY
  const PURGE_INTERVAL: int := HOUR

  datatype Status = Sent | Failed | Throttled

  datatype Row = Row(id: nat, email: string, status: Status, ip: Option<string>, username: Option<string>,
                     codeHash: Option<string>, at: int, expiresAt: Option<int>, attempts: nat, consumedAt: Option<int>)

  datatype Policy = Policy(codeTtl: int, maxAttempts: int, emailPerHour: int, emailSentPerDay: int, ipPerHour: int,
                           globalPerHour: int, ladder: seq<int>)

  // ----- counting

  /** Whom a quota is about. */
  datatype Scope = OfEmail(email: string) | SentTo(email: string) | OfIp(ip: string) | Everyone

  predicate InScope(r: Row, s: Scope) {
    match s
    case OfEmail(email) => r.email == email
    case SentTo(email) => r.email == email && r.status == Sent
    case OfIp(ip) => r.ip == Some(ip)
    case Everyone => true
  }

  function CountSince(rows: seq<Row>, s: Scope, since: int): nat {
    if rows == [] then 0
    else
      CountSince(rows[..|rows| - 1], s, since)
      + if InScope(rows[|rows| - 1], s) && rows[|rows| - 1].at >= since then 1 else 0
  }

  /** The latest request of an address, over all rows, zero if there is none. */
  function LastAt(rows: seq<Row>, email: string): int {
    var times := TimesOf(rows, email);
    if times == [] then 0 else MaxOf(times)
  }

  function TimesOf(rows: seq<Row>, email: string): seq<int> {
    if rows == [] then []
    else TimesOf(rows[..|rows| - 1], email) + if rows[|rows| - 1].email == email then [rows[|rows| - 1].at] else []
  }

  function MaxOf(times: seq<int>): int
    requires times != []
  {
    if |times| == 1 then times[0] else Max(MaxOf(times[..|times| - 1]), times[|times| - 1])
  }

  datatype Counts = Counts(emailTotal: nat, emailSent: nat, emailLastAt: int, ipTotal: nat, globalTotal: nat)

  function EmailCodeCounts(rows: seq<Row>, email: string, ip: Option<string>, since: int): Counts {
    Counts(CountSince(rows, OfEmail(email), since), CountSince(rows, SentTo(email), since), LastAt(rows, email),
           if ip.Some? then CountSince(rows, OfIp(ip.value), since) else 0, CountSince(rows, Everyone, since))
  }

  // ----- the guards

  datatype SendVerdict = Allowed(cooldown: int) | Refused(reason: string, retryAfter: int)

  function CeilSeconds(ms: int): int { 0 - ((0 - ms) / 1000) }

  function CooldownFor(total: nat, ladder: seq<int>): int {
    if ladder == [] then 60000 else ladder[Min(total, |ladder| - 1)]
  }

  function EvaluateSendGuard(hour: Counts, day: Counts, now: int, p: Policy): SendVerdict {
    if day.emailSent >= p.emailSentPerDay then Refused("email_daily_quota", 3600)
    else if hour.emailTotal >= p.emailPerHour then
      Refused("email_hourly_quota", Max(1, CeilSeconds(HOUR - (now - hour.emailLastAt))))
    else if hour.ipTotal >= p.ipPerHour then Refused("ip_hourly_quota", 600)
    else if hour.globalTotal >= p.globalPerHour then Refused("global_hourly_quota", 300)
    else
      var cooldown := CooldownFor(hour.emailTotal, p.ladder);
      var last := hour.emailLastAt;
      if last > 0 && now - last < cooldown then Refused("email_cooldown", Max(1, CeilSeconds(cooldown - (now - last))))
      else Allowed(cooldown)
  }

  function Verdict(rows: seq<Row>, email: string, ip: Option<string>, now: int, p: Policy): SendVerdict {
    EvaluateSendGuard(EmailCodeCounts(rows, email, ip, now - HOUR), EmailCodeCounts(rows, email, ip, now - DAY), now, p)
  }

  datatype VerifyVerdict = CodeOk | Missing | Expired | TooManyAttempts | Used

  function EvaluateVerifyGuard(row: Option<Row>, now: int, p: Policy): VerifyVerdict {
    if row.None? || row.value.codeHash.None? then Missing
    else if row.value.consumedAt.Some? then (if row.value.attempts >= p.maxAttempts then TooManyAttempts else Used)
    else if row.value.expiresAt.Some? && now > row.value.expiresAt.value then Expired
    else CodeOk
  }

  // ----- the table

  function Purged(rows: seq<Row>, before: int): seq<Row> {
    if rows == [] then []
    else Purged(rows[..|rows| - 1], before) + if rows[|rows| - 1].at >= before then [rows[|rows| - 1]] else []
  }

  /** `pick` is a latest sent row of the address; of several written at the same time any may be returned. */
  predicate IsLatestSent(rows: seq<Row>, email: string, pick: nat) {
    && pick < |rows| && InScope(rows[pick], SentTo(email))
    && forall i :: 0 <= i < |rows| && InScope(rows[i], SentTo(email)) ==> rows[i].at <= rows[pick].at
  }

  datatype Use = Use(id: nat, at: int, expiresAt: Option<int>, wrongBefore: nat)

  datatype Store = Store(
    rows: seq<Row>,
    lastPurgeAt: int,
    nextId: nat,
    log: seq<Row>,
    wrong: seq<nat>,            // the codes of wrong guesses, in order
    accepted: seq<Use>)

  function Recorded(s: Store, email: string, status: Status, ip: Option<string>, username: string,
                    codeHash: Option<string>, at: int, expiresAt: Option<int>): Store
  {
    var row := Row(s.nextId, email, status, ip, Some(username), codeHash, at, expiresAt, 0, None);
    s.(rows := s.rows + [row], log := s.log + [row], nextId := s.nextId + 1)
  }

  function MaybePurge(s: Store, now: int, works: bool): Store {
    if now - s.lastPurgeAt < PURGE_INTERVAL then s
    else s.(lastPurgeAt := now, rows := if works then Purged(s.rows, now - PURGE_AGE) else s.rows)
  }

  type Hash = (string, string) -> string

  datatype Event =
    | Request(email: string, ip: Option<string>, username: string, code: string, mailOk: bool, purgeWorks: bool)
    | Verify(email: string, username: string, code: string, pick: nat)

  function RequestCode(p: Policy, hash: Hash, s: Store, e: Event, now: int): (Store, SendVerdict)
    requires e.Request?
  {
    var t := MaybePurge(s, now, e.purgeWorks);
    var verdict := Verdict(t.rows, e.email, e.ip, now, p);
    if verdict.Refused? then (Recorded(t, e.email, Throttled, e.ip, e.username, None, now, None), verdict)
    else if !e.mailOk then (Recorded(t, e.email, Failed, e.ip, e.username, None, now, None), verdict)
    else (Recorded(t, e.email, Sent, e.ip, e.username, Some(hash(e.email, e.code)), now, Some(now + p.codeTtl)),
          verdict)
  }

  datatype ConsumeOutcome = Accepted | Rejected(error: string)

  function WellFormedCode(code: string): bool {
    4 <= |code| <= 8 && AllOf(code, Digit)
  }

  function Bumped(s: Store, pick: nat, consume: bool, now: int): Store
    requires pick < |s.rows|
  {
    var r := s.rows[pick];
    s.(rows := s.rows[pick := r.(attempts := r.attempts + 1,
                                 consumedAt := if consume then Some(now) else r.consumedAt)],
       wrong := s.wrong + [r.id])
  }

  function Consumed(s: Store, pick: nat, now: int): Store
    requires pick < |s.rows|
  {
    var r := s.rows[pick];
    s.(rows := s.rows[pick := r.(consumedAt := Some(now))],
       accepted := s.accepted + [Use(r.id, now, r.expiresAt, r.attempts)])
  }

  /** `lower` stands for the runtime's lower-casing of user names. */
  function ConsumeCode(p: Policy, hash: Hash, lower: string -> string, s: Store, e: Event,
                       now: int): (Store, ConsumeOutcome)
    requires e.Verify?
  {
    if !WellFormedCode(e.code) then (s, Rejected("code_invalid"))
    else
      var row := if IsLatestSent(s.rows, e.email, e.pick) then Some(s.rows[e.pick]) else None;
      var pre := EvaluateVerifyGuard(row, now, p);
      if pre.Missing? then (s, Rejected("code_missing"))
      else if pre.Used? then (s, Rejected("code_used"))
      else if pre.TooManyAttempts? then (s, Rejected("code_attempts_exceeded"))
      else if pre.Expired? then (s, Rejected("code_expired"))
      else if row.value.username.Some? && lower(row.value.username.value) != lower(e.username)
        then (s, Rejected("code_username_mismatch"))
      else if row.value.codeHash != Some(hash(e.email, e.code)) then
        var consume := row.value.attempts + 1 >= p.maxAttempts;
        (Bumped(s, e.pick, consume, now), Rejected(if consume then "code_attempts_exceeded" else "code_invalid"))
      else (Consumed(s, e.pick, now), Accepted)
  }

  function Next(p: Policy, hash: Hash, lower: string -> string, s: Store, e: Event, now: int): Store {
    if e.Request? then RequestCode(p, hash, s, e, now).0 else ConsumeCode(p, hash, lower, s, e, now).0
  }

  datatype Timed = Timed(event: Event, now: int)

  const EMPTY := Store([], 0, 0, [], [], [])

  function Run(p: Policy, hash: Hash, lower: string -> string, run: seq<Timed>): Store {
    if run == [] then EMPTY
    else Next(p, hash, lower, Run(p, hash, lower, run[..|run| - 1]), run[|run| - 1].event, run[|run| - 1].now)
  }

  /** The clock does not go back. */
  predicate Monotone(run: seq<Timed>) {
    forall i, j :: 0 <= i < j < |run| ==> run[i].now <= run[j].now
  }

  // ----- counting under the table's changes

  lemma CountSnoc(rows: seq<Row>, r: Row, s: Scope, since: int)
    ensures CountSince(rows + [r], s, since)
            == CountSince(rows, s, since) + if InScope(r, s) && r.at >= since then 1 else 0
  {
    assert (rows + [r])[..|rows + [r]| - 1] == rows;
  }

  lemma {:induction false} CountPurged(rows: seq<Row>, before: int, s: Scope, since: int)
    requires since >= before
    ensures CountSince(Purged(rows, before), s, since) == CountSince(rows, s, since)
  {
    if rows != [] {
      var init, last := rows[..|rows| - 1], rows[|rows| - 1];
      CountPurged(init, before, s, since);
      CountSnoc(Purged(init, before), last, s, since);
      assert Purged(init, before) + [] == Purged(init, before);
    }
  }

  /** Rows that agree on everything the counts look at. */
  predicate SameEvent(a: Row, b: Row) {
    a.id == b.id && a.email == b.email && a.status == b.status && a.ip == b.ip && a.at == b.at
  }

  lemma {:induction false} CountUpdated(rows: seq<Row>, i: nat, r: Row, s: Scope, since: int)
    requires i < |rows| && SameEvent(rows[i], r)
    ensures CountSince(rows[i := r], s, since) == CountSince(rows, s, since)
  {
    var n := |rows| - 1;
    if i < n {
      assert rows[i := r][..n] == rows[..n][i := r];
      CountUpdated(rows[..n], i, r, s, since);
    } else {
      assert rows[i := r][..n] == rows[..n];
    }
  }

  lemma {:induction false} CountMonotone(rows: seq<Row>, s: Scope, lo: int, hi: int)
    requires lo <= hi
    ensures CountSince(rows, s, hi) <= CountSince(rows, s, lo)
  {
    if rows != [] {
      CountMonotone(rows[..|rows| - 1], s, lo, hi);
    }
  }

  /** Requests that were let through, in a closed interval. */
  function Tally(log: seq<Row>, s: Scope, lo: int, hi: int): nat {
    if log == [] then 0
    else
      var r := log[|log| - 1];
      Tally(log[..|log| - 1], s, lo, hi) + if InScope(r, s) && r.status != Throttled && lo <= r.at <= hi then 1 else 0
  }

  lemma {:induction false} TallyIsCounted(log: seq<Row>, s: Scope, lo: int, hi: int)
    ensures Tally(log, s, lo, hi) <= CountSince(log, s, lo)
  {
    if log != [] {
      TallyIsCounted(log[..|log| - 1], s, lo, hi);
    }
  }

  lemma TallySnoc(log: seq<Row>, r: Row, s: Scope, lo: int, hi: int)
    ensures Tally(log + [r], s, lo, hi)
            == Tally(log, s, lo, hi) + if InScope(r, s) && r.status != Throttled && lo <= r.at <= hi then 1 else 0
  {
    assert (log + [r])[..|log + [r]| - 1] == log;
  }

  // ----- quotas

  function WindowOf(s: Scope): int { if s.SentTo? then DAY else HOUR }

  function QuotaOf(p: Policy, s: Scope): int {
    match s
    case OfEmail(_) => p.emailPerHour
    case SentTo(_) => p.emailSentPerDay
    case OfIp(_) => p.ipPerHour
    case Everyone => p.globalPerHour
  }

  ghost predicate QuotaInv(p: Policy, s: Store, now: int) {
    && (forall scope, lo :: lo >= now - PURGE_AGE ==> CountSince(s.rows, scope, lo) == CountSince(s.log, scope, lo))
    && (forall scope, lo :: TallyOk(p, s.log, scope, lo))
  }

  predicate TallyOk(p: Policy, log: seq<Row>, scope: Scope, lo: int) {
    Tally(log, scope, lo, lo + WindowOf(scope)) <= Max(0, QuotaOf(p, scope))
  }

  /** An allowed request was under every quota it counts towards. */
  lemma AllowedIsUnderQuota(p: Policy, rows: seq<Row>, email: string, ip: Option<string>, now: int, r: Row,
                            scope: Scope)
    requires Verdict(rows, email, ip, now, p).Allowed?
    requires r.email == email && r.ip == ip && InScope(r, scope)
    ensures CountSince(rows, scope, now - WindowOf(scope)) < QuotaOf(p, scope)
  {}

  lemma RecordKeepsQuota(p: Policy, s: Store, r: Row, now: int, scope: Scope, lo: int)
    requires QuotaInv(p, s, now) && r.at == now
    requires r.status != Throttled ==> Verdict(s.rows, r.email, r.ip, now, p).Allowed?
    ensures TallyOk(p, s.log + [r], scope, lo)
  {
    assert TallyOk(p, s.log, scope, lo);
    TallySnoc(s.log, r, scope, lo, lo + WindowOf(scope));
    if InScope(r, scope) && r.status != Throttled && lo <= now <= lo + WindowOf(scope) {
      AllowedIsUnderQuota(p, s.rows, r.email, r.ip, now, r, scope);
      TallyIsCounted(s.log, scope, lo, lo + WindowOf(scope));
      CountMonotone(s.log, scope, now - WindowOf(scope), lo);
    }
  }

  lemma PurgeKeepsQuota(p: Policy, s: Store, before: int, now: int, works: bool)
    requires QuotaInv(p, s, before) && before <= now
    ensures QuotaInv(p, MaybePurge(s, now, works), now)
  {
    var t := MaybePurge(s, now, works);
    forall scope, lo | lo >= now - PURGE_AGE
      ensures CountSince(t.rows, scope, lo) == CountSince(t.log, scope, lo)
    {
      CountPurged(s.rows, now - PURGE_AGE, scope, lo);
    }
  }

  lemma RecordedKeepsQuota(p: Policy, t: Store, r: Row, now: int)
    requires QuotaInv(p, t, now) && r.at == now
    requires r.status != Throttled ==> Verdict(t.rows, r.email, r.ip, now, p).Allowed?
    ensures QuotaInv(p, t.(rows := t.rows + [r], log := t.log + [r], nextId := t.nextId + 1), now)
  {
    forall scope, lo | lo >= now - PURGE_AGE
      ensures CountSince(t.rows + [r], scope, lo) == CountSince(t.log + [r], scope, lo)
    {
      CountSnoc(t.rows, r, scope, lo);
      CountSnoc(t.log, r, scope, lo);
    }
    forall scope, lo
      ensures TallyOk(p, t.log + [r], scope, lo)
    {
      RecordKeepsQuota(p, t, r, now, scope, lo);
    }
  }

  lemma VerifyKeepsQuota(p: Policy, hash: Hash, lower: string -> string, s: Store, e: Event, before: int, now: int)
    requires QuotaInv(p, s, before) && before <= now && e.Verify?
    ensures QuotaInv(p, Next(p, hash, lower, s, e, now), now)
  {
    var d := Next(p, hash, lower, s, e, now);
    if d.rows != s.rows {
      assert d.log == s.log && e.pick < |s.rows| && d.rows == s.rows[e.pick := d.rows[e.pick]];
      forall scope, lo | lo >= now - PURGE_AGE
        ensures CountSince(d.rows, scope, lo) == CountSince(d.log, scope, lo)
      {
        CountUpdated(s.rows, e.pick, d.rows[e.pick], scope, lo);
      }
    }
  }

  lemma NextKeepsQuota(p: Policy, hash: Hash, lower: string -> string, s: Store, e: Event, before: int, now: int)
    requires QuotaInv(p, s, before) && before <= now
    ensures QuotaInv(p, Next(p, hash, lower, s, e, now), now)
  {
    if e.Request? {
      var t := MaybePurge(s, now, e.purgeWorks);
      PurgeKeepsQuota(p, s, before, now, e.purgeWorks);
      var d := Next(p, hash, lower, s, e, now);
      RecordedKeepsQuota(p, t, d.rows[|t.rows|], now);
    } else {
      VerifyKeepsQuota(p, hash, lower, s, e, before, now);
    }
  }

  lemma {:induction false} RunKeepsQuota(p: Policy, hash: Hash, lower: string -> string, run: seq<Timed>, now: int)
    requires Monotone(run) && (run != [] ==> run[|run| - 1].now <= now)
    ensures QuotaInv(p, Run(p, hash, lower, run), now)
  {
    if run != [] {
      var init, last := run[..|run| - 1], run[|run| - 1];
      RunKeepsQuota(p, hash, lower, init, last.now);
      NextKeepsQuota(p, hash, lower, Run(p, hash, lower, init), last.event, last.now, last.now);
    }
  }

  /**
   In every run, every closed hour holds at most the allowed number of requests let through per
   address, per IP and overall, and every closed day at most the allowed codes sent to an address.
   */
  lemma {:induction false} QuotasHold(p: Policy, hash: Hash, lower: string -> string, run: seq<Timed>, scope: Scope,
                                      lo: int)
    requires Monotone(run)
    ensures var window := if scope.SentTo? then 24 * 60 * 60 * 1000 else 60 * 60 * 1000;
            Tally(Run(p, hash, lower, run).log, scope, lo, lo + window) <= Max(0, QuotaOf(p, scope))
  {
    var now := if run == [] then 0 else run[|run| - 1].now;
    var window := if scope.SentTo? then 24 * 60 * 60 * 1000 else 60 * 60 * 1000;
    assert window == WindowOf(scope);
    RunKeepsQuota(p, hash, lower, run, now);
    QuotaHolds(p, Run(p, hash, lower, run), now, scope, lo);
  }

  lemma QuotaHolds(p: Policy, s: Store, now: int, scope: Scope, lo: int)
    requires QuotaInv(p, s, now)
    ensures Tally(s.log, scope, lo, lo + WindowOf(scope)) <= Max(0, QuotaOf(p, scope))
  {
    assert TallyOk(p, s.log, scope, lo);
  }

  // ----- cooldowns

  lemma {:induction false} LastIsLatest(rows: seq<Row>, email: string)
    ensures forall r :: r in rows && r.email == email ==>
            TimesOf(rows, email) != [] && r.at <= MaxOf(TimesOf(rows, email))
    ensures TimesOf(rows, email) != [] ==>
            exists r :: r in rows && r.email == email && r.at == MaxOf(TimesOf(rows, email))
  {
    if rows != [] {
      var init, last := rows[..|rows| - 1], rows[|rows| - 1];
      assert rows == init + [last];
      LastIsLatest(init, email);
      TimesSnoc(init, last, email);
    }
  }

  /** Under every quota the address, its IP and everyone count towards. */
  predicate UnderQuotas(rows: seq<Row>, email: string, ip: Option<string>, now: int, p: Policy) {
    && CountSince(rows, SentTo(email), now - DAY) < p.emailSentPerDay
    && CountSince(rows, OfEmail(email), now - HOUR) < p.emailPerHour
    && (if ip.Some? then CountSince(rows, OfIp(ip.value), now - HOUR) else 0) < p.ipPerHour
    && CountSince(rows, Everyone, now - HOUR) < p.globalPerHour
  }

  /**
   A request is let through exactly if it is under every quota and no request of its address,
   refused ones included, is younger than the step of the ladder its last hour has reached.
   */
  lemma {:induction false} AllowedExactly(rows: seq<Row>, email: string, ip: Option<string>, now: int, p: Policy)
    requires forall r :: r in rows ==> r.at > 0
    ensures Verdict(rows, email, ip, now, p).Allowed? <==>
            UnderQuotas(rows, email, ip, now, p)
            && forall r :: r in rows && r.email == email ==>
               now - r.at >= CooldownFor(CountSince(rows, OfEmail(email), now - HOUR), p.ladder)
  {
    LastIsLatest(rows, email);
    if TimesOf(rows, email) != [] {
      var latest :| latest in rows && latest.email == email && latest.at == MaxOf(TimesOf(rows, email));
      assert LastAt(rows, email) == latest.at;
    }
  }

  /** The least number of whole seconds, but at least one, that is not shorter than this. */
  predicate Seconds(wait: int, ms: int) {
    wait >= 1 && ms <= 1000 * wait && (wait > 1 ==> 1000 * (wait - 1) < ms)
  }

  /**
   The first quota in this order that is used up is the reason for a refusal, and only a request under
   all of them can be refused for coming too soon. Then, and where the hour of the address is used up,
   the time to wait is counted from the latest request of the address and rounded up to seconds.
   */
  lemma RefusedExactly(rows: seq<Row>, email: string, ip: Option<string>, now: int, p: Policy)
    ensures var v := Verdict(rows, email, ip, now, p);
            var hour := CountSince(rows, OfEmail(email), now - HOUR);
            var daily := CountSince(rows, SentTo(email), now - DAY) >= p.emailSentPerDay;
            var hourly := hour >= p.emailPerHour;
            var byIp := (if ip.Some? then CountSince(rows, OfIp(ip.value), now - HOUR) else 0) >= p.ipPerHour;
            var global := CountSince(rows, Everyone, now - HOUR) >= p.globalPerHour;
            var since := now - LastAt(rows, email);
            && (v == Refused("email_daily_quota", 3600) <==> daily)
            && (v.Refused? && v.reason == "email_hourly_quota" <==> !daily && hourly)
            && (v == Refused("ip_hourly_quota", 600) <==> !daily && !hourly && byIp)
            && (v == Refused("global_hourly_quota", 300) <==> !daily && !hourly && !byIp && global)
            && (v.Refused? && v.reason == "email_cooldown" <==>
                  !daily && !hourly && !byIp && !global && LastAt(rows, email) > 0 &&
                    since < CooldownFor(hour, p.ladder))
            && (v.Refused? && v.reason == "email_hourly_quota" ==> Seconds(v.retryAfter, HOUR - since))
            && (v.Refused? && v.reason == "email_cooldown" ==>
                  Seconds(v.retryAfter, CooldownFor(hour, p.ladder) - since))
  {
    assert |"email_daily_quota"| == 17 && |"email_hourly_quota"| == 18 && |"ip_hourly_quota"| == 15;
    assert |"global_hourly_quota"| == 19 && |"email_cooldown"| == 14;
  }

  /** The step of the ladder: its last one once it is used up, a minute if there is none. */
  lemma LadderSteps(total: nat, ladder: seq<int>)
    ensures ladder == [] ==> CooldownFor(total, ladder) == 60 * 1000
    ensures total < |ladder| ==> CooldownFor(total, ladder) == ladder[total]
    ensures ladder != [] && total >= |ladder| ==> CooldownFor(total, ladder) == ladder[|ladder| - 1]
  {}

  // ----- codes

  function CountId(ids: seq<nat>, id: nat): nat {
    if ids == [] then 0 else CountId(ids[..|ids| - 1], id) + if ids[|ids| - 1] == id then 1 else 0
  }

  lemma CountIdSnoc(ids: seq<nat>, x: nat, id: nat)
    ensures CountId(ids + [x], id) == CountId(ids, id) + if x == id then 1 else 0
  {
    assert (ids + [x])[..|ids + [x]| - 1] == ids;
  }

  /** A code of the table: its guesses are counted, and it is closed once used or guessed too often. */
  ghost predicate CodeOfTable(p: Policy, s: Store, r: Row) {
    && r.id < s.nextId
    && r.attempts == CountId(s.wrong, r.id)
    && (r.consumedAt.None? ==>
          r.attempts < p.maxAttempts && forall i :: 0 <= i < |s.accepted| ==> s.accepted[i].id != r.id)
    && r.attempts <= p.maxAttempts
  }

  /** A use happened before expiry, after fewer wrong guesses than allowed, and no guess was counted since. */
  ghost predicate GoodUse(p: Policy, s: Store, u: Use) {
    && u.id < s.nextId && u.wrongBefore < p.maxAttempts && u.wrongBefore == CountId(s.wrong, u.id)
    && (u.expiresAt.Some? ==> u.at <= u.expiresAt.value)
  }

  predicate DistinctUses(accepted: seq<Use>) {
    forall i, j :: 0 <= i < j < |accepted| ==> accepted[i].id != accepted[j].id
  }

  ghost predicate CodesInv(p: Policy, s: Store) {
    && (forall i :: 0 <= i < |s.rows| ==> CodeOfTable(p, s, s.rows[i]))
    && (forall i, j :: 0 <= i < j < |s.rows| ==> s.rows[i].id != s.rows[j].id)
    && (forall u :: u in s.accepted ==> GoodUse(p, s, u))
    && DistinctUses(s.accepted)
    && (forall id :: id in s.wrong ==> id < s.nextId)
  }

  lemma {:induction false} PurgedIsPart(rows: seq<Row>, before: int)
    ensures forall i :: 0 <= i < |Purged(rows, before)| ==> Purged(rows, before)[i] in rows
    ensures (forall i, j :: 0 <= i < j < |rows| ==> rows[i].id != rows[j].id) ==>
              (forall i, j :: 0 <= i < j < |Purged(rows, before)| ==>
               Purged(rows, before)[i].id != Purged(rows, before)[j].id)
  {
    if rows != [] {
      var init, last := rows[..|rows| - 1], rows[|rows| - 1];
      PurgedIsPart(init, before);
      assert rows == init + [last];
      if forall i, j :: 0 <= i < j < |rows| ==> rows[i].id != rows[j].id {
        assert forall i :: 0 <= i < |init| ==> rows[i] == init[i] && rows[i].id != rows[|rows| - 1].id;
        assert forall i :: 0 <= i < |Purged(init, before)| ==> Purged(init, before)[i].id != last.id;
      }
    }
  }

  lemma PurgeKeepsCodes(p: Policy, s: Store, now: int, works: bool)
    requires CodesInv(p, s)
    ensures CodesInv(p, MaybePurge(s, now, works))
  {
    var t := MaybePurge(s, now, works);
    PurgedIsPart(s.rows, now - PURGE_AGE);
    forall i | 0 <= i < |t.rows|
      ensures CodeOfTable(p, t, t.rows[i])
    {
      assert t.rows[i] in s.rows;
      assert CodeOfTable(p, s, t.rows[i]);
    }
    assert forall u :: u in s.accepted ==> GoodUse(p, s, u) ==> GoodUse(p, t, u);
  }

  lemma {:induction false} CountIdNone(ids: seq<nat>, id: nat)
    requires id !in ids
    ensures CountId(ids, id) == 0
  {
    if ids != [] {
      CountIdNone(ids[..|ids| - 1], id);
    }
  }

  lemma RecordKeepsCodes(p: Policy, s: Store, email: string, status: Status, ip: Option<string>, username: string,
                         codeHash: Option<string>, at: int, expiresAt: Option<int>)
    requires CodesInv(p, s) && p.maxAttempts >= 1
    ensures CodesInv(p, Recorded(s, email, status, ip, username, codeHash, at, expiresAt))
  {
    var d := Recorded(s, email, status, ip, username, codeHash, at, expiresAt);
    CountIdNone(s.wrong, s.nextId);
    forall i | 0 <= i < |s.accepted| ensures s.accepted[i].id < s.nextId {
      assert GoodUse(p, s, s.accepted[i]);
    }
    forall i | 0 <= i < |d.rows|
      ensures CodeOfTable(p, d, d.rows[i])
    {
      if i < |s.rows| { assert CodeOfTable(p, s, s.rows[i]); }
    }
    assert forall u :: u in s.accepted ==> GoodUse(p, s, u) ==> GoodUse(p, d, u);
    assert forall i :: 0 <= i < |s.rows| ==> CodeOfTable(p, s, s.rows[i]) && s.rows[i].id != s.nextId;
  }

  lemma BumpKeepsCodes(p: Policy, s: Store, pick: nat, now: int)
    requires CodesInv(p, s) && pick < |s.rows| && s.rows[pick].consumedAt.None?
    ensures CodesInv(p, Bumped(s, pick, s.rows[pick].attempts + 1 >= p.maxAttempts, now))
  {
    var r := s.rows[pick];
    var d := Bumped(s, pick, r.attempts + 1 >= p.maxAttempts, now);
    assert CodeOfTable(p, s, r);
    forall i | 0 <= i < |d.rows|
      ensures CodeOfTable(p, d, d.rows[i])
    {
      assert CodeOfTable(p, s, s.rows[i]);
      CountIdSnoc(s.wrong, r.id, d.rows[i].id);
    }
    forall u | u in d.accepted
      ensures GoodUse(p, d, u)
    {
      assert GoodUse(p, s, u);
      CountIdSnoc(s.wrong, r.id, u.id);
    }
  }

  lemma UseKeepsCodes(p: Policy, s: Store, pick: nat, now: int)
    requires CodesInv(p, s) && pick < |s.rows| && s.rows[pick].consumedAt.None?
    requires s.rows[pick].expiresAt.Some? ==> now <= s.rows[pick].expiresAt.value
    ensures CodesInv(p, Consumed(s, pick, now))
  {
    var r := s.rows[pick];
    var d := Consumed(s, pick, now);
    assert CodeOfTable(p, s, r);
    forall i | 0 <= i < |d.rows|
      ensures CodeOfTable(p, d, d.rows[i])
    {
      assert CodeOfTable(p, s, s.rows[i]);
    }
    assert forall u :: u in s.accepted ==> GoodUse(p, s, u) ==> GoodUse(p, d, u);
  }

  lemma RequestKeepsCodes(p: Policy, hash: Hash, s: Store, e: Event, now: int)
    requires CodesInv(p, s) && p.maxAttempts >= 1 && e.Request?
    ensures CodesInv(p, RequestCode(p, hash, s, e, now).0)
  {
    var t := MaybePurge(s, now, e.purgeWorks);
    PurgeKeepsCodes(p, s, now, e.purgeWorks);
    if Verdict(t.rows, e.email, e.ip, now, p).Refused? {
      RecordKeepsCodes(p, t, e.email, Throttled, e.ip, e.username, None, now, None);
    } else if !e.mailOk {
      RecordKeepsCodes(p, t, e.email, Failed, e.ip, e.username, None, now, None);
    } else {
      RecordKeepsCodes(p, t, e.email, Sent, e.ip, e.username, Some(hash(e.email, e.code)), now, Some(now + p.codeTtl));
    }
  }

  lemma VerifyKeepsCodes(p: Policy, hash: Hash, lower: string -> string, s: Store, e: Event, now: int)
    requires CodesInv(p, s) && e.Verify?
    ensures CodesInv(p, ConsumeCode(p, hash, lower, s, e, now).0)
  {
    if IsLatestSent(s.rows, e.email, e.pick) && s.rows[e.pick].consumedAt.None? {
      BumpKeepsCodes(p, s, e.pick, now);
      if s.rows[e.pick].expiresAt.Some? ==> now <= s.rows[e.pick].expiresAt.value {
        UseKeepsCodes(p, s, e.pick, now);
      }
    }
  }

  lemma {:induction false} RunKeepsCodes(p: Policy, hash: Hash, lower: string -> string, run: seq<Timed>)
    requires p.maxAttempts >= 1
    ensures CodesInv(p, Run(p, hash, lower, run))
  {
    if run != [] {
      var last := run[|run| - 1];
      var s := Run(p, hash, lower, run[..|run| - 1]);
      RunKeepsCodes(p, hash, lower, run[..|run| - 1]);
      if last.event.Request? {
        RequestKeepsCodes(p, hash, s, last.event, last.now);
      } else {
        VerifyKeepsCodes(p, hash, lower, s, last.event, last.now);
      }
    }
  }

  /**
   In every run each code is accepted at most once, not after it expired, and after fewer wrong
   guesses than allowed; once accepted it takes no more guesses, and no code ever takes more
   guesses than allowed.
   */
  lemma {:induction false} CodesAreUsedOnce(p: Policy, hash: Hash, lower: string -> string, run: seq<Timed>)
    requires p.maxAttempts >= 1
    ensures var s := Run(p, hash, lower, run);
            && DistinctUses(s.accepted)
            && (forall u :: u in s.accepted ==>
                  CountId(s.wrong, u.id) == u.wrongBefore < p.maxAttempts &&
                    (u.expiresAt.Some? ==> u.at <= u.expiresAt.value))
            && (forall r :: r in s.rows ==> CountId(s.wrong, r.id) == r.attempts <= p.maxAttempts)
  {
    RunKeepsCodes(p, hash, lower, run);
    UsesOf(p, Run(p, hash, lower, run));
  }

  lemma UsesOf(p: Policy, s: Store)
    requires CodesInv(p, s)
    ensures DistinctUses(s.accepted)
    ensures forall u :: u in s.accepted ==>
              CountId(s.wrong, u.id) == u.wrongBefore < p.maxAttempts &&
                (u.expiresAt.Some? ==> u.at <= u.expiresAt.value)
    ensures forall r :: r in s.rows ==> CountId(s.wrong, r.id) == r.attempts <= p.maxAttempts
  {
    forall u | u in s.accepted ensures GoodUse(p, s, u) {}
    forall r | r in s.rows ensures CodeOfTable(p, s, r) {}
  }

  /** Four to eight decimal digits. */
  predicate Digits(code: string) {
    4 <= |code| <= 8 && forall i :: 0 <= i < |code| ==> '0' <= code[i] <= '9'
  }

  /** The code of this row can still be used: it was mailed, is not closed, and is not past its time. */
  predicate Usable(r: Row, now: int) {
    r.codeHash.Some? && r.consumedAt.None? && (r.expiresAt.Some? ==> now <= r.expiresAt.value)
  }

  predicate ForName(r: Row, lower: string -> string, username: string) {
    r.username.Some? ==> lower(r.username.value) == lower(username)
  }

  /** Of the latest mail of the address this is the code, still usable, and asked for under this name. */
  predicate RightCode(hash: Hash, lower: string -> string, s: Store, e: Event, now: int)
    requires e.Verify?
  {
    && Digits(e.code) && IsLatestSent(s.rows, e.email, e.pick) && Usable(s.rows[e.pick], now)
    && ForName(s.rows[e.pick], lower, e.username) && s.rows[e.pick].codeHash == Some(hash(e.email, e.code))
  }

  /** The same, but the code is another one. */
  predicate WrongCode(hash: Hash, lower: string -> string, s: Store, e: Event, now: int)
    requires e.Verify?
  {
    && Digits(e.code) && IsLatestSent(s.rows, e.email, e.pick) && Usable(s.rows[e.pick], now)
    && ForName(s.rows[e.pick], lower, e.username) && s.rows[e.pick].codeHash != Some(hash(e.email, e.code))
  }

  /**
   A verification is accepted exactly for the code that was mailed last, while it can be used and for
   the name it was asked with, however often it was mistyped before; then, and only then, the code is
   closed as used. A wrong code is counted, and closes the row with the last attempt allowed. Every
   other verification changes nothing.
   */
  lemma AcceptedIsTheCode(p: Policy, hash: Hash, lower: string -> string, s: Store, e: Event, now: int)
    requires e.Verify?
    ensures var (t, outcome) := ConsumeCode(p, hash, lower, s, e, now);
            && (outcome.Accepted? <==> RightCode(hash, lower, s, e, now))
            && (outcome.Accepted? ==>
                  var r := s.rows[e.pick];
                  t == s.(rows := s.rows[e.pick := r.(consumedAt := Some(now))],
                          accepted := s.accepted + [Use(r.id, now, r.expiresAt, r.attempts)]))
            && (WrongCode(hash, lower, s, e, now) ==>
                  var r := s.rows[e.pick];
                  var last := r.attempts + 1 >= p.maxAttempts;
                  && outcome == Rejected(if last then "code_attempts_exceeded" else "code_invalid")
                  && t == s.(rows := s.rows[e.pick := r.(attempts := r.attempts + 1,
                                                         consumedAt := if last then Some(now) else None)],
                             wrong := s.wrong + [r.id]))
            && (!RightCode(hash, lower, s, e, now) && !WrongCode(hash, lower, s, e, now) ==>
                t == s && outcome.Rejected?)
  {
    assert WellFormedCode(e.code) <==> Digits(e.code);
  }

  /** The row was written by this request of the run, when it was let through and its mail went out. */
  ghost predicate MailedBy(p: Policy, hash: Hash, lower: string -> string, run: seq<Timed>, i: nat, r: Row) {
    && i < |run| && run[i].event.Request? && run[i].event.mailOk
    && RequestCode(p, hash, Run(p, hash, lower, run[..i]), run[i].event, run[i].now).1.Allowed?
    && r.email == run[i].event.email && r.username == Some(run[i].event.username)
    && r.codeHash == Some(hash(run[i].event.email, run[i].event.code))
    && r.at == run[i].now && r.expiresAt == Some(run[i].now + p.codeTtl)
  }

  ghost predicate Mailed(p: Policy, hash: Hash, lower: string -> string, run: seq<Timed>, r: Row) {
    r.status == Sent ==> exists i: nat :: MailedBy(p, hash, lower, run, i, r)
  }

  lemma MailedStays(p: Policy, hash: Hash, lower: string -> string, run: seq<Timed>, t: Timed, old_: Row, r: Row)
    requires Mailed(p, hash, lower, run, old_)
    requires r == old_.(attempts := r.attempts, consumedAt := r.consumedAt)
    ensures Mailed(p, hash, lower, run + [t], r)
  {
    if r.status == Sent {
      var i: nat :| MailedBy(p, hash, lower, run, i, old_);
      assert (run + [t])[..i] == run[..i];
      assert MailedBy(p, hash, lower, run + [t], i, r);
    }
  }

  /** A request adds one row after those the purge leaves. */
  lemma RequestAdds(p: Policy, hash: Hash, s: Store, e: Event, now: int) returns (r: Row)
    requires e.Request?
    ensures RequestCode(p, hash, s, e, now).0.rows == MaybePurge(s, now, e.purgeWorks).rows + [r]
    ensures r.status == Sent ==>
              && RequestCode(p, hash, s, e, now).1.Allowed? && e.mailOk
              && r.email == e.email && r.username == Some(e.username) && r.codeHash == Some(hash(e.email, e.code))
              && r.at == now && r.expiresAt == Some(now + p.codeTtl)
  {
    var d := RequestCode(p, hash, s, e, now).0;
    r := d.rows[|d.rows| - 1];
  }

  lemma KeptByPurge(s: Store, now: int, works: bool, r: Row)
    requires r in MaybePurge(s, now, works).rows
    ensures r in s.rows
  {
    PurgedIsPart(s.rows, now - PURGE_AGE);
  }

  lemma RequestMails(p: Policy, hash: Hash, lower: string -> string, run: seq<Timed>, t: Timed, s: Store, r: Row)
    requires t.event.Request? && s == Run(p, hash, lower, run)
    requires forall q :: q in s.rows ==> Mailed(p, hash, lower, run, q)
    requires r in RequestCode(p, hash, s, t.event, t.now).0.rows
    ensures Mailed(p, hash, lower, run + [t], r)
  {
    var added := RequestAdds(p, hash, s, t.event, t.now);
    if r == added {
      NewIsMailed(p, hash, lower, run, t, s, added);
    } else {
      KeptByPurge(s, t.now, t.event.purgeWorks, r);
      MailedStays(p, hash, lower, run, t, r, r);
    }
  }

  lemma NewIsMailed(p: Policy, hash: Hash, lower: string -> string, run: seq<Timed>, t: Timed, s: Store, r: Row)
    requires t.event.Request? && s == Run(p, hash, lower, run)
    requires r.status == Sent ==>
               && RequestCode(p, hash, s, t.event, t.now).1.Allowed? && t.event.mailOk
               && r.email == t.event.email && r.username == Some(t.event.username)
               && r.codeHash == Some(hash(t.event.email, t.event.code))
               && r.at == t.now && r.expiresAt == Some(t.now + p.codeTtl)
    ensures Mailed(p, hash, lower, run + [t], r)
  {
    if r.status == Sent {
      assert (run + [t])[..|run|] == run;
      assert MailedBy(p, hash, lower, run + [t], |run|, r);
    }
  }

  lemma VerifyKeepsLength(p: Policy, hash: Hash, lower: string -> string, s: Store, e: Event, now: int)
    requires e.Verify?
    ensures |ConsumeCode(p, hash, lower, s, e, now).0.rows| == |s.rows|
  {}

  /** A verification changes of a row only its guesses and whether it is closed. */
  lemma VerifyUpdates(p: Policy, hash: Hash, lower: string -> string, s: Store, e: Event, now: int, i: nat)
    requires e.Verify? && i < |s.rows|
    ensures var rows := ConsumeCode(p, hash, lower, s, e, now).0.rows;
            |rows| == |s.rows| && rows[i] == s.rows[i].(attempts := rows[i].attempts, consumedAt := rows[i].consumedAt)
  {
    AcceptedIsTheCode(p, hash, lower, s, e, now);
  }

  lemma VerifyMails(p: Policy, hash: Hash, lower: string -> string, run: seq<Timed>, t: Timed, s: Store, r: Row)
    requires t.event.Verify? && s == Run(p, hash, lower, run)
    requires forall q :: q in s.rows ==> Mailed(p, hash, lower, run, q)
    requires r in ConsumeCode(p, hash, lower, s, t.event, t.now).0.rows
    ensures Mailed(p, hash, lower, run + [t], r)
  {
    var rows := ConsumeCode(p, hash, lower, s, t.event, t.now).0.rows;
    VerifyKeepsLength(p, hash, lower, s, t.event, t.now);
    var i :| 0 <= i < |rows| && rows[i] == r;
    VerifyUpdates(p, hash, lower, s, t.event, t.now, i);
    assert s.rows[i] in s.rows;
    MailedStays(p, hash, lower, run, t, s.rows[i], r);
  }

  lemma {:induction false} RowsWereMailed(p: Policy, hash: Hash, lower: string -> string, run: seq<Timed>)
    ensures forall r :: r in Run(p, hash, lower, run).rows ==> Mailed(p, hash, lower, run, r)
  {
    if run != [] {
      var init, last := run[..|run| - 1], run[|run| - 1];
      RowsWereMailed(p, hash, lower, init);
      assert run == init + [last];
      forall r | r in Run(p, hash, lower, run).rows ensures Mailed(p, hash, lower, run, r) {
        if last.event.Request? {
          RequestMails(p, hash, lower, init, last, Run(p, hash, lower, init), r);
        } else {
          VerifyMails(p, hash, lower, init, last, Run(p, hash, lower, init), r);
        }
      }
    }
  }

  /**
   From every run: what is accepted is the code of a request that was let through, mailed to the
   address and made under the same name, no longer ago than a code lives.
   */
  lemma AcceptedWasMailed(p: Policy, hash: Hash, lower: string -> string, run: seq<Timed>, e: Event, now: int)
    returns (i: nat)
    requires e.Verify? && ConsumeCode(p, hash, lower, Run(p, hash, lower, run), e, now).1.Accepted?
    ensures i < |run| && run[i].event.Request? && run[i].event.mailOk && run[i].event.email == e.email
    ensures RequestCode(p, hash, Run(p, hash, lower, run[..i]), run[i].event, run[i].now).1.Allowed?
    ensures hash(e.email, run[i].event.code) == hash(e.email, e.code)
    ensures lower(run[i].event.username) == lower(e.username) && now <= run[i].now + p.codeTtl
  {
    var s := Run(p, hash, lower, run);
    RowsWereMailed(p, hash, lower, run);
    AcceptedIsTheCode(p, hash, lower, s, e, now);
    assert Mailed(p, hash, lower, run, s.rows[e.pick]);
    i :| MailedBy(p, hash, lower, run, i, s.rows[e.pick]);
  }

  lemma {:induction false} StepRowsAreOld(p: Policy, hash: Hash, lower: string -> string, s: Store, e: Event, now: int)
    requires forall r :: r in s.rows ==> r.at <= now
    ensures forall r :: r in Next(p, hash, lower, s, e, now).rows ==> r.at <= now
  {
    PurgedIsPart(s.rows, now - PURGE_AGE);
    if e.Verify? {
      forall r | r in Next(p, hash, lower, s, e, now).rows ensures r.at <= now {
        var i :| 0 <= i < |s.rows| && Next(p, hash, lower, s, e, now).rows[i] == r;
        assert s.rows[i] in s.rows && r.at == s.rows[i].at;
      }
    }
  }

  lemma {:induction false} RowsAreOld(p: Policy, hash: Hash, lower: string -> string, run: seq<Timed>, now: int)
    requires Monotone(run) && (run != [] ==> run[|run| - 1].now <= now)
    ensures forall r :: r in Run(p, hash, lower, run).rows ==> r.at <= now
  {
    if run != [] {
      var init, last := run[..|run| - 1], run[|run| - 1];
      RowsAreOld(p, hash, lower, init, last.now);
      var s := Run(p, hash, lower, init);
      StepRowsAreOld(p, hash, lower, s, last.event, last.now);
    }
  }

  /** And the other way: a code that was just mailed is accepted for its name as long as it lives. */
  lemma MailedIsAccepted(p: Policy, hash: Hash, lower: string -> string, run: seq<Timed>, request: Event, at: int,
                         now: int)
    requires Monotone(run) && (run != [] ==> run[|run| - 1].now <= at)
    requires request.Request? && request.mailOk && Digits(request.code) && now <= at + p.codeTtl
    requires RequestCode(p, hash, Run(p, hash, lower, run), request, at).1.Allowed?
    ensures var s := RequestCode(p, hash, Run(p, hash, lower, run), request, at).0;
            && s.rows != []
            && ConsumeCode(p, hash, lower, s, Verify(request.email, request.username, request.code, |s.rows| - 1),
                           now).1.Accepted?
  {
    var was := Run(p, hash, lower, run);
    var s := RequestCode(p, hash, was, request, at).0;
    var e := Verify(request.email, request.username, request.code, |s.rows| - 1);
    RowsAreOld(p, hash, lower, run, at);
    PurgedIsPart(was.rows, at - PURGE_AGE);
    forall i | 0 <= i < |s.rows| ensures s.rows[i].at <= at {
      if i < |s.rows| - 1 { assert s.rows[i] in was.rows; }
    }
    AcceptedIsTheCode(p, hash, lower, s, e, now);
  }

  /** The reasons for refusing a code without looking at it, each exactly when it applies. */
  lemma RefusalsExactly(p: Policy, hash: Hash, lower: string -> string, s: Store, e: Event, now: int)
    requires e.Verify?
    ensures !Digits(e.code) ==> ConsumeCode(p, hash, lower, s, e, now).1 == Rejected("code_invalid")
    ensures Digits(e.code) ==>
            var outcome := ConsumeCode(p, hash, lower, s, e, now).1;
            var sent := IsLatestSent(s.rows, e.email, e.pick) && s.rows[e.pick].codeHash.Some?;
            && (outcome == Rejected("code_missing") <==> !sent)
            && (outcome == Rejected("code_used") <==>
                  sent && s.rows[e.pick].consumedAt.Some? && s.rows[e.pick].attempts < p.maxAttempts)
            && (sent && s.rows[e.pick].consumedAt.Some? && s.rows[e.pick].attempts >= p.maxAttempts ==>
                  outcome == Rejected("code_attempts_exceeded"))
            && (outcome == Rejected("code_expired") <==>
                  sent && s.rows[e.pick].consumedAt.None? && !Usable(s.rows[e.pick], now))
            && (outcome == Rejected("code_username_mismatch") <==>
                  sent && Usable(s.rows[e.pick], now) && !ForName(s.rows[e.pick], lower, e.username))
  {
    assert WellFormedCode(e.code) <==> Digits(e.code);
    assert |"code_missing"| == 12 && |"code_used"| == 9 && |"code_expired"| == 12 && |"code_username_mismatch"| == 22;
    assert |"code_attempts_exceeded"| == 22 && |"code_invalid"| == 12;
    assert "code_missing"[5] == 'm' && "code_expired"[5] == 'e' && "code_invalid"[5] == 'i';
    assert "code_username_mismatch"[5] == 'u' && "code_attempts_exceeded"[5] == 'a';
  }

  // ----- the purge

  /**
   A purge is due once an hour and is then marked as done even if it fails; what it leaves is exactly
   the rows of the last thirty days, and neither counts nor codes are touched otherwise.
   */
  lemma PurgeExactly(s: Store, now: int, works: bool)
    ensures var t := MaybePurge(s, now, works);
            && t == s.(rows := t.rows, lastPurgeAt := t.lastPurgeAt)
            && (now - s.lastPurgeAt < 60 * 60 * 1000 ==> t == s)
            && (now - s.lastPurgeAt >= 60 * 60 * 1000 ==>
                  && t.lastPurgeAt == now && (!works ==> t.rows == s.rows)
                  && (works ==> forall r :: r in t.rows <==> r in s.rows && r.at >= now - 30 * 24 * 60 * 60 * 1000))
  {
    PurgedIs(s.rows, now - PURGE_AGE);
  }

  lemma {:induction false} PurgedIs(rows: seq<Row>, before: int)
    ensures forall r :: r in Purged(rows, before) <==> r in rows && r.at >= before
  {
    if rows != [] {
      PurgedIs(rows[..|rows| - 1], before);
      assert rows == rows[..|rows| - 1] + [rows[|rows| - 1]];
    }
  }

  // ----- the purge is not noticed

  /** The part of a table the purge at `now` leaves, as far as the counts see it. */
  ghost predicate SameRecent(a: seq<Row>, b: seq<Row>, now: int) {
    && (forall scope, lo :: lo >= now - PURGE_AGE ==> CountSince(a, scope, lo) == CountSince(b, scope, lo))
    && (forall email :: SameLast(TimesOf(a, email), TimesOf(b, email), now))
  }

  /** The latest request of an address is the same, or neither is recent. */
  predicate SameLast(a: seq<int>, b: seq<int>, now: int) {
    || (a != [] && b != [] && MaxOf(a) == MaxOf(b))
    || (NotRecent(a, now) && NotRecent(b, now))
  }

  predicate NotRecent(times: seq<int>, now: int) {
    times == [] || MaxOf(times) < now - PURGE_AGE
  }

  lemma {:induction false} CountMeansLast(rows: seq<Row>, email: string, since: int)
    requires CountSince(rows, OfEmail(email), since) > 0
    ensures TimesOf(rows, email) != [] && MaxOf(TimesOf(rows, email)) >= since
  {
    var init, last := rows[..|rows| - 1], rows[|rows| - 1];
    if last.email == email && last.at >= since {
      TimesSnoc(init, last, email);
    } else {
      CountMeansLast(init, email, since);
      TimesSnoc(init, last, email);
      assert rows == init + [last];
    }
  }

  lemma TimesSnoc(rows: seq<Row>, r: Row, email: string)
    ensures TimesOf(rows + [r], email) == TimesOf(rows, email) + if r.email == email then [r.at] else []
    ensures r.email == email ==> TimesOf(rows + [r], email) != [] && MaxOf(TimesOf(rows + [r], email)) >= r.at
    ensures r.email == email ==> MaxOf(TimesOf(rows + [r], email))
                                 == if TimesOf(rows, email) == [] then r.at else Max(MaxOf(TimesOf(rows, email)), r.at)
    ensures r.email != email ==> TimesOf(rows + [r], email) == TimesOf(rows, email)
  {
    assert (rows + [r])[..|rows + [r]| - 1] == rows;
    var times := TimesOf(rows, email);
    if r.email == email {
      assert (times + [r.at])[..|times + [r.at]| - 1] == times;
    } else {
      assert times + [] == times;
    }
  }

  /** What the purge takes from an address' requests is its old part. */
  lemma {:induction false} LastPurged(rows: seq<Row>, before: int, email: string)
    ensures var all, kept := TimesOf(rows, email), TimesOf(Purged(rows, before), email);
            && (kept == [] ==> all == [] || MaxOf(all) < before)
            && (kept != [] ==> all != [] && MaxOf(all) == MaxOf(kept) && MaxOf(kept) >= before)
  {
    if rows != [] {
      var init, last := rows[..|rows| - 1], rows[|rows| - 1];
      LastPurged(init, before, email);
      assert rows == init + [last];
      TimesSnoc(init, last, email);
      TimesSnoc(Purged(init, before), last, email);
      assert Purged(init, before) + [] == Purged(init, before);
    }
  }

  lemma PurgeIsRecent(rows: seq<Row>, atPurge: int, now: int)
    requires atPurge <= now
    ensures SameRecent(Purged(rows, atPurge - PURGE_AGE), rows, now)
  {
    var before := atPurge - PURGE_AGE;
    forall scope, lo | lo >= now - PURGE_AGE
      ensures CountSince(Purged(rows, before), scope, lo) == CountSince(rows, scope, lo)
    {
      CountPurged(rows, before, scope, lo);
    }
    forall email
      ensures SameLast(TimesOf(Purged(rows, before), email), TimesOf(rows, email), now)
    {
      LastPurged(rows, before, email);
    }
  }

  /**
   When the guard cannot see a purge. Old rows count for nothing but the latest request of an
   address, and that shows in two places: in the time to wait that a quota of nothing reports
   shortly after the epoch, and in a first cooldown longer than the purge age.
   */
  predicate PurgeSafe(p: Policy, now: int) {
    || p.emailSentPerDay <= 0
    || (if p.emailPerHour <= 0 then now >= HOUR - 1000
        else (p.ipPerHour <= 0 || p.globalPerHour <= 0 || now <= PURGE_AGE + 1
              || CooldownFor(0, p.ladder) <= PURGE_AGE + 1))
  }

  /** The verdict depends on the recent part of the table only. */
  lemma VerdictSeesRecent(a: seq<Row>, b: seq<Row>, email: string, ip: Option<string>, now: int, p: Policy)
    requires SameRecent(a, b, now) && PurgeSafe(p, now)
    ensures Verdict(a, email, ip, now, p) == Verdict(b, email, ip, now, p)
  {
    var hour := now - HOUR;
    assert CountSince(a, OfEmail(email), hour) == CountSince(b, OfEmail(email), hour);
    assert CountSince(a, Everyone, hour) == CountSince(b, Everyone, hour);
    assert CountSince(a, SentTo(email), now - DAY) == CountSince(b, SentTo(email), now - DAY);
    assert ip.Some? ==> CountSince(a, OfIp(ip.value), hour) == CountSince(b, OfIp(ip.value), hour);
    assert SameLast(TimesOf(a, email), TimesOf(b, email), now);
    if CountSince(a, OfEmail(email), hour) > 0 {
      RecentLast(a, b, email, now);
    }
  }

  lemma RecentLast(a: seq<Row>, b: seq<Row>, email: string, now: int)
    requires CountSince(a, OfEmail(email), now - HOUR) > 0 && CountSince(b, OfEmail(email), now - HOUR) > 0
    requires SameLast(TimesOf(a, email), TimesOf(b, email), now)
    ensures LastAt(a, email) == LastAt(b, email)
  {
    CountMeansLast(a, email, now - HOUR);
    CountMeansLast(b, email, now - HOUR);
  }

  /** Deleting the rows that were older than the purge age at some time up to now does not change the verdict now. */
  lemma PurgeStaysInvisible(rows: seq<Row>, atPurge: int, email: string, ip: Option<string>, now: int, p: Policy)
    requires atPurge <= now && PurgeSafe(p, now)
    ensures Verdict(Purged(rows, atPurge - PURGE_AGE), email, ip, now, p) == Verdict(rows, email, ip, now, p)
  {
    PurgeIsRecent(rows, atPurge, now);
    VerdictSeesRecent(Purged(rows, atPurge - PURGE_AGE), rows, email, ip, now, p);
  }

  ghost predicate Invisible(rows: seq<Row>, email: string, ip: Option<string>, now: int, p: Policy) {
    Verdict(Purged(rows, now - PURGE_AGE), email, ip, now, p) == Verdict(rows, email, ip, now, p)
  }

  /** A purge changes no verdict, whatever the table, exactly under that condition. */
  lemma PurgeIsInvisible(p: Policy, now: int)
    ensures (forall rows, email, ip :: Invisible(rows, email, ip, now, p)) <==> PurgeSafe(p, now)
  {
    if PurgeSafe(p, now) {
      forall rows, email, ip ensures Invisible(rows, email, ip, now, p) {
        PurgeStaysInvisible(rows, now, email, ip, now, p);
      }
    } else {
      PurgeIsSeen(p, now);
      assert !Invisible([OldRow(now)], "", None, now, p);
    }
  }

  /** A failed request just older than the purge age. */
  function OldRow(now: int): Row {
    Row(0, "", Failed, None, None, None, now - PURGE_AGE - 1, None, 0, None)
  }

  /** With a quota of nothing the time to wait changes; with a longer cooldown a refusal becomes a permission. */
  lemma PurgeIsSeen(p: Policy, now: int)
    requires !PurgeSafe(p, now)
    ensures var kept := Purged([OldRow(now)], now - PURGE_AGE);
            if p.emailPerHour <= 0
            then Verdict([OldRow(now)], "", None, now, p) == Refused("email_hourly_quota", 1)
                 && Verdict(kept, "", None, now, p).Refused? && Verdict(kept, "", None, now, p).retryAfter > 1
            else Verdict([OldRow(now)], "", None, now, p).Refused? && Verdict(kept, "", None, now, p).Allowed?
  {
    var r := OldRow(now);
    assert [r][..0] == [];
    assert Purged([r], now - PURGE_AGE) == [];
    assert TimesOf([r], r.email) == [r.at];
    assert forall scope, since :: since > r.at ==> CountSince([r], scope, since) == 0;
  }

  /** The same run without any purge. */
  function RunUnpurged(p: Policy, hash: Hash, lower: string -> string, run: seq<Timed>): Store {
    if run == [] then EMPTY
    else
      var last := run[|run| - 1];
      var s := RunUnpurged(p, hash, lower, run[..|run| - 1]);
      Next(p, hash, lower, s.(lastPurgeAt := last.now), last.event, last.now)
  }

  /** What each request of a run was answered. */
  function Answers(p: Policy, hash: Hash, lower: string -> string, run: seq<Timed>, purging: bool): seq<SendVerdict> {
    if run == [] then []
    else
      var init, last := run[..|run| - 1], run[|run| - 1];
      var s := if purging then Run(p, hash, lower, init)
               else RunUnpurged(p, hash, lower, init).(lastPurgeAt := last.now);
      Answers(p, hash, lower, init, purging)
      + if last.event.Request? then [RequestCode(p, hash, s, last.event, last.now).1] else []
  }

  lemma SameRecentLater(a: seq<Row>, b: seq<Row>, before: int, now: int)
    requires SameRecent(a, b, before) && before <= now
    ensures SameRecent(a, b, now)
  {}

  lemma SameRecentPurged(a: seq<Row>, b: seq<Row>, now: int)
    requires SameRecent(a, b, now)
    ensures SameRecent(Purged(a, now - PURGE_AGE), b, now)
  {
    PurgeIsRecent(a, now, now);
    var c := Purged(a, now - PURGE_AGE);
    forall scope, lo | lo >= now - PURGE_AGE
      ensures CountSince(c, scope, lo) == CountSince(b, scope, lo)
    {
      assert CountSince(c, scope, lo) == CountSince(a, scope, lo);
    }
    forall email
      ensures SameLast(TimesOf(c, email), TimesOf(b, email), now)
    {
      assert SameLast(TimesOf(c, email), TimesOf(a, email), now) && SameLast(TimesOf(a, email), TimesOf(b, email), now);
    }
  }

  lemma SameRecentSnoc(a: seq<Row>, b: seq<Row>, r: Row, q: Row, now: int)
    requires SameRecent(a, b, now) && r.email == q.email && r.status == q.status && r.ip == q.ip && r.at == q.at == now
    ensures SameRecent(a + [r], b + [q], now)
  {
    forall scope, lo | lo >= now - PURGE_AGE
      ensures CountSince(a + [r], scope, lo) == CountSince(b + [q], scope, lo)
    {
      CountSnoc(a, r, scope, lo);
      CountSnoc(b, q, scope, lo);
    }
    forall email
      ensures SameLast(TimesOf(a + [r], email), TimesOf(b + [q], email), now)
    {
      TimesSnoc(a, r, email);
      TimesSnoc(b, q, email);
      assert SameLast(TimesOf(a, email), TimesOf(b, email), now);
    }
  }

  lemma {:induction false} TimesUpdated(rows: seq<Row>, i: nat, r: Row, email: string)
    requires i < |rows| && SameEvent(rows[i], r)
    ensures TimesOf(rows[i := r], email) == TimesOf(rows, email)
  {
    var n := |rows| - 1;
    if i < n {
      assert rows[i := r][..n] == rows[..n][i := r];
      TimesUpdated(rows[..n], i, r, email);
    } else {
      assert rows[i := r][..n] == rows[..n];
    }
  }

  /** A verification leaves everything the guard counts alone. */
  lemma VerifyKeepsEvents(p: Policy, hash: Hash, lower: string -> string, s: Store, e: Event, now: int)
    requires e.Verify?
    ensures var d := Next(p, hash, lower, s, e, now);
            && (forall scope, lo :: CountSince(d.rows, scope, lo) == CountSince(s.rows, scope, lo))
            && (forall email :: TimesOf(d.rows, email) == TimesOf(s.rows, email))
  {
    var d := Next(p, hash, lower, s, e, now);
    if d.rows != s.rows {
      assert e.pick < |s.rows| && d.rows == s.rows[e.pick := d.rows[e.pick]];
      forall scope, lo
        ensures CountSince(d.rows, scope, lo) == CountSince(s.rows, scope, lo)
      {
        CountUpdated(s.rows, e.pick, d.rows[e.pick], scope, lo);
      }
      forall email
        ensures TimesOf(d.rows, email) == TimesOf(s.rows, email)
      {
        TimesUpdated(s.rows, e.pick, d.rows[e.pick], email);
      }
    }
  }

  /** One request, with and without the purge before it. */
  lemma RequestsAgree(p: Policy, hash: Hash, s: Store, u: Store, e: Event, now: int)
    requires PurgeSafe(p, now) && e.Request? && SameRecent(s.rows, u.rows, now) && u.lastPurgeAt == now
    ensures RequestCode(p, hash, s, e, now).1 == RequestCode(p, hash, u, e, now).1
    ensures SameRecent(RequestCode(p, hash, s, e, now).0.rows, RequestCode(p, hash, u, e, now).0.rows, now)
  {
    var t := MaybePurge(s, now, e.purgeWorks);
    SameRecentPurged(s.rows, u.rows, now);
    assert SameRecent(t.rows, u.rows, now);
    VerdictSeesRecent(t.rows, u.rows, e.email, e.ip, now, p);
    var a, b := RequestCode(p, hash, s, e, now).0.rows, RequestCode(p, hash, u, e, now).0.rows;
    SameRecentSnoc(t.rows, u.rows, a[|t.rows|], b[|u.rows|], now);
  }

  /** In every run, purging whenever the code does it gives every request the answer of never purging. */
  lemma {:induction false} PurgingRunsAgree(p: Policy, hash: Hash, lower: string -> string, run: seq<Timed>)
    requires Monotone(run) && forall i :: 0 <= i < |run| ==> PurgeSafe(p, run[i].now)
    ensures Answers(p, hash, lower, run, true) == Answers(p, hash, lower, run, false)
    ensures run != [] ==>
            SameRecent(Run(p, hash, lower, run).rows, RunUnpurged(p, hash, lower, run).rows, run[|run| - 1].now)
  {
    if run != [] {
      var init, last := run[..|run| - 1], run[|run| - 1];
      PurgingRunsAgree(p, hash, lower, init);
      var s, u := Run(p, hash, lower, init), RunUnpurged(p, hash, lower, init).(lastPurgeAt := last.now);
      assert SameRecent(s.rows, u.rows, last.now) by {
        if init != [] { SameRecentLater(s.rows, u.rows, init[|init| - 1].now, last.now); }
      }
      if last.event.Request? {
        RequestsAgree(p, hash, s, u, last.event, last.now);
      } else {
        VerifyAgree(p, hash, lower, s, u, last.event, last.now);
      }
    }
  }

  lemma {:induction false} VerifyAgree(p: Policy, hash: Hash, lower: string -> string, s: Store, u: Store, e: Event,
                                       now: int)
    requires e.Verify? && SameRecent(s.rows, u.rows, now)
    ensures SameRecent(Next(p, hash, lower, s, e, now).rows, Next(p, hash, lower, u, e, now).rows, now)
  {
    VerifyKeepsEvents(p, hash, lower, s, e, now);
    VerifyKeepsEvents(p, hash, lower, u, e, now);
    var a, b := Next(p, hash, lower, s, e, now).rows, Next(p, hash, lower, u, e, now).rows;
    forall scope, lo | lo >= now - PURGE_AGE
      ensures CountSince(a, scope, lo) == CountSince(b, scope, lo)
    {
      assert CountSince(s.rows, scope, lo) == CountSince(u.rows, scope, lo);
    }
    forall email
      ensures SameLast(TimesOf(a, email), TimesOf(b, email), now)
    {
      assert SameLast(TimesOf(s.rows, email), TimesOf(u.rows, email), now);
    }
  }

  // ----- the object

  class EmailCodes {
    const policy: Policy
    var rows: seq<Row>
    var lastPurgeAt: int
    var nextId: nat
    ghost var log: seq<Row>
    ghost var wrong: seq<nat>
    ghost var accepted: seq<Use>

    ghost function Model(): Store
      reads this
    {
      Store(rows, lastPurgeAt, nextId, log, wrong, accepted)
    }

    constructor (policy: Policy)
      ensures this.policy == policy && Model() == EMPTY
    {
      this.policy := policy;
      rows, lastPurgeAt, nextId, log, wrong, accepted := [], 0, 0, [], [], [];
    }

    method RecordEmailCode(email: string, status: Status, ip: Option<string>, username: string,
                           codeHash: Option<string>, at: int, expiresAt: Option<int>)
      modifies `rows, `nextId, `log
      ensures Model() == Recorded(old(Model()), email, status, ip, username, codeHash, at, expiresAt)
    {
      var row := Row(nextId, email, status, ip, Some(username), codeHash, at, expiresAt, 0, None);
      rows, log, nextId := rows + [row], log + [row], nextId + 1;
    }

    /** `UPDATE … WHERE id = ? AND consumed_at IS NULL`, of the row at `pick`. */
    method BumpAttempts(pick: nat, consume: bool, now: int) returns (changed: bool)
      requires pick < |rows|
      modifies `rows, `wrong
      ensures changed == old(rows)[pick].consumedAt.None?
      ensures Model() == if changed then Bumped(old(Model()), pick, consume, now) else old(Model())
    {
      var r := rows[pick];
      if r.consumedAt.Some? { return false; }
      rows := rows[pick := r.(attempts := r.attempts + 1, consumedAt := if consume then Some(now) else None)];
      wrong := wrong + [r.id];
      changed := true;
    }

    method Consume(pick: nat, now: int) returns (changed: bool)
      requires pick < |rows|
      modifies `rows, `accepted
      ensures changed == old(rows)[pick].consumedAt.None?
      ensures Model() == if changed then Consumed(old(Model()), pick, now) else old(Model())
    {
      var r := rows[pick];
      if r.consumedAt.Some? { return false; }
      rows := rows[pick := r.(consumedAt := Some(now))];
      accepted := accepted + [Use(r.id, now, r.expiresAt, r.attempts)];
      changed := true;
    }

    method PurgeIfDue(now: int, works: bool)
      modifies `rows, `lastPurgeAt
      ensures Model() == MaybePurge(old(Model()), now, works)
    {
      if now - lastPurgeAt < PURGE_INTERVAL { return; }
      lastPurgeAt := now;
      if works { rows := Purged(rows, now - PURGE_AGE); }
    }

    method RequestRegisterCode(hash: Hash, email: string, ip: Option<string>, username: string, code: string,
                               mailOk: bool, purgeWorks: bool, now: int) returns (verdict: SendVerdict)
      modifies this
      ensures (Model(), verdict)
              == RequestCode(policy, hash, old(Model()), Request(email, ip, username, code, mailOk, purgeWorks), now)
    {
      PurgeIfDue(now, purgeWorks);
      var hour, day := EmailCodeCounts(rows, email, ip, now - HOUR), EmailCodeCounts(rows, email, ip, now - DAY);
      verdict := EvaluateSendGuard(hour, day, now, policy);
      if verdict.Refused? {
        RecordEmailCode(email, Throttled, ip, username, None, now, None);
        return;
      }
      if !mailOk {
        RecordEmailCode(email, Failed, ip, username, None, now, None);
        return;
      }
      RecordEmailCode(email, Sent, ip, username, Some(hash(email, code)), now, Some(now + policy.codeTtl));
    }

    /** `pick` is the row the latest-code query returned, past the end if there was none. */
    method ConsumeRegisterCode(hash: Hash, lower: string -> string, email: string, username: string, code: string,
                               pick: nat, now: int)
      returns (outcome: ConsumeOutcome)
      modifies `rows, `wrong, `accepted
      ensures (Model(), outcome)
              == ConsumeCode(policy, hash, lower, old(Model()), Verify(email, username, code, pick), now)
    {
      if !WellFormedCode(code) { return Rejected("code_invalid"); }
      if !(pick < |rows|) || !IsLatestSent(rows, email, pick) { return Rejected("code_missing"); }
      var row := rows[pick];
      var pre := EvaluateVerifyGuard(Some(row), now, policy);
      if pre.Missing? { return Rejected("code_missing"); }
      if pre.Used? { return Rejected("code_used"); }
      if pre.TooManyAttempts? { return Rejected("code_attempts_exceeded"); }
      if pre.Expired? { return Rejected("code_expired"); }
      if row.username.Some? && lower(row.username.value) != lower(username) {
        return Rejected("code_username_mismatch");
      }
      if row.codeHash != Some(hash(email, code)) {
        var consume := row.attempts + 1 >= policy.maxAttempts;
        var _ := BumpAttempts(pick, consume, now);
        return Rejected(if consume then "code_attempts_exceeded" else "code_invalid");
      }
      var used := Consume(pick, now);
      if !used { return Rejected("code_used"); }
      outcome := Accepted;
    }
  }
}
