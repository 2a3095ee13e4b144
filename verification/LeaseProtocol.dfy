/**
 Any number of managers competing for the ownership rows. A call is three steps that may
 be interleaved with anything: the manager sends a statement (capturing the token it holds),
 the database runs it, the manager receives the answer and updates its lease book.
 */
module LeaseProtocol {
  import opened Basics
  import opened LeaseRows
  import opened InstanceLeases

  type ManagerId = string

  datatype Request = RenewRequest(user: User, token: Token) | ReleaseRequest(user: User, token: Token)

  datatype Reply =
    | Granted(user: User, token: Token)
    | Refused(user: User)
    | Freed(user: User)
    | Seen(user: User, row: Option<Row>)

  datatype Manager = Manager(
    ttl: nat,
    held: map<User, Token>,
    requests: multiset<Request>,
    replies: multiset<Reply>)

  /** One successful claim, as the history records it. */
  datatype Win = Win(manager: ManagerId, token: Token)

  datatype Cluster = Cluster(
    rows: Rows,
    managers: map<ManagerId, Manager>,
    wins: map<User, seq<Win>>)

  datatype Step =
    | ClaimAt(id: ManagerId, user: User, host: Host, now: int, meta: Meta)
    | Send(id: ManagerId, user: User, release: bool)
    | Serve(id: ManagerId, request: Request, now: int)
    | ReadRow(id: ManagerId, user: User)
    | Receive(id: ManagerId, reply: Reply)
    | PinAt(user: User, host: Host, now: int)

  function WinsOf(c: Cluster, user: User): seq<Win> {
    if user in c.wins then c.wins[user] else []
  }

  function WithManager(c: Cluster, id: ManagerId, m: Manager): Cluster {
    c.(managers := c.managers[id := m])
  }

  /** The lease book after an answer arrives. A successful renewal changes nothing. */
  function Received(m: Manager, reply: Reply): Manager {
    var rest := m.(replies := m.replies - multiset{reply});
    match reply
    case Granted(user, token) => rest.(held := m.held[user := token])
    case Refused(user) => rest.(held := m.held - {user})
    case Freed(user) => rest.(held := m.held - {user})
    case Seen(user, row) =>
      if user in m.held && StillHolder(row, m.held[user]) then rest else rest.(held := m.held - {user})
  }

  function Claimed(c: Cluster, id: ManagerId, user: User, host: Host, now: int, meta: Meta): Cluster
    requires id in c.managers
  {
    var m := c.managers[id];
    var answer := ClaimAnswer(c.rows, user, now, m.ttl);
    var after := c.(rows := AfterClaim(c.rows, user, host, now, m.ttl, meta));
    if answer.Busy? then after
    else
      var token := Token(host, answer.epoch);
      WithManager(after.(wins := c.wins[user := WinsOf(c, user) + [Win(id, token)]]), id,
                  m.(replies := m.replies + multiset{Granted(user, token)}))
  }

  /** The manager after the database served one of its requests; `hit` says whether a row changed. */
  function Answered(m: Manager, request: Request, hit: bool): Manager {
    var rest := m.(requests := m.requests - multiset{request});
    if hit == request.RenewRequest? then rest
    else rest.(replies := m.replies + multiset{if hit then Freed(request.user) else Refused(request.user)})
  }

  function RowsServed(rows: Rows, request: Request, now: int, ttl: nat): Rows {
    match request
    case RenewRequest(user, token) => AfterRenew(rows, user, token.host, token.epoch, now, ttl)
    case ReleaseRequest(user, token) => AfterRelease(rows, user, token.host, token.epoch)
  }

  /** One step; a step that is not enabled changes nothing. */
  function Next(c: Cluster, step: Step): Cluster {
    match step
    case ClaimAt(id, user, host, now, meta) =>
      if id in c.managers then Claimed(c, id, user, host, now, meta) else c
    case Send(id, user, release) =>
      if id in c.managers && user in c.managers[id].held then
        var m := c.managers[id];
        var request := if release then ReleaseRequest(user, m.held[user]) else RenewRequest(user, m.held[user]);
        WithManager(c, id, m.(requests := m.requests + multiset{request}))
      else c
    case Serve(id, request, now) =>
      if id in c.managers && request in c.managers[id].requests then
        var m := c.managers[id];
        var hit := TokenMatches(c.rows, request.user, request.token);
        WithManager(c.(rows := RowsServed(c.rows, request, now, m.ttl)), id, Answered(m, request, hit))
      else c
    case ReadRow(id, user) =>
      if id in c.managers then
        var m := c.managers[id];
        var row := if user in c.rows then Some(c.rows[user]) else None;
        WithManager(c, id, m.(replies := m.replies + multiset{Seen(user, row)}))
      else c
    case Receive(id, reply) =>
      if id in c.managers && reply in c.managers[id].replies
      then WithManager(c, id, Received(c.managers[id], reply)) else c
    case PinAt(user, host, now) => c.(rows := AfterPin(c.rows, user, host, now))
  }

  function Run(c: Cluster, steps: seq<Step>): Cluster {
    if steps == [] then c else Next(Run(c, steps[..|steps| - 1]), steps[|steps| - 1])
  }

  /** Empty tables, empty lease books; the rows may already pin hosts but no claim was made. */
  predicate Initial(c: Cluster) {
    && c.wins == map[]
    && (forall user :: user in c.rows ==> c.rows[user].epoch == 0)
    && (forall id :: id in c.managers ==>
          c.managers[id].held == map[] && c.managers[id].requests == multiset{} && c.managers[id].replies == multiset{})
  }

  // ----- what every step keeps

  /** `token` is the grant of a claim that `id` made for `user`. */
  predicate Owns(wins: seq<Win>, id: ManagerId, token: Token) {
    1 <= token.epoch <= |wins| && wins[token.epoch - 1] == Win(id, token)
  }

  /** Every way a manager can know a token for a user: booked, in a request, in an answer. */
  predicate Knows(m: Manager, user: User, token: Token) {
    || (user in m.held && m.held[user] == token)
    || RenewRequest(user, token) in m.requests
    || ReleaseRequest(user, token) in m.requests
    || Granted(user, token) in m.replies
  }

  /** A row's epoch counts its user's claims, and claim number `i` was granted epoch `i + 1`. */
  ghost predicate HistoryInv(c: Cluster) {
    forall user ::
      && Lookup(c.rows, user).epoch == |WinsOf(c, user)|
      && forall i :: 0 <= i < |WinsOf(c, user)| ==> WinsOf(c, user)[i].token.epoch == i + 1
  }

  ghost predicate Inv(c: Cluster) {
    && HistoryInv(c)
    && (forall id, user, token :: id in c.managers && Knows(c.managers[id], user, token) ==>
          Owns(WinsOf(c, user), id, token))
  }

  /** The step is a successful claim that grants `token` to `id`. */
  predicate Grants(c: Cluster, step: Step, id: ManagerId, user: User, token: Token) {
    && step.ClaimAt? && step.id == id && step.user == user && id in c.managers
    && Free(Lookup(c.rows, user), step.now)
    && token == Token(step.host, Lookup(c.rows, user).epoch + 1)
  }

  /** A step leaves a user's history alone, or it is a successful claim and records it. */
  lemma HistoryStep(c: Cluster, step: Step, user: User)
    ensures var d := Next(c, step);
            || (WinsOf(d, user) == WinsOf(c, user) && Lookup(d.rows, user).epoch == Lookup(c.rows, user).epoch)
            || (exists id, token :: Grants(c, step, id, user, token)
                  && WinsOf(d, user) == WinsOf(c, user) + [Win(id, token)]
                  && Lookup(d.rows, user).epoch == token.epoch)
  {
    match step
    case ClaimAt(id, u, host, now, meta) =>
      if u == user && id in c.managers && Free(Lookup(c.rows, u), now) {
        assert Grants(c, step, id, user, Token(host, Lookup(c.rows, user).epoch + 1));
      }
    case _ =>
  }

  lemma NextKeepsHistory(c: Cluster, step: Step)
    requires Inv(c)
    ensures HistoryInv(Next(c, step))
  {
    var d := Next(c, step);
    forall user
      ensures Lookup(d.rows, user).epoch == |WinsOf(d, user)|
      ensures forall i :: 0 <= i < |WinsOf(d, user)| ==> WinsOf(d, user)[i].token.epoch == i + 1
    {
      HistoryStep(c, step, user);
    }
  }

  lemma {:induction false} NextKeepsInv(c: Cluster, step: Step)
    requires Inv(c)
    ensures Inv(Next(c, step))
  {
    NextKeepsHistory(c, step);
    var d := Next(c, step);
    forall id, user, token | id in d.managers && Knows(d.managers[id], user, token)
      ensures Owns(WinsOf(d, user), id, token)
    {
      KnowledgeIsOld(c, step, id, user, token);
      HistoryStep(c, step, user);
    }
  }

  lemma AnswerKnows(m: Manager, reply: Reply, user: User, token: Token)
    requires Knows(m.(replies := m.replies + multiset{reply}), user, token)
    ensures Knows(m, user, token) || reply == Granted(user, token)
  {}

  lemma SendKnows(m: Manager, booked: User, release: bool, user: User, token: Token)
    requires booked in m.held
    requires Knows(m.(requests := m.requests + multiset{
               if release then ReleaseRequest(booked, m.held[booked])
                 else RenewRequest(booked, m.held[booked])}), user, token)
    ensures Knows(m, user, token)
  {}

  lemma ServeKnows(m: Manager, request: Request, hit: bool, user: User, token: Token)
    requires Knows(Answered(m, request, hit), user, token)
    ensures Knows(m, user, token)
  {}

  lemma ReceiveKnows(m: Manager, reply: Reply, user: User, token: Token)
    requires reply in m.replies && Knows(Received(m, reply), user, token)
    ensures Knows(m, user, token)
  {
    assert forall r :: r in (m.replies - multiset{reply}) ==> r in m.replies;
  }

  lemma ClaimedKnows(c: Cluster, i: ManagerId, u: User, host: Host, now: int, meta: Meta, id: ManagerId, user: User,
                     token: Token)
    requires i in c.managers
    requires var d := Claimed(c, i, u, host, now, meta); id in d.managers && Knows(d.managers[id], user, token)
    ensures id in c.managers
    ensures Knows(c.managers[id], user, token) || Grants(c, ClaimAt(i, u, host, now, meta), id, user, token)
  {
    if i == id && Free(Lookup(c.rows, u), now) {
      AnswerKnows(c.managers[id], Granted(u, Token(host, Lookup(c.rows, u).epoch + 1)), user, token);
    }
  }

  /** A token a manager knows after a step it knew before, or the step just granted it. */
  lemma {:induction false} KnowledgeIsOld(c: Cluster, step: Step, id: ManagerId, user: User, token: Token)
    requires id in Next(c, step).managers && Knows(Next(c, step).managers[id], user, token)
    ensures id in c.managers
    ensures Knows(c.managers[id], user, token) || Grants(c, step, id, user, token)
  {
    match step
    case ClaimAt(i, u, host, now, meta) =>
      if i in c.managers { ClaimedKnows(c, i, u, host, now, meta, id, user, token); }
    case Send(i, u, release) =>
      if i == id && i in c.managers && u in c.managers[i].held {
        SendKnows(c.managers[id], u, release, user, token);
      }
    case Serve(i, request, now) =>
      if i == id && i in c.managers && request in c.managers[i].requests {
        ServeKnows(c.managers[id], request, TokenMatches(c.rows, request.user, request.token), user, token);
      }
    case ReadRow(i, u) =>
      if i == id && i in c.managers {
        AnswerKnows(c.managers[id], Seen(u, if u in c.rows then Some(c.rows[u]) else None), user, token);
      }
    case Receive(i, reply) =>
      if i == id && i in c.managers && reply in c.managers[i].replies {
        ReceiveKnows(c.managers[id], reply, user, token);
      }
    case PinAt(_, _, _) =>
  }

  lemma {:induction false} RunKeepsInv(c: Cluster, steps: seq<Step>)
    requires Initial(c)
    ensures Inv(Run(c, steps))
  {
    if steps != [] {
      RunKeepsInv(c, steps[..|steps| - 1]);
      NextKeepsInv(Run(c, steps[..|steps| - 1]), steps[|steps| - 1]);
    }
  }

  // ----- single writer

  /** In every reachable state at most one manager knows a token that matches a user's row. */
  lemma AtMostOneWriter(c: Cluster, steps: seq<Step>, user: User,
                        a: ManagerId, s: Token, b: ManagerId, t: Token)
    requires Initial(c)
    requires var d := Run(c, steps);
             && a in d.managers && Knows(d.managers[a], user, s) && TokenMatches(d.rows, user, s)
             && b in d.managers && Knows(d.managers[b], user, t) && TokenMatches(d.rows, user, t)
    ensures a == b && s == t
  {
    RunKeepsInv(c, steps);
    OneWriter(Run(c, steps), user, a, s, b, t);
  }

  lemma OneWriter(d: Cluster, user: User, a: ManagerId, s: Token, b: ManagerId, t: Token)
    requires Inv(d) && a in d.managers && b in d.managers
    requires Knows(d.managers[a], user, s) && TokenMatches(d.rows, user, s)
    requires Knows(d.managers[b], user, t) && TokenMatches(d.rows, user, t)
    ensures a == b && s == t
  {
    MatchingTokenIsLatest(d, user, a, s);
    MatchingTokenIsLatest(d, user, b, t);
  }

  lemma MatchingTokenIsLatest(d: Cluster, user: User, id: ManagerId, token: Token)
    requires Inv(d) && id in d.managers && Knows(d.managers[id], user, token) && TokenMatches(d.rows, user, token)
    ensures var wins := WinsOf(d, user); wins != [] && wins[|wins| - 1] == Win(id, token)
  {
    assert Owns(WinsOf(d, user), id, token);
    assert Lookup(d.rows, user).epoch == token.epoch;
  }

  /**
   A renewal or release that changes a row comes from the manager whose claim is the row's
   latest, and it changes neither the row's host nor its epoch, nor any other row.
   */
  lemma {:induction false} OnlyLatestWinnerServes(c: Cluster, steps: seq<Step>, id: ManagerId, request: Request,
                                                  now: int)
    requires Initial(c)
    requires Next(Run(c, steps), Serve(id, request, now)).rows != Run(c, steps).rows
    ensures var wins := WinsOf(Run(c, steps), request.user);
            wins != [] && wins[|wins| - 1] == Win(id, request.token)
    ensures OnlyLeaseChanged(Run(c, steps).rows, Next(Run(c, steps), Serve(id, request, now)).rows, request)
  {
    RunKeepsInv(c, steps);
    ServeNeedsLatest(Run(c, steps), id, request, now);
  }

  ghost predicate OnlyLeaseChanged(before: Rows, after: Rows, request: Request) {
    && Lookup(after, request.user).host == Lookup(before, request.user).host == Some(request.token.host)
    && Lookup(after, request.user).epoch == Lookup(before, request.user).epoch == request.token.epoch
    && forall other :: other != request.user ==> Lookup(after, other) == Lookup(before, other)
  }

  lemma ServeNeedsLatest(c: Cluster, id: ManagerId, request: Request, now: int)
    requires Inv(c)
    requires Next(c, Serve(id, request, now)).rows != c.rows
    ensures var wins := WinsOf(c, request.user); wins != [] && wins[|wins| - 1] == Win(id, request.token)
    ensures OnlyLeaseChanged(c.rows, Next(c, Serve(id, request, now)).rows, request)
  {
    assert id in c.managers && request in c.managers[id].requests;
    assert TokenMatches(c.rows, request.user, request.token);
    assert Knows(c.managers[id], request.user, request.token);
    assert Owns(WinsOf(c, request.user), id, request.token);
  }

  // ----- fencing tokens

  lemma {:induction false} WinsOnlyGrow(c: Cluster, steps: seq<Step>, n: nat, user: User)
    requires n <= |steps|
    ensures WinsOf(Run(c, steps[..n]), user) <= WinsOf(Run(c, steps), user)
  {
    if n == |steps| {
      assert steps[..n] == steps;
    } else {
      var shorter := steps[..|steps| - 1];
      assert shorter[..n] == steps[..n];
      WinsOnlyGrow(c, shorter, n, user);
    }
  }

  /** Claim number `i` of the run, if it is one that succeeded for `user`. */
  predicate WinsAt(c: Cluster, steps: seq<Step>, i: nat, user: User) {
    && i < |steps| && steps[i].ClaimAt? && steps[i].user == user
    && steps[i].id in Run(c, steps[..i]).managers
    && ClaimAnswer(Run(c, steps[..i]).rows, user, steps[i].now, Run(c, steps[..i]).managers[steps[i].id].ttl).Claimed?
  }

  function EpochAt(c: Cluster, steps: seq<Step>, i: nat, user: User): nat
    requires WinsAt(c, steps, i, user)
  {
    ClaimAnswer(Run(c, steps[..i]).rows, user, steps[i].now, Run(c, steps[..i]).managers[steps[i].id].ttl).epoch
  }

  /** Every successful claim gets a strictly larger epoch than all earlier ones of that user. */
  lemma ClaimEpochsIncrease(c: Cluster, steps: seq<Step>, i: nat, j: nat, user: User)
    requires Initial(c) && i < j
    requires WinsAt(c, steps, i, user) && WinsAt(c, steps, j, user)
    ensures EpochAt(c, steps, i, user) < EpochAt(c, steps, j, user)
  {
    RunKeepsInv(c, steps[..i]);
    RunKeepsInv(c, steps[..j]);
    assert steps[..i + 1][..i] == steps[..i] && steps[..j][..i + 1] == steps[..i + 1];
    WinsOnlyGrow(c, steps[..j], i + 1, user);
  }

  /**
   Fencing is permanent: once a user's row has a larger epoch than a token, no later state
   of any run lets that token through again.
   */
  lemma {:induction false} FencedForever(c: Cluster, steps: seq<Step>, n: nat, user: User, token: Token)
    requires Initial(c) && n <= |steps|
    requires token.epoch < Lookup(Run(c, steps[..n]).rows, user).epoch
    ensures !TokenMatches(Run(c, steps).rows, user, token)
  {
    RunKeepsInv(c, steps[..n]);
    RunKeepsInv(c, steps);
    WinsOnlyGrow(c, steps, n, user);
  }

  lemma RunSnoc(c: Cluster, steps: seq<Step>, step: Step)
    ensures Run(c, steps + [step]) == Next(Run(c, steps), step)
  {
    assert (steps + [step])[..|steps + [step]| - 1] == steps;
  }

  /** The token never matches the row again, whatever follows. */
  ghost predicate Fenced(c: Cluster, steps: seq<Step>, user: User, token: Token) {
    forall more :: !TokenMatches(Run(c, steps + more).rows, user, token)
  }

  /** A token of the row's epoch is revived by pinning the user to its host once the lease has run out. */
  lemma PinRevives(c: Cluster, steps: seq<Step>, user: User, token: Token) returns (more: seq<Step>)
    requires user in Run(c, steps).rows && Run(c, steps).rows[user].epoch == token.epoch
    ensures more == [PinAt(user, token.host, Run(c, steps).rows[user].leaseUntil + 1)]
    ensures TokenMatches(Run(c, steps + more).rows, user, token)
  {
    var pin := PinAt(user, token.host, Run(c, steps).rows[user].leaseUntil + 1);
    more := [pin];
    RunSnoc(c, steps, pin);
  }

  /**
   Fencing is exactly the epoch: after any run a token that some claim granted is shut out for good
   if and only if the row's epoch is larger. A host changed by a pin shuts it out only until a pin
   changes it back.
   */
  lemma FencedExactly(c: Cluster, steps: seq<Step>, id: ManagerId, user: User, token: Token)
    requires Initial(c) && Owns(WinsOf(Run(c, steps), user), id, token)
    ensures Fenced(c, steps, user, token) <==> token.epoch < Lookup(Run(c, steps).rows, user).epoch
  {
    RunKeepsInv(c, steps);
    if token.epoch < Lookup(Run(c, steps).rows, user).epoch {
      forall more ensures !TokenMatches(Run(c, steps + more).rows, user, token) {
        assert (steps + more)[..|steps|] == steps;
        FencedForever(c, steps + more, |steps|, user, token);
      }
    } else {
      var more := PinRevives(c, steps, user, token);
    }
  }

  /** In particular for every token a manager knows, booked or in flight. */
  lemma KnownTokenFencedExactly(c: Cluster, steps: seq<Step>, id: ManagerId, user: User, token: Token)
    requires Initial(c) && id in Run(c, steps).managers && Knows(Run(c, steps).managers[id], user, token)
    ensures Fenced(c, steps, user, token) <==> token.epoch < Lookup(Run(c, steps).rows, user).epoch
  {
    RunKeepsInv(c, steps);
    FencedExactly(c, steps, id, user, token);
  }

  const ONE_MANAGER := Cluster(map[], map["m" := Manager(10, map[], multiset{}, multiset{})], map[])
  const CLAIM_AND_PIN := [ClaimAt("m", "u", "A", 0, Meta(None, None))] + [PinAt("u", "B", 100)]

  lemma ClaimTakes()
    ensures var rows := Run(ONE_MANAGER, [ClaimAt("m", "u", "A", 0, Meta(None, None))]).rows;
            "u" in rows && rows["u"].epoch == 1 && Free(rows["u"], 100)
  {
    var claim := ClaimAt("m", "u", "A", 0, Meta(None, None));
    RunSnoc(ONE_MANAGER, [], claim);
    assert [] + [claim] == [claim];
  }

  lemma PinMoves(c: Cluster, user: User, host: Host, now: int)
    requires user in c.rows && Free(c.rows[user], now)
    ensures var rows := Next(c, PinAt(user, host, now)).rows;
            user in rows && rows[user].host == Some(host) && rows[user].epoch == c.rows[user].epoch
  {}

  lemma PinStopsHolder()
    ensures Initial(ONE_MANAGER)
    ensures var rows := Run(ONE_MANAGER, CLAIM_AND_PIN).rows;
            "u" in rows && rows["u"].host == Some("B") && rows["u"].epoch == 1
  {
    var claim := ClaimAt("m", "u", "A", 0, Meta(None, None));
    ClaimTakes();
    RunSnoc(ONE_MANAGER, [claim], PinAt("u", "B", 100));
    PinMoves(Run(ONE_MANAGER, [claim]), "u", "B", 100);
  }

  /** Concretely: pinning the user to another host stops the holder's token, and pinning it back revives it. */
  lemma PinFenceIsNotPermanent()
    ensures exists c, steps, n: nat, token ::
      && Initial(c) && n < |steps|
      && !TokenMatches(Run(c, steps[..n]).rows, "u", token)
      && Lookup(Run(c, steps[..n]).rows, "u").epoch == token.epoch
      && TokenMatches(Run(c, steps).rows, "u", token)
  {
    PinStopsHolder();
    var c, token := ONE_MANAGER, Token("A", 1);
    var more := PinRevives(c, CLAIM_AND_PIN, "u", token);
    var steps := CLAIM_AND_PIN + more;
    assert steps[..2] == CLAIM_AND_PIN && 2 < |steps|;
    assert !TokenMatches(Run(c, steps[..2]).rows, "u", token);
  }

  /** A user's host changes only by a claim that succeeds or a pin that finds the row free. */
  lemma HostChangesOnlyByClaimOrPin(c: Cluster, step: Step, user: User)
    requires Lookup(Next(c, step).rows, user).host != Lookup(c.rows, user).host
    ensures step.ClaimAt? || step.PinAt?
    ensures step.user == user && Free(Lookup(c.rows, user), step.now)
    ensures Lookup(Next(c, step).rows, user).host == Some(step.host)
  {}
}
