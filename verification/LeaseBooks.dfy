/**
 What a manager believes about its leases, by what happened: its book is told by the answers it received,
 and every answer and every request is accounted for from the step that sent it to the step that took it.
 */
module LeaseBooks {
  import opened Basics
  import opened LeaseRows
  import opened InstanceLeases
  import opened LeaseProtocol
  import opened LeaseHistory

  // ----- the book

  /** The manager takes up an answer that was on its way to it. */
  predicate Takes(c: Cluster, step: Step, id: ManagerId, reply: Reply) {
    step.Receive? && step.id == id && step.reply == reply && id in c.managers && reply in c.managers[id].replies
  }

  /** What the book says after an answer about the user, by what it said before. */
  function Learns(before: Option<Token>, reply: Reply): Option<Token> {
    match reply
    case Granted(_, token) => Some(token)
    case Refused(_) => None
    case Freed(_) => None
    case Seen(_, row) =>
      if before == None || row == None then None
      else if row.value.host == Some(before.value.host) && row.value.epoch == before.value.epoch then before
      else None
  }

  function Booked(c: Cluster, steps: seq<Step>, id: ManagerId, user: User): Option<Token> {
    if steps == [] then None
    else
      var init, last := steps[..|steps| - 1], steps[|steps| - 1];
      if last.Receive? && last.reply.user == user && Takes(Run(c, init), last, id, last.reply)
      then Learns(Booked(c, init, id, user), last.reply)
      else Booked(c, init, id, user)
  }

  function Held(c: Cluster, id: ManagerId, user: User): Option<Token> {
    if id in c.managers && user in c.managers[id].held then Some(c.managers[id].held[user]) else None
  }

  lemma HeldStep(c: Cluster, step: Step, id: ManagerId, user: User)
    ensures Held(Next(c, step), id, user)
            == if step.Receive? && step.reply.user == user && Takes(c, step, id, step.reply)
               then Learns(Held(c, id, user), step.reply) else Held(c, id, user)
  {}

  /**
   In every run a manager holds a user exactly by the last answers it received: a grant books it, a refused
   renewal, a release that took effect and a reread row that carries another host or epoch drop it.
   */
  lemma {:induction false} BookIsHistory(c: Cluster, steps: seq<Step>, id: ManagerId, user: User)
    requires Initial(c)
    ensures Held(Run(c, steps), id, user) == Booked(c, steps, id, user)
  {
    if steps != [] {
      BookIsHistory(c, steps[..|steps| - 1], id, user);
      HeldStep(Run(c, steps[..|steps| - 1]), steps[|steps| - 1], id, user);
    }
  }

  // ----- the mail

  /** The manager sends a request about a user it has booked, with the token it has booked. */
  predicate Posts(c: Cluster, step: Step, id: ManagerId, request: Request) {
    && step.Send? && step.id == id && id in c.managers && step.user == request.user
    && Held(c, id, request.user) == Some(request.token) && step.release == request.ReleaseRequest?
  }

  predicate IsServed(c: Cluster, step: Step, id: ManagerId, request: Request) {
    step.Serve? && step.id == id && step.request == request && id in c.managers && request in c.managers[id].requests
  }

  /** The step has this answer for the manager: only a claim that won, a renewal that failed, a release that took
      effect and a row that was read are reported. */
  predicate Tells(c: Cluster, step: Step, id: ManagerId, reply: Reply) {
    match reply
    case Granted(user, token) =>
      && Wins(c, step, user) && step.id == id && id in c.managers
      && token == Token(step.host, |WinsOf(c, user)| + 1)
    case Refused(user) =>
      && step.Serve? && step.request.user == user && step.request.RenewRequest?
      && IsServed(c, step, id, step.request) && !Renews(c, step, user)
    case Freed(user) => Releases(c, step, user) && step.id == id
    case Seen(user, row) =>
      && step.ReadRow? && step.id == id && step.user == user && id in c.managers
      && row == if user in c.rows then Some(c.rows[user]) else None
  }

  function PostCount(c: Cluster, steps: seq<Step>, id: ManagerId, request: Request): nat {
    if steps == [] then 0
    else
      PostCount(c, steps[..|steps| - 1], id, request)
      + if Posts(Run(c, steps[..|steps| - 1]), steps[|steps| - 1], id, request) then 1 else 0
  }

  function ServedCount(c: Cluster, steps: seq<Step>, id: ManagerId, request: Request): nat {
    if steps == [] then 0
    else
      ServedCount(c, steps[..|steps| - 1], id, request)
      + if IsServed(Run(c, steps[..|steps| - 1]), steps[|steps| - 1], id, request) then 1 else 0
  }

  function ToldCount(c: Cluster, steps: seq<Step>, id: ManagerId, reply: Reply): nat {
    if steps == [] then 0
    else
      ToldCount(c, steps[..|steps| - 1], id, reply)
      + if Tells(Run(c, steps[..|steps| - 1]), steps[|steps| - 1], id, reply) then 1 else 0
  }

  function TakenCount(c: Cluster, steps: seq<Step>, id: ManagerId, reply: Reply): nat {
    if steps == [] then 0
    else
      TakenCount(c, steps[..|steps| - 1], id, reply)
      + if Takes(Run(c, steps[..|steps| - 1]), steps[|steps| - 1], id, reply) then 1 else 0
  }

  function RequestsOf(c: Cluster, id: ManagerId): multiset<Request> {
    if id in c.managers then c.managers[id].requests else multiset{}
  }

  function RepliesOf(c: Cluster, id: ManagerId): multiset<Reply> {
    if id in c.managers then c.managers[id].replies else multiset{}
  }

  lemma WinsExactly(c: Cluster, id: ManagerId, user: User, host: Host, now: int, meta: Meta)
    requires id in c.managers
    ensures Wins(c, ClaimAt(id, user, host, now, meta), user) <==> Free(Lookup(c.rows, user), now)
  {
    if Free(Lookup(c.rows, user), now) {
      assert |WinsOf(Next(c, ClaimAt(id, user, host, now, meta)), user)| == |WinsOf(c, user)| + 1;
    }
  }

  /** The balance of one kind of request after a step. */
  ghost predicate RequestsBalance(c: Cluster, step: Step, id: ManagerId, request: Request) {
    RequestsOf(Next(c, step), id)[request] + (if IsServed(c, step, id, request) then 1 else 0)
    == RequestsOf(c, id)[request] + if Posts(c, step, id, request) then 1 else 0
  }

  ghost predicate RepliesBalance(c: Cluster, step: Step, id: ManagerId, reply: Reply) {
    RepliesOf(Next(c, step), id)[reply] + (if Takes(c, step, id, reply) then 1 else 0)
    == RepliesOf(c, id)[reply] + if Tells(c, step, id, reply) then 1 else 0
  }

  lemma ClaimBalances(c: Cluster, step: Step, id: ManagerId, request: Request, reply: Reply)
    requires step.ClaimAt? && HistoryInv(c)
    ensures RequestsBalance(c, step, id, request) && RepliesBalance(c, step, id, reply)
  {
    if step.id in c.managers {
      WinsExactly(c, step.id, step.user, step.host, step.now, step.meta);
    }
  }

  lemma SendBalances(c: Cluster, step: Step, id: ManagerId, request: Request, reply: Reply)
    requires step.Send?
    ensures RequestsBalance(c, step, id, request) && RepliesBalance(c, step, id, reply)
  {}

  lemma AnswerCounts(m: Manager, served: Request, hit: bool, request: Request, reply: Reply)
    requires served in m.requests
    ensures var d := Answered(m, served, hit);
            && d.requests[request] + (if request == served then 1 else 0) == m.requests[request]
            && d.replies[reply] == m.replies[reply]
                                   + if (served.RenewRequest? && !hit && reply == Refused(served.user))
                                        || (served.ReleaseRequest? && hit && reply == Freed(served.user)) then 1 else 0
  {}

  lemma ServeTells(c: Cluster, step: Step, id: ManagerId, reply: Reply)
    requires step.Serve? && IsServed(c, step, id, step.request)
    ensures Tells(c, step, id, reply)
            <==> var hit := TokenMatches(c.rows, step.request.user, step.request.token);
                 || (step.request.RenewRequest? && !hit && reply == Refused(step.request.user))
                 || (step.request.ReleaseRequest? && hit && reply == Freed(step.request.user))
  {
    if reply.Seen? {
      assert !Tells(c, step, id, reply);
    }
  }

  lemma {:induction false} ServeBalances(c: Cluster, step: Step, id: ManagerId, request: Request, reply: Reply)
    requires step.Serve?
    ensures RequestsBalance(c, step, id, request) && RepliesBalance(c, step, id, reply)
  {
    if !IsServed(c, step, step.id, step.request) {
      assert Next(c, step) == c;
    } else if id == step.id {
      OwnServeBalances(c, step, request, reply);
    } else {
      ServedManagers(c, step);
    }
  }

  lemma OwnServeBalances(c: Cluster, step: Step, request: Request, reply: Reply)
    requires step.Serve? && IsServed(c, step, step.id, step.request)
    ensures RequestsBalance(c, step, step.id, request) && RepliesBalance(c, step, step.id, reply)
  {
    var m := c.managers[step.id];
    var hit := TokenMatches(c.rows, step.request.user, step.request.token);
    AnswerCounts(m, step.request, hit, request, reply);
    ServeTells(c, step, step.id, reply);
    ServedManagers(c, step);
    assert RequestsOf(Next(c, step), step.id) == Answered(m, step.request, hit).requests;
    assert RepliesOf(Next(c, step), step.id) == Answered(m, step.request, hit).replies;
  }

  lemma ServedManagers(c: Cluster, step: Step)
    requires step.Serve? && IsServed(c, step, step.id, step.request)
    ensures var m := c.managers[step.id];
            var hit := TokenMatches(c.rows, step.request.user, step.request.token);
            Next(c, step).managers == c.managers[step.id := Answered(m, step.request, hit)]
  {}

  lemma ReadBalances(c: Cluster, step: Step, id: ManagerId, request: Request, reply: Reply)
    requires step.ReadRow?
    ensures RequestsBalance(c, step, id, request) && RepliesBalance(c, step, id, reply)
  {}

  lemma ReceiveBalances(c: Cluster, step: Step, id: ManagerId, request: Request, reply: Reply)
    requires step.Receive?
    ensures RequestsBalance(c, step, id, request) && RepliesBalance(c, step, id, reply)
  {
    if Takes(c, step, step.id, step.reply) {
      ReceivedCounts(c.managers[step.id], step.reply, reply);
      ReceivedManagers(c, step);
    }
  }

  lemma ReceivedCounts(m: Manager, taken: Reply, reply: Reply)
    requires taken in m.replies
    ensures var d := Received(m, taken);
            d.replies[reply] + (if reply == taken then 1 else 0) == m.replies[reply] && d.requests == m.requests
  {}

  lemma ReceivedManagers(c: Cluster, step: Step)
    requires step.Receive? && Takes(c, step, step.id, step.reply)
    ensures Next(c, step).managers == c.managers[step.id := Received(c.managers[step.id], step.reply)]
  {}

  lemma {:induction false} StepBalances(c: Cluster, step: Step, id: ManagerId, request: Request, reply: Reply)
    requires HistoryInv(c)
    ensures RequestsBalance(c, step, id, request) && RepliesBalance(c, step, id, reply)
  {
    match step
    case ClaimAt(_, _, _, _, _) => ClaimBalances(c, step, id, request, reply);
    case Send(_, _, _) => SendBalances(c, step, id, request, reply);
    case Serve(_, _, _) => ServeBalances(c, step, id, request, reply);
    case ReadRow(_, _) => ReadBalances(c, step, id, request, reply);
    case Receive(_, _) => ReceiveBalances(c, step, id, request, reply);
    case PinAt(_, _, _) =>
  }

  /**
   In every run what is on its way is what was sent and not yet taken: no request is served twice or lost, and a
   manager hears exactly of its own grants, its failed renewals, its releases that took effect and its rereads.
   */
  lemma {:induction false} MailAddsUp(c: Cluster, steps: seq<Step>, id: ManagerId, request: Request, reply: Reply)
    requires Initial(c)
    ensures RequestsOf(Run(c, steps), id)[request] + ServedCount(c, steps, id, request)
            == PostCount(c, steps, id, request)
    ensures RepliesOf(Run(c, steps), id)[reply] + TakenCount(c, steps, id, reply) == ToldCount(c, steps, id, reply)
  {
    if steps != [] {
      var init, last := steps[..|steps| - 1], steps[|steps| - 1];
      MailAddsUp(c, init, id, request, reply);
      RunKeepsInv(c, init);
      StepBalances(Run(c, init), last, id, request, reply);
    }
  }

  // ----- a heartbeat

  /** Renewing all booked users at once does to each row what renewing that user alone does, and no more. */
  lemma HeartbeatIsRenewals(rows: Rows, held: map<User, Token>, clock: User -> int, ttl: nat, user: User)
    ensures Lookup(AfterRenewAll(rows, held, clock, ttl), user)
            == Lookup(if user in held then AfterRenew(rows, user, held[user].host, held[user].epoch, clock(user), ttl)
                      else rows, user)
    ensures AfterRenewAll(rows, held, clock, ttl).Keys == rows.Keys
  {}
}
