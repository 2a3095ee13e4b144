/**
 The timed half of the lease promise: a holder that renews often enough cannot be displaced.
 Every step has a true time; the process that runs it reads a clock at most `skew` away from it.
 */
module LeaseTiming {
  import opened Basics
  import opened LeaseRows
  import opened InstanceLeases
  import opened LeaseProtocol

  datatype Timed = Timed(at: int, step: Step)

  predicate ClockWithin(t: Timed, skew: nat) {
    match t.step
    case ClaimAt(_, _, _, now, _) => t.at - skew <= now <= t.at + skew
    case Serve(_, _, now) => t.at - skew <= now <= t.at + skew
    case PinAt(_, _, now) => t.at - skew <= now <= t.at + skew
    case _ => true
  }

  function After(c: Cluster, run: seq<Timed>): Cluster
    decreases run
  {
    if run == [] then c else After(Next(c, run[0].step), run[1..])
  }

  /** The step is a renewal of this token that the database accepts. */
  predicate Renews(c: Cluster, step: Step, user: User, token: Token) {
    && step.Serve? && step.request == RenewRequest(user, token)
    && step.id in c.managers && step.request in c.managers[step.id].requests
    && TokenMatches(c.rows, user, token)
  }

  /** The step is a claim or a pin that takes the user's row. */
  predicate Takes(c: Cluster, step: Step, user: User) {
    (step.ClaimAt? || step.PinAt?) && step.user == user && Free(Lookup(c.rows, user), step.now)
  }

  /**
   During `run` the holder of `token` never releases it, and no step happens more than two
   renewal intervals after the last accepted claim or renewal, which happened at `beat`.
   */
  predicate Diligent(c: Cluster, user: User, token: Token, renewMs: nat, skew: nat, beat: int, run: seq<Timed>)
    decreases run
  {
    run == [] ||
    (var t := run[0];
     && ClockWithin(t, skew)
     && t.at <= beat + 2 * renewMs
     && !(t.step.Serve? && t.step.request == ReleaseRequest(user, token))
     && Diligent(Next(c, t.step), user, token, renewMs, skew,
                 if Renews(c, t.step, user, token) then t.at else beat, run[1..]))
  }

  ghost predicate Holding(c: Cluster, id: ManagerId, user: User, token: Token, skew: nat, beat: int) {
    && Inv(c) && id in c.managers && Owns(WinsOf(c, user), id, token)
    && TokenMatches(c.rows, user, token)
    && c.rows[user].leaseUntil >= beat - skew + c.managers[id].ttl
  }

  lemma NextKeepsTtl(c: Cluster, step: Step, id: ManagerId)
    requires id in c.managers
    ensures id in Next(c, step).managers && Next(c, step).managers[id].ttl == c.managers[id].ttl
  {}

  lemma NotTaken(c: Cluster, id: ManagerId, user: User, token: Token, renewMs: nat, skew: nat, beat: int, t: Timed)
    requires Holding(c, id, user, token, skew, beat)
    requires c.managers[id].ttl >= 2 * renewMs + 2 * skew
    requires ClockWithin(t, skew) && t.at <= beat + 2 * renewMs
    ensures !Takes(c, t.step, user)
  {}

  lemma RowKept(c: Cluster, step: Step, user: User, token: Token)
    requires TokenMatches(c.rows, user, token) && !Takes(c, step, user)
    requires !(step.Serve? && step.request == ReleaseRequest(user, token))
    ensures TokenMatches(Next(c, step).rows, user, token)
    ensures Next(c, step).rows[user].leaseUntil ==
            if Renews(c, step, user, token) then step.now + c.managers[step.id].ttl else c.rows[user].leaseUntil
  {
    match step
    case Serve(id, request, now) =>
      if id in c.managers && request in c.managers[id].requests && request.user == user && request.token != token {
        assert !TokenMatches(c.rows, user, request.token);
      }
    case _ =>
  }

  lemma HoldingKept(c: Cluster, id: ManagerId, user: User, token: Token, renewMs: nat, skew: nat, beat: int, t: Timed)
    requires Holding(c, id, user, token, skew, beat)
    requires c.managers[id].ttl >= 2 * renewMs + 2 * skew
    requires ClockWithin(t, skew) && t.at <= beat + 2 * renewMs
    requires !(t.step.Serve? && t.step.request == ReleaseRequest(user, token))
    ensures Holding(Next(c, t.step), id, user, token, skew, if Renews(c, t.step, user, token) then t.at else beat)
  {
    NotTaken(c, id, user, token, renewMs, skew, beat, t);
    RowKept(c, t.step, user, token);
    NextKeepsInv(c, t.step);
    NextKeepsTtl(c, t.step, id);
    HistoryStep(c, t.step, user);
    if Renews(c, t.step, user, token) {
      assert Knows(c.managers[t.step.id], user, token);
      assert Owns(WinsOf(c, user), t.step.id, token);
    }
  }

  lemma {:induction false} TenureStep(c: Cluster, id: ManagerId, user: User, token: Token,
                                      renewMs: nat, skew: nat, beat: int, run: seq<Timed>, j: nat)
    requires Holding(c, id, user, token, skew, beat)
    requires c.managers[id].ttl >= 2 * renewMs + 2 * skew
    requires Diligent(c, user, token, renewMs, skew, beat, run)
    requires j <= |run|
    ensures TokenMatches(After(c, run[..j]).rows, user, token)
    ensures j < |run| ==> !Takes(After(c, run[..j]), run[j].step, user)
    decreases run
  {
    if j == 0 {
      if run != [] {
        NotTaken(c, id, user, token, renewMs, skew, beat, run[0]);
      }
    } else {
      var t := run[0];
      HoldingKept(c, id, user, token, renewMs, skew, beat, t);
      NextKeepsTtl(c, t.step, id);
      assert run[..j][1..] == run[1..][..j - 1];
      TenureStep(Next(c, t.step), id, user, token, renewMs, skew,
                 if Renews(c, t.step, user, token) then t.at else beat, run[1..], j - 1);
    }
  }

  /**
   From the claim on, as long as the holder is diligent, its token matches the row in every
   state and no claim and no pin of anyone takes the row. A lease book is built only with
   ttl > 2 * renewMs, which is the hypothesis for perfect clocks (skew 0).
   */
  lemma TenureIsExclusive(c0: Cluster, before: seq<Step>, claim: Timed, run: seq<Timed>,
                          id: ManagerId, user: User, token: Token, renewMs: nat, skew: nat, j: nat)
    requires Initial(c0) && ClockWithin(claim, skew)
    requires Grants(Run(c0, before), claim.step, id, user, token)
    requires Run(c0, before).managers[id].ttl >= 2 * renewMs + 2 * skew
    requires Diligent(Next(Run(c0, before), claim.step), user, token, renewMs, skew, claim.at, run)
    requires j <= |run|
    ensures var held := Next(Run(c0, before), claim.step);
            && TokenMatches(After(held, run[..j]).rows, user, token)
            && (j < |run| ==> !Takes(After(held, run[..j]), run[j].step, user))
  {
    var c := Run(c0, before);
    RunKeepsInv(c0, before);
    NextKeepsInv(c, claim.step);
    HistoryStep(c, claim.step, user);
    TenureStep(Next(c, claim.step), id, user, token, renewMs, skew, claim.at, run, j);
  }

  /** The margin cannot be smaller: with any less, another manager takes a diligent holder's row. */
  lemma MarginIsTight(ttl: nat, renewMs: nat, skew: nat)
    requires ttl < 2 * renewMs + 2 * skew
    ensures exists c0, claim: Timed, run: seq<Timed>, token ::
      && Initial(c0) && ClockWithin(claim, skew) && |run| == 1
      && Grants(c0, claim.step, "a", "u", token) && c0.managers["a"].ttl == ttl
      && Diligent(Next(c0, claim.step), "u", token, renewMs, skew, claim.at, run)
      && run[0].step.ClaimAt? && run[0].step.id == "b" && Takes(Next(c0, claim.step), run[0].step, "u")
  {
    var m := Manager(ttl, map[], multiset{}, multiset{});
    var c0 := Cluster(map[], map["a" := m, "b" := m], map[]);
    var claim := Timed(0, ClaimAt("a", "u", "h", 0 - skew, Meta(None, None)));
    var theft := Timed(2 * renewMs, ClaimAt("b", "u", "h", 2 * renewMs + skew, Meta(None, None)));
    var token := Token("h", 1);
    assert Grants(c0, claim.step, "a", "u", token);
    TheftSucceeds(Next(c0, claim.step), theft, renewMs, skew);
    assert [theft][0] == theft;
  }

  /** One lapsed claim of a row whose holder still has time to renew. */
  lemma TheftSucceeds(c: Cluster, theft: Timed, renewMs: nat, skew: nat)
    requires theft.at == 2 * renewMs && theft.step.ClaimAt? && theft.step.now == 2 * renewMs + skew
    requires theft.step.user == "u" && theft.step.id in c.managers
    requires "u" in c.rows && c.rows["u"].leaseUntil < 2 * renewMs + skew
    ensures Diligent(c, "u", Token("h", 1), renewMs, skew, 0, [theft])
    ensures Takes(c, theft.step, "u")
  {
    assert [theft][1..] == [];
    assert Diligent(Next(c, theft.step), "u", Token("h", 1), renewMs, skew, 0, []);
  }
}
