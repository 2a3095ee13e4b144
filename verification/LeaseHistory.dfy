/**
 What a row says about its past: who the lease is with and until when is decided by the last claim,
 renewal or release that took effect, the host by the last claim or pin, and the launch parameters by
 the last claim that gave any. So a release lets the next claim or pin through at once.
 */
module LeaseHistory {
  import opened Basics
  import opened LeaseRows
  import opened InstanceLeases
  import opened LeaseProtocol

  /** A claim of the user that succeeds, by the history of claims. */
  predicate Wins(c: Cluster, step: Step, user: User) {
    step.ClaimAt? && step.user == user && WinsOf(Next(c, step), user) != WinsOf(c, user)
  }

  /** The database serves a request of the user whose token is the row's. */
  predicate Serves(c: Cluster, step: Step, user: User) {
    && step.Serve? && step.request.user == user && step.id in c.managers
    && step.request in c.managers[step.id].requests && user in c.rows
    && c.rows[user].host == Some(step.request.token.host) && c.rows[user].epoch == step.request.token.epoch
  }

  predicate Renews(c: Cluster, step: Step, user: User) {
    Serves(c, step, user) && step.request.RenewRequest?
  }

  predicate Releases(c: Cluster, step: Step, user: User) {
    Serves(c, step, user) && step.request.ReleaseRequest?
  }

  /** A pin that finds nobody, or a lease that ended earlier. */
  predicate Pins(c: Cluster, step: Step, user: User) {
    && step.PinAt? && step.user == user
    && (Lookup(c.rows, user).host.None? || Lookup(c.rows, user).leaseUntil < step.now)
  }

  function Or<T>(given: Option<T>, stored: Option<T>): Option<T> {
    if given.Some? then given else stored
  }

  // ----- columns by history

  function LeaseEnd(c: Cluster, steps: seq<Step>, user: User): int {
    if steps == [] then if user in c.rows then c.rows[user].leaseUntil else 0
    else
      var init, last := steps[..|steps| - 1], steps[|steps| - 1];
      var d := Run(c, init);
      if Wins(d, last, user) && last.id in d.managers then last.now + d.managers[last.id].ttl
      else if Renews(d, last, user) then last.now + d.managers[last.id].ttl
      else if Releases(d, last, user) then 0
      else LeaseEnd(c, init, user)
  }

  function Heartbeat(c: Cluster, steps: seq<Step>, user: User): int {
    if steps == [] then if user in c.rows then c.rows[user].heartbeat else 0
    else
      var init, last := steps[..|steps| - 1], steps[|steps| - 1];
      if Wins(Run(c, init), last, user) || Renews(Run(c, init), last, user) then last.now else Heartbeat(c, init, user)
  }

  function HostOf(c: Cluster, steps: seq<Step>, user: User): Option<Host> {
    if steps == [] then if user in c.rows then c.rows[user].host else None
    else
      var init, last := steps[..|steps| - 1], steps[|steps| - 1];
      if Wins(Run(c, init), last, user) || Pins(Run(c, init), last, user)
        then Some(last.host) else HostOf(c, init, user)
  }

  function FolderOf(c: Cluster, steps: seq<Step>, user: User): Option<string> {
    if steps == [] then if user in c.rows then c.rows[user].meta.folder else None
    else
      var init, last := steps[..|steps| - 1], steps[|steps| - 1];
      if Wins(Run(c, init), last, user) then Or(last.meta.folder, FolderOf(c, init, user)) else FolderOf(c, init, user)
  }

  function PatchOf(c: Cluster, steps: seq<Step>, user: User): Option<string> {
    if steps == [] then if user in c.rows then c.rows[user].meta.patch else None
    else
      var init, last := steps[..|steps| - 1], steps[|steps| - 1];
      if Wins(Run(c, init), last, user) then Or(last.meta.patch, PatchOf(c, init, user)) else PatchOf(c, init, user)
  }

  /** What one step does to the row of a user, column by column. */
  lemma RowStep(c: Cluster, step: Step, user: User)
    ensures var was, row := Lookup(c.rows, user), Lookup(Next(c, step).rows, user);
            && (Wins(c, step, user) ==>
                  && step.id in c.managers && row.host == Some(step.host) && row.heartbeat == step.now
                  && row.leaseUntil == step.now + c.managers[step.id].ttl
                  && row.meta == Meta(Or(step.meta.folder, was.meta.folder), Or(step.meta.patch, was.meta.patch)))
            && (Renews(c, step, user) ==>
                  row == was.(heartbeat := step.now, leaseUntil := step.now + c.managers[step.id].ttl))
            && (Releases(c, step, user) ==> row == was.(leaseUntil := 0))
            && (Pins(c, step, user) ==> row == was.(host := Some(step.host)))
            && (!Wins(c, step, user) && !Serves(c, step, user) && !Pins(c, step, user) ==> row == was)
  {
    if step.ClaimAt? && step.user == user && step.id in c.managers && Free(Lookup(c.rows, user), step.now) {
      assert |WinsOf(Next(c, step), user)| == |WinsOf(c, user)| + 1;
    }
  }

  /** In every run each column of a user's row is what the user's history says. */
  lemma {:induction false} RowIsHistory(c: Cluster, steps: seq<Step>, user: User)
    requires Initial(c)
    ensures var row := Lookup(Run(c, steps).rows, user);
            && row.leaseUntil == LeaseEnd(c, steps, user)
            && row.heartbeat == Heartbeat(c, steps, user)
            && row.host == HostOf(c, steps, user)
            && row.meta == Meta(FolderOf(c, steps, user), PatchOf(c, steps, user))
            && row.epoch == |WinsOf(Run(c, steps), user)|
  {
    RunKeepsInv(c, steps);
    if steps != [] {
      RowIsHistory(c, steps[..|steps| - 1], user);
      RowStep(Run(c, steps[..|steps| - 1]), steps[|steps| - 1], user);
    }
  }

  /** The history in which a claim of the user succeeds: nobody owned the row, or the last lease ended earlier. */
  lemma {:induction false} ClaimedExactly(c: Cluster, steps: seq<Step>, id: ManagerId, user: User, host: Host, now: int,
                                          meta: Meta)
    requires Initial(c) && id in Run(c, steps).managers
    ensures Wins(Run(c, steps), ClaimAt(id, user, host, now, meta), user)
            <==> HostOf(c, steps, user).None? || LeaseEnd(c, steps, user) < now
  {
    var d := Run(c, steps);
    RowIsHistory(c, steps, user);
    if Free(Lookup(d.rows, user), now) {
      assert |WinsOf(Next(d, ClaimAt(id, user, host, now, meta)), user)| == |WinsOf(d, user)| + 1;
    }
  }

  /** No claim or renewal of the user takes effect. */
  predicate Untaken(c: Cluster, steps: seq<Step>, more: seq<Step>, user: User) {
    forall i :: 0 <= i < |more| ==>
      !Wins(Run(c, steps + more[..i]), more[i], user) && !Renews(Run(c, steps + more[..i]), more[i], user)
  }

  lemma LeaseEndSnoc(c: Cluster, steps: seq<Step>, step: Step, user: User)
    requires !Wins(Run(c, steps), step, user) && !Renews(Run(c, steps), step, user)
    ensures LeaseEnd(c, steps + [step], user)
            == if Releases(Run(c, steps), step, user) then 0 else LeaseEnd(c, steps, user)
  {
    assert (steps + [step])[..|steps + [step]| - 1] == steps;
  }

  lemma UntakenInit(c: Cluster, steps: seq<Step>, init: seq<Step>, last: Step, user: User)
    requires Untaken(c, steps, init + [last], user)
    ensures Untaken(c, steps, init, user)
    ensures !Wins(Run(c, steps + init), last, user) && !Renews(Run(c, steps + init), last, user)
  {
    var more := init + [last];
    forall i | 0 <= i < |init|
      ensures !Wins(Run(c, steps + init[..i]), init[i], user) && !Renews(Run(c, steps + init[..i]), init[i], user)
    {
      assert init[..i] == more[..i] && init[i] == more[i];
    }
    assert more[..|init|] == init && more[|init|] == last;
  }

  lemma {:induction false} StaysReleased(c: Cluster, steps: seq<Step>, more: seq<Step>, user: User)
    requires LeaseEnd(c, steps, user) == 0 && Untaken(c, steps, more, user)
    ensures LeaseEnd(c, steps + more, user) == 0
  {
    if more == [] {
      assert steps + more == steps;
    } else {
      var init, last := more[..|more| - 1], more[|more| - 1];
      assert more == init + [last] && steps + more == (steps + init) + [last];
      UntakenInit(c, steps, init, last, user);
      StaysReleased(c, steps, init, user);
      LeaseEndSnoc(c, steps + init, last, user);
    }
  }

  /**
   A release that takes effect changes the end of the lease and nothing else, and until another claim
   or renewal takes effect every claim and every pin of the user succeeds.
   */
  lemma ReleaseFrees(c: Cluster, steps: seq<Step>, release: Step, more: seq<Step>, user: User)
    requires Initial(c) && Releases(Run(c, steps), release, user)
    requires Untaken(c, steps + [release], more, user)
    ensures var was, row := Run(c, steps).rows[user], Lookup(Run(c, steps + [release]).rows, user);
            && row.host == was.host && row.epoch == was.epoch && row.heartbeat == was.heartbeat && row.meta == was.meta
    ensures var d := Run(c, steps + [release] + more);
            forall id, host, now, meta :: id in d.managers && now > 0 ==>
              Wins(d, ClaimAt(id, user, host, now, meta), user)
    ensures var d := Run(c, steps + [release] + more);
            forall host, now :: now > 0 ==> Lookup(Next(d, PinAt(user, host, now)).rows, user).host == Some(host)
  {
    RunSnoc(c, steps, release);
    RowStep(Run(c, steps), release, user);
    assert (steps + [release])[..|steps|] == steps;
    StaysReleased(c, steps + [release], more, user);
    var d := Run(c, steps + [release] + more);
    RowIsHistory(c, steps + [release] + more, user);
    forall id, host, now, meta | id in d.managers && now > 0
      ensures Wins(d, ClaimAt(id, user, host, now, meta), user)
    {
      ClaimedExactly(c, steps + [release] + more, id, user, host, now, meta);
    }
    forall host, now | now > 0 ensures Lookup(Next(d, PinAt(user, host, now)).rows, user).host == Some(host) {
      RowStep(d, PinAt(user, host, now), user);
    }
  }
}
