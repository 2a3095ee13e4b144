/**
 What a worker knows about its users, by the run: whether an instance is there, which epoch it was
 launched with, and so whom a newer epoch stops.
 */
module OperationHistory {
  import opened Basics
  import opened OperationCache

  /** The event is a fence newer than the epoch noted for the user. */
  predicate Stops(epoch: Option<int>, e: Event, user: User) {
    e.Fence? && e.user == user && epoch.Some? && epoch.value < e.epoch
  }

  /** The epoch of the last launch that was not answered from the cache, until a stop or a newer fence. */
  function EpochNoted(run: seq<Event>, user: User): Option<int> {
    if run == [] then None
    else
      var init, e := run[..|run| - 1], run[|run| - 1];
      var a, was := Run(init), EpochNoted(init, user);
      if !Enabled(a, e) then was
      else if e.Begin? && e.req.Launch? && e.req.user == user && e.req.epoch.Some? && e.req.op !in a.cache.results
      then e.req.epoch
      else if e.Finish? && e.answer.Some? && a.pending[e.id].req.Stop? && a.pending[e.id].req.user == user then None
      else if Stops(was, e, user) then None
      else was
  }

  /** An instance is there from the launch that spawned it, or a restart, until a stop, an end or a newer fence. */
  function InstanceThere(run: seq<Event>, user: User): bool {
    if run == [] then false
    else
      var init, e := run[..|run| - 1], run[|run| - 1];
      var a, was := Run(init), InstanceThere(init, user);
      if !Enabled(a, e) then was
      else if e.Act? && a.pending[e.id].req.user == user then a.pending[e.id].req.Launch?
      else if e == Gone(user) then false
      else if e == Appears(user) then true
      else was && !Stops(EpochNoted(init, user), e, user)
  }

  function Noted(a: Agent, user: User): Option<int> {
    if user in a.epochs then Some(a.epochs[user]) else None
  }

  lemma EpochStep(run: seq<Event>, user: User)
    requires run != [] && Noted(Run(run[..|run| - 1]), user) == EpochNoted(run[..|run| - 1], user)
    ensures Noted(Run(run), user) == EpochNoted(run, user)
  {}

  lemma InstanceStep(run: seq<Event>, user: User)
    requires run != []
    requires var init := run[..|run| - 1];
             Noted(Run(init), user) == EpochNoted(init, user) &&
               (user in Run(init).running <==> InstanceThere(init, user))
    ensures user in Run(run).running <==> InstanceThere(run, user)
  {}

  /** In every run, deliveries overlapping or not, a worker knows of each user what its run says. */
  lemma {:induction false} WorkerKnows(run: seq<Event>, user: User)
    ensures Noted(Run(run), user) == EpochNoted(run, user)
    ensures user in Run(run).running <==> InstanceThere(run, user)
  {
    if run != [] {
      WorkerKnows(run[..|run| - 1], user);
      EpochStep(run, user);
      InstanceStep(run, user);
    }
  }

  /**
   A fence with a newer epoch than that of the launch the worker knows ends the user's instance there;
   any other fence leaves the worker as it is, and no fence touches another user.
   */
  lemma FenceExactly(run: seq<Event>, user: User, epoch: int, other: User)
    ensures var a, b := Run(run), Next(Run(run), Fence(user, epoch));
            && (if EpochNoted(run, user).Some? && EpochNoted(run, user).value < epoch
                then user !in b.running && user !in b.epochs else b == a)
            && (other != user ==> (other in b.running <==> other in a.running) && Noted(b, other) == Noted(a, other))
            && b.cache == a.cache && b.pending == a.pending && b.acted == a.acted
  {
    WorkerKnows(run, user);
  }
}
