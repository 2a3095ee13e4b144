/**
 Which worker serves a user: files and instances are routed separately, and must agree.
 A file operation (read the owner, select, then pin) and a launch (select, then claim) take two
 steps each, between which others run.
 */
module HostRouting {
  import opened Basics
  import opened LeaseRows

  datatype Worker = Worker(id: Host, up: bool, capacityMb: int, usedMb: int)

  /** Capacity -1 means "carries no instances". */
  predicate Eligible(w: Worker) {
    w.up && w.capacityMb != -1
  }

  /** Capacity 0 or less means "no limit declared". */
  predicate HasRoom(w: Worker, reserveMb: int) {
    w.capacityMb <= 0 || w.usedMb + reserveMb <= w.capacityMb
  }

  predicate EligibleHost(workers: seq<Worker>, host: Host) {
    exists w :: w in workers && w.id == host && Eligible(w)
  }

  predicate Candidate(w: Worker, reserveMb: int) {
    Eligible(w) && HasRoom(w, reserveMb)
  }

  /** The first of the least used candidates: what a stable ascending sort puts in front. */
  predicate IsLeastUsed(workers: seq<Worker>, reserveMb: int, i: nat) {
    && i < |workers| && Candidate(workers[i], reserveMb)
    && (forall j :: 0 <= j < |workers| && Candidate(workers[j], reserveMb) ==> workers[i].usedMb <= workers[j].usedMb)
    && (forall j :: 0 <= j < i && Candidate(workers[j], reserveMb) ==> workers[i].usedMb < workers[j].usedMb)
  }

  /** The selection rule: stay on an eligible owner, else the least used candidate, else none. */
  ghost predicate Selects(workers: seq<Worker>, owned: Option<Host>, reserveMb: int, choice: Option<Host>) {
    if owned.Some? && EligibleHost(workers, owned.value) then choice == owned
    else
      match choice
      case Some(host) => exists i: nat :: IsLeastUsed(workers, reserveMb, i) && workers[i].id == host
      case None => forall w :: w in workers ==> !Candidate(w, reserveMb)
  }

  method SelectHost(workers: seq<Worker>, owned: Option<Host>, reserveMb: int) returns (choice: Option<Host>)
    ensures Selects(workers, owned, reserveMb, choice)
  {
    if owned.Some? && exists w :: w in workers && w.id == owned.value && Eligible(w) {
      return owned;
    }
    var best: Option<nat> := None;
    for i := 0 to |workers|
      invariant best.None? ==> forall j :: 0 <= j < i ==> !Candidate(workers[j], reserveMb)
      invariant best.Some? ==> best.value < i && IsLeastUsed(workers[..i], reserveMb, best.value)
    {
      var w := workers[i];
      if Candidate(w, reserveMb) && (best.None? || w.usedMb < workers[best.value].usedMb) {
        best := Some(i);
      }
      assert workers[..i + 1] == workers[..i] + [w];
    }
    assert workers[..|workers|] == workers;
    choice := if best.None? then None else Some(workers[best.value].id);
  }

  /** The rule leaves no freedom: any two hosts it allows are equal. */
  lemma SelectionIsUnique(workers: seq<Worker>, owned: Option<Host>, reserveMb: int, a: Option<Host>, b: Option<Host>)
    requires Selects(workers, owned, reserveMb, a) && Selects(workers, owned, reserveMb, b)
    ensures a == b
  {
    if !(owned.Some? && EligibleHost(workers, owned.value)) {
      if a.Some? {
        var i: nat :| IsLeastUsed(workers, reserveMb, i) && workers[i].id == a.value;
        assert workers[i] in workers && b.Some?;
        var j: nat :| IsLeastUsed(workers, reserveMb, j) && workers[j].id == b.value;
        assert i == j;
      }
    }
  }

  // ----- runs

  /** An operation that has its worker and has still to record it: by a pin, or by a launch's claim. */
  datatype Pending = Pending(user: User, target: Host, file: bool)

  datatype System = System(rows: Rows, workers: seq<Worker>, pending: map<nat, Pending>)

  /** `chosen` is what the selection returned in this step, `fallback` the configured host ("" = none). */
  datatype Step =
    | Begins(id: nat, user: User, file: bool, chosen: Option<Host>, fallback: Host)
    | Commits(id: nat, now: int, ttl: nat, meta: Meta)
    | Renewed(user: User, host: Host, epoch: nat, now: int, ttl: nat)
    | Released(user: User, host: Host, epoch: nat)
    | Report(workers: seq<Worker>)

  function Home(s: System, user: User): Option<Host> {
    Lookup(s.rows, user).host
  }

  ghost predicate Enabled(s: System, step: Step, reserveMb: int) {
    match step
    case Begins(id, user, file, chosen, _) =>
      id !in s.pending && ((file && Home(s, user).Some?) || Selects(s.workers, Home(s, user), reserveMb, chosen))
    case Commits(id, _, _, _) => id in s.pending
    case _ => true
  }

  /** The worker an operation talks to: a file operation asks the selection only if nobody owns the user. */
  function Target(s: System, step: Step): Option<Host>
    requires step.Begins?
  {
    if step.file && Home(s, step.user).Some? then Home(s, step.user)
    else if step.chosen.Some? then step.chosen
    else if step.file && step.fallback == "" then None
    else Some(step.fallback)
  }

  function Next(s: System, step: Step): System {
    match step
    case Begins(id, user, file, _, _) =>
      var target := Target(s, step);
      if (file && Home(s, user).Some?) || target.None? then s
      else s.(pending := s.pending[id := Pending(user, target.value, file)])
    case Commits(id, now, ttl, meta) =>
      if id !in s.pending then s
      else
        var p := s.pending[id];
        s.(pending := s.pending - {id},
           rows := if p.file then AfterPin(s.rows, p.user, p.target, now)
                   else AfterClaim(s.rows, p.user, p.target, now, ttl, meta))
    case Renewed(user, host, epoch, now, ttl) => s.(rows := AfterRenew(s.rows, user, host, epoch, now, ttl))
    case Released(user, host, epoch) => s.(rows := AfterRelease(s.rows, user, host, epoch))
    case Report(workers) => s.(workers := workers)
  }

  function After(s: System, steps: seq<Step>): System {
    if steps == [] then s else Next(After(s, steps[..|steps| - 1]), steps[|steps| - 1])
  }

  predicate BeginsFor(step: Step, user: User) {
    step.Begins? && step.user == user
  }

  /** Every selection follows the rule, and `host` is eligible whenever an operation of the user begins. */
  ghost predicate Legal(s: System, steps: seq<Step>, reserveMb: int, user: User, host: Host) {
    forall i :: 0 <= i < |steps| ==>
      Enabled(After(s, steps[..i]), steps[i], reserveMb)
      && (BeginsFor(steps[i], user) ==> EligibleHost(After(s, steps[..i]).workers, host))
  }

  lemma LegalInit(s: System, steps: seq<Step>, reserveMb: int, user: User, host: Host)
    requires Legal(s, steps, reserveMb, user, host) && steps != []
    ensures var init := steps[..|steps| - 1];
            && Legal(s, init, reserveMb, user, host) && Enabled(After(s, init), steps[|steps| - 1], reserveMb)
            && (BeginsFor(steps[|steps| - 1], user) ==> EligibleHost(After(s, init).workers, host))
  {
    var init := steps[..|steps| - 1];
    forall i | 0 <= i < |init| ensures init[..i] == steps[..i] {}
  }

  /** The user lives on the host, and no operation is about to record another. */
  ghost predicate Settled(s: System, user: User, host: Host) {
    Home(s, user) == Some(host) && forall id :: id in s.pending && s.pending[id].user == user ==>
      s.pending[id].target == host
  }

  /** A first file operation records the host it went to, unless somebody else did meanwhile. */
  lemma FirstFileOpPins(s: System, id: nat, now: int, ttl: nat, meta: Meta)
    requires id in s.pending && s.pending[id].file && Home(s, s.pending[id].user).None?
    ensures var p := s.pending[id]; var d := Next(s, Commits(id, now, ttl, meta));
            Home(d, p.user) == Some(p.target) && Lookup(d.rows, p.user).epoch == Lookup(s.rows, p.user).epoch
  {}

  lemma SettledStep(s: System, step: Step, reserveMb: int, user: User, host: Host)
    requires Settled(s, user, host) && Enabled(s, step, reserveMb) &&
             (BeginsFor(step, user) ==> EligibleHost(s.workers, host))
    ensures Settled(Next(s, step), user, host) && (BeginsFor(step, user) ==> Target(s, step) == Some(host))
  {}

  /** Once settled, the user stays: every operation goes to the recorded host as long as that is eligible. */
  lemma {:induction false} StaysHome(s: System, steps: seq<Step>, reserveMb: int, user: User, host: Host, j: nat)
    requires Settled(s, user, host) && Legal(s, steps, reserveMb, user, host) && j <= |steps|
    ensures Settled(After(s, steps[..j]), user, host)
    ensures j < |steps| && BeginsFor(steps[j], user) ==> Target(After(s, steps[..j]), steps[j]) == Some(host)
    decreases j
  {
    if j > 0 {
      assert steps[..j][..j - 1] == steps[..j - 1];
      StaysHome(s, steps, reserveMb, user, host, j - 1);
      SettledStep(After(s, steps[..j - 1]), steps[j - 1], reserveMb, user, host);
    }
    if j < |steps| && BeginsFor(steps[j], user) {
      SettledStep(After(s, steps[..j]), steps[j], reserveMb, user, host);
    }
  }

  ghost predicate AllAtHome(s: System, steps: seq<Step>, user: User, host: Host) {
    forall j :: 0 <= j < |steps| && BeginsFor(steps[j], user) ==> Target(After(s, steps[..j]), steps[j]) == Some(host)
  }

  /** A pending operation with another target can move the user once the lease has lapsed. */
  lemma PendingMoves(s: System, reserveMb: int, user: User, host: Host, id: nat) returns (steps: seq<Step>)
    requires Home(s, user) == Some(host) && EligibleHost(s.workers, host)
    requires id in s.pending && s.pending[id].user == user && s.pending[id].target != host
    ensures Legal(s, steps, reserveMb, user, host) && !AllAtHome(s, steps, user, host)
  {
    var commit := Commits(id, Lookup(s.rows, user).leaseUntil + 1, 0, Meta(None, None));
    var next := Begins(id, user, true, None, "");
    steps := [commit, next];
    assert steps[..0] == [] && steps[..1] == [commit] && [commit][..0] == [];
    assert After(s, steps[..1]) == Next(s, commit);
    assert Home(Next(s, commit), user) == Some(s.pending[id].target);
    assert Target(After(s, steps[..1]), steps[1]) == Some(s.pending[id].target);
  }

  /** That is exactly when the user stays: whatever happens later, if and only if nothing pending points elsewhere. */
  lemma HomeIsExact(s: System, reserveMb: int, user: User, host: Host)
    requires Home(s, user) == Some(host) && EligibleHost(s.workers, host)
    ensures Settled(s, user, host)
            <==> forall steps :: Legal(s, steps, reserveMb, user, host) ==> AllAtHome(s, steps, user, host)
  {
    if Settled(s, user, host) {
      forall steps | Legal(s, steps, reserveMb, user, host) ensures AllAtHome(s, steps, user, host) {
        forall j | 0 <= j < |steps| && BeginsFor(steps[j], user)
          ensures Target(After(s, steps[..j]), steps[j]) == Some(host)
        {
          StaysHome(s, steps, reserveMb, user, host, j);
        }
      }
    } else {
      var id :| id in s.pending && s.pending[id].user == user && s.pending[id].target != host;
      var steps := PendingMoves(s, reserveMb, user, host, id);
    }
  }

  /** A first operation of a user nobody owns is the only one under way. */
  ghost predicate Alone(s: System, user: User, id: nat, host: Host) {
    && Home(s, user).None? && id in s.pending && s.pending[id] == Pending(user, host, true)
    && forall x :: x in s.pending && s.pending[x].user == user ==> x == id
  }

  predicate LeavesAlone(step: Step, user: User, id: nat) {
    !BeginsFor(step, user) && !(step.Commits? && step.id == id)
  }

  lemma {:induction false} StaysAlone(s: System, steps: seq<Step>, reserveMb: int, user: User, id: nat, host: Host)
    requires Alone(s, user, id, host) && Legal(s, steps, reserveMb, user, host)
    requires forall i :: 0 <= i < |steps| ==> LeavesAlone(steps[i], user, id)
    ensures Alone(After(s, steps), user, id, host)
  {
    if steps != [] {
      var init, last := steps[..|steps| - 1], steps[|steps| - 1];
      LegalInit(s, steps, reserveMb, user, host);
      StaysAlone(s, init, reserveMb, user, id, host);
      assert LeavesAlone(last, user, id) && Enabled(After(s, init), last, reserveMb);
    }
  }

  /**
   A new user's first file operation and every later file operation and launch use the same
   worker, in any run in which that worker stays eligible and no other operation of the user
   begins before the first one has recorded it.
   */
  lemma FilesAndInstancesAgree(s: System, first: Step, between: seq<Step>, now: int, ttl: nat, meta: Meta,
                               steps: seq<Step>, reserveMb: int, host: Host, j: nat)
    requires first.Begins? && first.file && Home(s, first.user).None? && Target(s, first) == Some(host) &&
             Enabled(s, first, reserveMb)
    requires forall x :: x in s.pending ==> s.pending[x].user != first.user
    requires Legal(Next(s, first), between, reserveMb, first.user, host)
    requires forall i :: 0 <= i < |between| ==> LeavesAlone(between[i], first.user, first.id)
    requires var c := Next(After(Next(s, first), between), Commits(first.id, now, ttl, meta));
             Legal(c, steps, reserveMb, first.user, host) && j < |steps| && BeginsFor(steps[j], first.user)
    ensures var c := Next(After(Next(s, first), between), Commits(first.id, now, ttl, meta));
            Target(After(c, steps[..j]), steps[j]) == Some(host)
  {
    StaysAlone(Next(s, first), between, reserveMb, first.user, first.id, host);
    var b := After(Next(s, first), between);
    FirstFileOpPins(b, first.id, now, ttl, meta);
    StaysHome(Next(b, Commits(first.id, now, ttl, meta)), steps, reserveMb, first.user, host, j);
  }

  /**
   Two first file operations that overlap may part: the first one's files stay on a worker the user
   does not live on.
   */
  lemma FirstOpsMaySplit(s: System, workers: seq<Worker>, reserveMb: int, user: User, a: Host, b: Host, now: int)
    requires Home(s, user).None? && s.pending == map[] && a != b && now > Lookup(s.rows, user).leaseUntil
    requires Selects(s.workers, None, reserveMb, Some(a)) && Selects(workers, None, reserveMb, Some(b))
    ensures var first, second := Begins(0, user, true, Some(a), ""), Begins(1, user, true, Some(b), "");
            var s1 := Next(s, first);
            var s2 := Next(s1, Report(workers));
            var s3 := Next(s2, second);
            var s4 := Next(s3, Commits(0, now, 0, Meta(None, None)));
            var s5 := Next(s4, Commits(1, now, 0, Meta(None, None)));
            && Enabled(s, first, reserveMb) && Enabled(s2, second, reserveMb)
            && Target(s, first) == Some(a) && Home(s5, user) == Some(b)
  {}
}
