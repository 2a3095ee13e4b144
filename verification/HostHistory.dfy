/**
 Where a user lives, by what happened: which worker a selection may name, where an operation is sent and
 what it leaves to be recorded, and the home, lease and epoch of a user's row after any run.
 */
module HostHistory {
  import opened Basics
  import opened LeaseRows
  import opened HostRouting

  /** The worker is up, carries instances, and has declared no limit or has the reserve left. */
  predicate Serves(w: Worker, reserveMb: int) {
    w.up && w.capacityMb != -1 && (w.capacityMb < 1 || w.capacityMb - w.usedMb >= reserveMb)
  }

  predicate StillUp(workers: seq<Worker>, host: Host) {
    exists i :: 0 <= i < |workers| && workers[i].id == host && workers[i].up && workers[i].capacityMb != -1
  }

  /** No other serving worker is less used, and none of the equally used comes earlier. */
  ghost predicate Leads(workers: seq<Worker>, reserveMb: int, i: nat) {
    && i < |workers| && Serves(workers[i], reserveMb)
    && forall j :: 0 <= j < |workers| && Serves(workers[j], reserveMb) && j != i ==>
       workers[i].usedMb < workers[j].usedMb || (workers[i].usedMb == workers[j].usedMb && i < j)
  }

  /**
   A selection stays on the owner's worker while that is up and carries instances. Otherwise it names the
   least used worker that serves, and none exactly if none serves; there is one such answer.
   */
  lemma SelectsExactly(workers: seq<Worker>, owned: Option<Host>, reserveMb: int, choice: Option<Host>)
    ensures Selects(workers, owned, reserveMb, choice)
            <==> if owned.Some? && StillUp(workers, owned.value) then choice == owned
                 else if choice.None? then forall i :: 0 <= i < |workers| ==> !Serves(workers[i], reserveMb)
                 else exists i: nat :: Leads(workers, reserveMb, i) && workers[i].id == choice.value
  {
    if owned.Some? {
      if w :| w in workers && w.id == owned.value && Eligible(w) {
        var i :| 0 <= i < |workers| && workers[i] == w;
        assert StillUp(workers, owned.value);
      }
    }
    forall i | 0 <= i < |workers| ensures Candidate(workers[i], reserveMb) <==> Serves(workers[i], reserveMb) {}
    forall i: nat ensures IsLeastUsed(workers, reserveMb, i) <==> Leads(workers, reserveMb, i) {}
  }

  // ----- one operation

  /** A file operation of a settled user goes home; others go where they are sent, or nowhere. */
  lemma BeginsExactly(s: System, id: nat, user: User, file: bool, chosen: Option<Host>, fallback: Host)
    ensures var step := Begins(id, user, file, chosen, fallback);
            var home := Lookup(s.rows, user).host;
            && (file && home.Some? ==> Target(s, step) == home && Next(s, step) == s)
            && (file && home.None? && chosen.None? && |fallback| == 0 ==>
                  Target(s, step) == None && Next(s, step) == s)
            && (!(file && home.Some?) && chosen.Some? ==>
                  && Target(s, step) == chosen
                  && Next(s, step) == s.(pending := s.pending[id := Pending(user, chosen.value, file)]))
            && (!(file && home.Some?) && chosen.None? && (!file || |fallback| > 0) ==>
                  && Target(s, step) == Some(fallback)
                  && Next(s, step) == s.(pending := s.pending[id := Pending(user, fallback, file)]))
  {}

  // ----- the row after any run

  /** An operation of the user records its worker: nobody owned the row, or the lease had run out. */
  predicate Records(s: System, step: Step, user: User) {
    && step.Commits? && step.id in s.pending && s.pending[step.id].user == user
    && (Home(s, user).None? || Lookup(s.rows, user).leaseUntil < step.now)
  }

  predicate Claims(s: System, step: Step, user: User) {
    Records(s, step, user) && !s.pending[step.id].file
  }

  predicate Carries(s: System, user: User, host: Host, epoch: nat) {
    Home(s, user) == Some(host) && Lookup(s.rows, user).epoch == epoch
  }

  predicate Prolongs(s: System, step: Step, user: User) {
    step.Renewed? && step.user == user && Carries(s, user, step.host, step.epoch)
  }

  predicate GivesUp(s: System, step: Step, user: User) {
    step.Released? && step.user == user && Carries(s, user, step.host, step.epoch)
  }

  function HomeOf(s: System, steps: seq<Step>, user: User): Option<Host> {
    if steps == [] then Home(s, user)
    else
      var d, last := After(s, steps[..|steps| - 1]), steps[|steps| - 1];
      if Records(d, last, user) then Some(d.pending[last.id].target) else HomeOf(s, steps[..|steps| - 1], user)
  }

  function EndOf(s: System, steps: seq<Step>, user: User): int {
    if steps == [] then Lookup(s.rows, user).leaseUntil
    else
      var d, last := After(s, steps[..|steps| - 1]), steps[|steps| - 1];
      if Claims(d, last, user) || Prolongs(d, last, user) then last.now + last.ttl
      else if GivesUp(d, last, user) then 0
      else EndOf(s, steps[..|steps| - 1], user)
  }

  function ClaimsOf(s: System, steps: seq<Step>, user: User): nat {
    if steps == [] then Lookup(s.rows, user).epoch
    else
      ClaimsOf(s, steps[..|steps| - 1], user)
      + if Claims(After(s, steps[..|steps| - 1]), steps[|steps| - 1], user) then 1 else 0
  }

  lemma RowAfter(s: System, step: Step, user: User)
    ensures var row := Lookup(Next(s, step).rows, user);
            && row.host == (if Records(s, step, user) then Some(s.pending[step.id].target) else Home(s, user))
            && row.leaseUntil == (if Claims(s, step, user) || Prolongs(s, step, user) then step.now + step.ttl
                                  else if GivesUp(s, step, user) then 0 else Lookup(s.rows, user).leaseUntil)
            && row.epoch == Lookup(s.rows, user).epoch + if Claims(s, step, user) then 1 else 0
  {}

  /**
   After any run a user lives where the last operation that found the row free recorded it; the lease ends by
   the last launch, renewal or release that took effect; the epoch counts the launches that took effect.
   */
  lemma {:induction false} HomeIsHistory(s: System, steps: seq<Step>, user: User)
    ensures var row := Lookup(After(s, steps).rows, user);
            && row.host == HomeOf(s, steps, user)
            && row.leaseUntil == EndOf(s, steps, user)
            && row.epoch == ClaimsOf(s, steps, user)
  {
    if steps != [] {
      HomeIsHistory(s, steps[..|steps| - 1], user);
      RowAfter(After(s, steps[..|steps| - 1]), steps[|steps| - 1], user);
    }
  }

  /** An operation under way is one that began with a worker to record, and has not recorded it. */
  lemma PendingAfter(s: System, step: Step, id: nat)
    ensures var sent := step.Begins? && step.id == id && !(step.file && Home(s, step.user).Some?)
                        && (step.chosen.Some? || !step.file || |step.fallback| > 0);
            && (sent ==>
                  && id in Next(s, step).pending
                  && Next(s, step).pending[id]
                     == Pending(step.user, if step.chosen.Some? then step.chosen.value else step.fallback, step.file))
            && (!sent && step.Commits? && step.id == id ==> id !in Next(s, step).pending)
            && (!sent && !(step.Commits? && step.id == id) ==>
                  && (id in Next(s, step).pending <==> id in s.pending)
                  && (id in s.pending ==> Next(s, step).pending[id] == s.pending[id]))
            && (step.Report? ==> Next(s, step) == s.(workers := step.workers))
            && (!step.Report? ==> Next(s, step).workers == s.workers)
  {}
}
