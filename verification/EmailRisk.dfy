/**
 When overlap breaks the promises about mail codes: which requests and guesses under way can take a
 window over its quota or a code over its attempts, decided on the state they are under way in.
 */
module EmailRisk {
  import opened Basics
  import opened EmailGuard
  import opened EmailOverlap

  // ----- continuations

  function After(p: Policy, hash: Hash, lower: string -> string, s: Race, more: seq<At>): Race {
    if more == [] then s
    else Do(p, hash, lower, After(p, hash, lower, s, more[..|more| - 1]), more[|more| - 1].step, more[|more| - 1].now)
  }

  /** Steps from a time on, in order of time. */
  predicate From(more: seq<At>, now: int) {
    Ordered(more) && forall i :: 0 <= i < |more| ==> now <= more[i].now
  }

  lemma {:induction false} AfterFirst(p: Policy, hash: Hash, lower: string -> string, s: Race, e: At, more: seq<At>)
    ensures After(p, hash, lower, s, [e] + more) == After(p, hash, lower, Do(p, hash, lower, s, e.step, e.now), more)
  {
    var all := [e] + more;
    if more == [] {
      assert all[..|all| - 1] == [] && all[|all| - 1] == e;
    } else {
      AfterFirst(p, hash, lower, s, e, more[..|more| - 1]);
      assert all[..|all| - 1] == [e] + more[..|more| - 1];
    }
  }

  lemma FromFirst(e: At, more: seq<At>, now: int)
    requires e.now == now && From(more, now)
    ensures From([e] + more, now)
  {}

  // ----- requests

  /** A continuation in which no further request has its verdict. */
  predicate Unchecked(more: seq<At>) {
    forall i :: 0 <= i < |more| ==> !more[i].step.Check?
  }

  /** What a window holds, and what the requests let through can still add to it. */
  ghost function Reach(s: Race, scope: Scope, lo: int, hi: int): nat {
    Tally(s.store.log, scope, lo, hi) + |UnderIn(s, scope, lo, hi)|
  }

  lemma SameReach(s: Race, d: Race, scope: Scope, lo: int, hi: int)
    requires d.asks == s.asks && d.store.log == s.store.log
    ensures Reach(d, scope, lo, hi) == Reach(s, scope, lo, hi)
  {
    assert UnderIn(d, scope, lo, hi) == UnderIn(s, scope, lo, hi);
  }

  lemma UnderWithout(s: Race, d: Race, id: nat, scope: Scope, lo: int, hi: int)
    requires id in s.asks && d.asks == s.asks - {id}
    ensures |UnderIn(d, scope, lo, hi)|
            == |UnderIn(s, scope, lo, hi)| - if id in UnderIn(s, scope, lo, hi) then 1 else 0
  {
    assert UnderIn(d, scope, lo, hi) == UnderIn(s, scope, lo, hi) - {id};
  }

  /** The row of a request counts only if the request was let through. */
  lemma RowReach(s: Race, d: Race, id: nat, r: Row, scope: Scope, lo: int, hi: int)
    requires id in s.asks && d.asks == s.asks - {id} && d.store.log == s.store.log + [r]
    requires var a := s.asks[id];
             r.email == a.email && r.ip == a.ip && r.at == a.at && (r.status != Throttled ==> a.verdict.Allowed?)
    ensures Reach(d, scope, lo, hi) <= Reach(s, scope, lo, hi)
    ensures id in UnderIn(s, scope, lo, hi) ==> |UnderIn(d, scope, lo, hi)| < |UnderIn(s, scope, lo, hi)|
    ensures id in UnderIn(s, scope, lo, hi) && r.status == Sent ==> Reach(d, scope, lo, hi) == Reach(s, scope, lo, hi)
  {
    TallySnoc(s.store.log, r, scope, lo, hi);
    UnderWithout(s, d, id, scope, lo, hi);
    assert id in UnderIn(s, scope, lo, hi)
           <==> s.asks[id].verdict.Allowed? && Concerns(s.asks[id], scope) && lo <= s.asks[id].at <= hi;
  }

  lemma UnderWith(s: Race, d: Race, id: nat, scope: Scope, lo: int, hi: int)
    requires id !in s.asks && id in d.asks && d.asks == s.asks[id := d.asks[id]]
    ensures var a := d.asks[id];
            UnderIn(d, scope, lo, hi)
            == UnderIn(s, scope, lo, hi)
              + (if a.verdict.Allowed? && Concerns(a, scope) && lo <= a.at <= hi then {id} else {})
  {}

  lemma AskReach(s: Race, d: Race, id: nat, scope: Scope, lo: int, hi: int)
    requires id !in s.asks && id in d.asks && d.asks == s.asks[id := d.asks[id]] && d.store.log == s.store.log
    ensures var a := d.asks[id];
            Reach(d, scope, lo, hi)
            == Reach(s, scope, lo, hi) + if a.verdict.Allowed? && Concerns(a, scope) && lo <= a.at <= hi then 1 else 0
  {
    UnderWith(s, d, id, scope, lo, hi);
  }

  lemma UncheckedStep(p: Policy, hash: Hash, lower: string -> string, s: Race, e: Step, now: int, scope: Scope, lo: int,
                      hi: int)
    requires !e.Check?
    ensures Reach(Do(p, hash, lower, s, e, now), scope, lo, hi) <= Reach(s, scope, lo, hi)
  {
    var d := Do(p, hash, lower, s, e, now);
    if e.Record? && e.id in s.asks {
      RowReach(s, d, e.id, d.store.log[|s.store.log|], scope, lo, hi);
    } else {
      SameReach(s, d, scope, lo, hi);
    }
  }

  lemma {:induction false} UncheckedRun(p: Policy, hash: Hash, lower: string -> string, s: Race, more: seq<At>,
                                        scope: Scope, lo: int, hi: int)
    requires Unchecked(more)
    ensures Reach(After(p, hash, lower, s, more), scope, lo, hi) <= Reach(s, scope, lo, hi)
  {
    if more != [] {
      var init, last := more[..|more| - 1], more[|more| - 1];
      UncheckedRun(p, hash, lower, s, init, scope, lo, hi);
      UncheckedStep(p, hash, lower, After(p, hash, lower, s, init), last.step, last.now, scope, lo, hi);
    }
  }

  /** A request let through counts once it is mailed. */
  lemma MailedCounts(p: Policy, hash: Hash, lower: string -> string, s: Race, id: nat, now: int, scope: Scope, lo: int,
                     hi: int)
    requires id in UnderIn(s, scope, lo, hi)
    ensures var d := Do(p, hash, lower, s, Record(id, "", true), now);
            Reach(d, scope, lo, hi) == Reach(s, scope, lo, hi) &&
              |UnderIn(d, scope, lo, hi)| < |UnderIn(s, scope, lo, hi)|
  {
    var d := Do(p, hash, lower, s, Record(id, "", true), now);
    RowReach(s, d, id, d.store.log[|s.store.log|], scope, lo, hi);
  }

  /** All of them are mailed. */
  lemma {:induction false} MailAll(p: Policy, hash: Hash, lower: string -> string, s: Race, now: int, scope: Scope,
                                   lo: int, hi: int)
    returns (more: seq<At>)
    ensures Unchecked(more) && From(more, now)
    ensures Tally(After(p, hash, lower, s, more).store.log, scope, lo, hi) == Reach(s, scope, lo, hi)
    decreases |UnderIn(s, scope, lo, hi)|
  {
    if UnderIn(s, scope, lo, hi) == {} {
      more := [];
    } else {
      var id :| id in UnderIn(s, scope, lo, hi);
      var e := At(Record(id, "", true), now);
      MailedCounts(p, hash, lower, s, id, now, scope, lo, hi);
      var rest := MailAll(p, hash, lower, Do(p, hash, lower, s, e.step, now), now, scope, lo, hi);
      AfterFirst(p, hash, lower, s, e, rest);
      FromFirst(e, rest, now);
      more := [e] + rest;
    }
  }

  /**
   Whatever is under way, without a further verdict a window stays within its quota exactly if what
   it holds and the requests let through in it do so together.
   */
  lemma QuotaExactly(p: Policy, hash: Hash, lower: string -> string, s: Race, scope: Scope, lo: int, now: int)
    ensures (forall more :: Unchecked(more) && From(more, now) ==>
             TallyOk(p, After(p, hash, lower, s, more).store.log, scope, lo))
            <==> Reach(s, scope, lo, lo + WindowOf(scope)) <= Max(0, QuotaOf(p, scope))
  {
    var hi := lo + WindowOf(scope);
    if Reach(s, scope, lo, hi) <= Max(0, QuotaOf(p, scope)) {
      forall more | Unchecked(more) && From(more, now)
        ensures TallyOk(p, After(p, hash, lower, s, more).store.log, scope, lo)
      {
        UncheckedRun(p, hash, lower, s, more, scope, lo, hi);
      }
    } else {
      var more := MailAll(p, hash, lower, s, now, scope, lo, hi);
      assert !TallyOk(p, After(p, hash, lower, s, more).store.log, scope, lo);
    }
  }

  /** A verdict that lets a request of the scope through, at a time in the window. */
  predicate LetsThrough(p: Policy, s: Race, e: Step, now: int, scope: Scope, lo: int, hi: int) {
    && e.Check? && e.id !in s.asks && lo <= now <= hi
    && var a := AskOf(p, s.store, e, now); a.verdict.Allowed? && Concerns(a, scope)
  }

  function AskOf(p: Policy, s: Store, e: Step, now: int): Ask
    requires e.Check?
  {
    Ask(e.email, e.ip, e.username, now, Verdict(MaybePurge(s, now, e.purgeWorks).rows, e.email, e.ip, now, p))
  }

  lemma CheckReach(p: Policy, hash: Hash, lower: string -> string, s: Race, e: Step, now: int, scope: Scope, lo: int,
                   hi: int)
    requires e.Check?
    ensures Reach(Do(p, hash, lower, s, e, now), scope, lo, hi)
            == Reach(s, scope, lo, hi) + if LetsThrough(p, s, e, now, scope, lo, hi) then 1 else 0
  {
    var d := Do(p, hash, lower, s, e, now);
    if e.id in s.asks {
      SameReach(s, d, scope, lo, hi);
    } else {
      assert d.asks[e.id] == AskOf(p, s.store, e, now);
      AskReach(s, d, e.id, scope, lo, hi);
    }
  }

  /**
   A window that is safe stops being so exactly by a verdict that lets a request through when what is
   under way fills it.
   */
  lemma QuotaExposedExactlyBy(p: Policy, hash: Hash, lower: string -> string, s: Race, e: Step, now: int, scope: Scope,
                              lo: int)
    requires Reach(s, scope, lo, lo + WindowOf(scope)) <= Max(0, QuotaOf(p, scope))
    ensures Reach(Do(p, hash, lower, s, e, now), scope, lo, lo + WindowOf(scope)) > Max(0, QuotaOf(p, scope))
            <==> LetsThrough(p, s, e, now, scope, lo, lo + WindowOf(scope))
                 && Reach(s, scope, lo, lo + WindowOf(scope)) == Max(0, QuotaOf(p, scope))
  {
    if e.Check? {
      CheckReach(p, hash, lower, s, e, now, scope, lo, lo + WindowOf(scope));
    } else {
      UncheckedStep(p, hash, lower, s, e, now, scope, lo, lo + WindowOf(scope));
    }
  }

  /**
   No verdict sees the requests under way: whatever request is let through once is let through again
   before it is recorded.
   */
  lemma TwiceLetThrough(p: Policy, hash: Hash, lower: string -> string, s: Race, e: Step, twin: nat, now: int,
                        scope: Scope, lo: int, hi: int)
    requires LetsThrough(p, s, e, now, scope, lo, hi) && twin !in s.asks && twin != e.id
    ensures var again := Check(twin, e.email, e.ip, e.username, e.purgeWorks);
            Reach(Do(p, hash, lower, Do(p, hash, lower, s, e, now), again, now), scope, lo, hi)
              == Reach(s, scope, lo, hi) + 2
  {
    var again, m := Check(twin, e.email, e.ip, e.username, e.purgeWorks), Do(p, hash, lower, s, e, now);
    CheckReach(p, hash, lower, s, e, now, scope, lo, hi);
    assert MaybePurge(m.store, now, e.purgeWorks) == m.store;
    assert LetsThrough(p, m, again, now, scope, lo, hi);
    CheckReach(p, hash, lower, m, again, now, scope, lo, hi);
  }

  // ----- guesses

  /** A continuation in which no further code is read. */
  predicate Unread(more: seq<At>) {
    forall i :: 0 <= i < |more| ==> !more[i].step.Look?
  }

  /** Every row has an id of its own, and a guess is of a row that was there. */
  ghost predicate Sound(s: Race) {
    && DistinctIds(s.store.rows)
    && (forall r :: r in s.store.rows ==> r.id < s.store.nextId)
    && (forall i :: i in s.guesses ==> s.guesses[i].code < s.store.nextId)
  }

  predicate IsOpen(s: Store, code: nat) {
    var pick := RowAt(s.rows, code);
    pick.Some? && s.rows[pick.value].consumedAt.None?
  }

  /** The pending wrong guesses of a code that will close it. */
  ghost function ClosingGuesses(s: Race, code: nat): set<nat> {
    set i | i in s.guesses && s.guesses[i].code == code && !s.guesses[i].right && s.guesses[i].closes
  }

  /** The guesses that can still be counted: while the code is open, all that do not close it and one that does. */
  ghost function StillCount(s: Race, code: nat): nat {
    if !IsOpen(s.store, code) then 0 else |OpenGuesses(s, code)| + if ClosingGuesses(s, code) == {} then 0 else 1
  }

  ghost function WrongReach(s: Race, code: nat): nat {
    CountId(s.store.wrong, code) + StillCount(s, code)
  }

  lemma {:induction false} RowAtIs(rows: seq<Row>, i: nat)
    requires DistinctIds(rows) && i < |rows|
    ensures RowAt(rows, rows[i].id) == Some(i)
  {
    var n := |rows| - 1;
    if i < n {
      assert rows[..n][i] == rows[i];
      RowAtIs(rows[..n], i);
    }
  }

  /** The row of a code is the one with its id. */
  lemma OpenIs(s: Store, i: nat)
    requires DistinctIds(s.rows) && i < |s.rows|
    ensures IsOpen(s, s.rows[i].id) <==> s.rows[i].consumedAt.None?
  {
    RowAtIs(s.rows, i);
  }

  /** Updating one row leaves the row of every other code as it was. */
  lemma OtherStays(s: Store, t: Store, pick: nat, code: nat)
    requires DistinctIds(s.rows) && pick < |s.rows| && s.rows[pick].id != code
    requires |t.rows| == |s.rows| && t.rows == s.rows[pick := t.rows[pick]] && t.rows[pick].id == s.rows[pick].id
    ensures DistinctIds(t.rows) && IsOpen(t, code) == IsOpen(s, code)
  {
    var i := RowAt(s.rows, code);
    if i.Some? {
      RowAtIs(t.rows, i.value);
    } else {
      assert RowAt(t.rows, code).None?;
    }
  }

  lemma SameGuesses(s: Race, d: Race, code: nat)
    requires IsOpen(d.store, code) ==> IsOpen(s.store, code)
    requires d.guesses == s.guesses && CountId(d.store.wrong, code) == CountId(s.store.wrong, code)
    ensures WrongReach(d, code) <= WrongReach(s, code)
  {
    assert OpenGuesses(d, code) == OpenGuesses(s, code) && ClosingGuesses(d, code) == ClosingGuesses(s, code);
  }

  lemma CheckStep(p: Policy, hash: Hash, lower: string -> string, s: Race, e: Step, now: int, code: nat)
    requires Sound(s) && e.Check?
    ensures var d := Do(p, hash, lower, s, e, now); Sound(d) && WrongReach(d, code) <= WrongReach(s, code)
  {
    var d := Do(p, hash, lower, s, e, now);
    PurgedIsPart(s.store.rows, now - PURGE_AGE);
    var i := RowAt(d.store.rows, code);
    if i.Some? && d.store.rows != s.store.rows {
      var k :| 0 <= k < |s.store.rows| && s.store.rows[k] == d.store.rows[i.value];
      RowAtIs(s.store.rows, k);
    }
    SameGuesses(s, d, code);
  }

  lemma RecordStep(p: Policy, hash: Hash, lower: string -> string, s: Race, e: Step, now: int, code: nat)
    requires Sound(s) && e.Record?
    ensures var d := Do(p, hash, lower, s, e, now); Sound(d) && WrongReach(d, code) <= WrongReach(s, code)
  {
    var d := Do(p, hash, lower, s, e, now);
    if e.id in s.asks {
      assert d.store.rows[..|d.store.rows| - 1] == s.store.rows;
      if code == s.store.nextId {
        assert OpenGuesses(d, code) == {} && ClosingGuesses(d, code) == {};
      } else {
        SameGuesses(s, d, code);
      }
    }
  }

  lemma LateStep(s: Race, d: Race, id: nat, code: nat)
    requires Sound(s) && id in s.guesses && d == s.(guesses := s.guesses - {id})
    ensures Sound(d) && WrongReach(d, code) <= WrongReach(s, code)
  {
    SubsetSize(OpenGuesses(d, code), OpenGuesses(s, code));
    assert ClosingGuesses(d, code) <= ClosingGuesses(s, code);
  }

  lemma RightStep(s: Race, d: Race, id: nat, pick: nat, code: nat)
    requires Sound(s) && id in s.guesses && d.guesses == s.guesses - {id}
    requires pick < |s.store.rows| && s.store.rows[pick].id == s.guesses[id].code
    requires d.store == Consumed(s.store, pick, s.guesses[id].at)
    ensures Sound(d) && WrongReach(d, code) <= WrongReach(s, code)
  {
    if s.guesses[id].code == code {
      OpenIs(d.store, pick);
    } else {
      OtherStays(s.store, d.store, pick, code);
      OthersStay(s, d, id, code);
    }
  }

  lemma OthersStay(s: Race, d: Race, id: nat, code: nat)
    requires id in s.guesses && d.guesses == s.guesses - {id} && s.guesses[id].code != code
    ensures OpenGuesses(d, code) == OpenGuesses(s, code) && ClosingGuesses(d, code) == ClosingGuesses(s, code)
  {}

  lemma OneLess(s: Race, d: Race, id: nat, code: nat)
    requires id in s.guesses && !s.guesses[id].right && !s.guesses[id].closes && s.guesses[id].code == code
    requires d.guesses == s.guesses - {id}
    ensures OpenGuesses(d, code) == OpenGuesses(s, code) - {id} && ClosingGuesses(d, code) == ClosingGuesses(s, code)
    ensures id in OpenGuesses(s, code) && |OpenGuesses(d, code)| == |OpenGuesses(s, code)| - 1
  {
    assert OpenGuesses(d, code) == OpenGuesses(s, code) - {id};
  }

  lemma OwnWrongStep(s: Race, d: Race, id: nat, pick: nat)
    requires Sound(s) && id in s.guesses && !s.guesses[id].right && d.guesses == s.guesses - {id}
    requires pick < |s.store.rows| && s.store.rows[pick].id == s.guesses[id].code && s.store.rows[pick].consumedAt.None?
    requires d.store == Bumped(s.store, pick, s.guesses[id].closes, s.guesses[id].at)
    ensures var code := s.guesses[id].code;
            && WrongReach(d, code) <= WrongReach(s, code)
            && (id in OpenGuesses(s, code) ==>
                  WrongReach(d, code) == WrongReach(s, code) && |OpenGuesses(d, code)| < |OpenGuesses(s, code)|)
  {
    var code := s.guesses[id].code;
    CountIdSnoc(s.store.wrong, code, code);
    OpenIs(s.store, pick);
    OpenIs(d.store, pick);
    if !s.guesses[id].closes { OneLess(s, d, id, code); }
  }

  /** A wrong guess that finds its code open is counted; one that does not close it leaves the others their turn. */
  lemma WrongStep(s: Race, d: Race, id: nat, pick: nat, code: nat)
    requires Sound(s) && id in s.guesses && !s.guesses[id].right && d.guesses == s.guesses - {id}
    requires pick < |s.store.rows| && s.store.rows[pick].id == s.guesses[id].code && s.store.rows[pick].consumedAt.None?
    requires d.store == Bumped(s.store, pick, s.guesses[id].closes, s.guesses[id].at)
    ensures Sound(d) && WrongReach(d, code) <= WrongReach(s, code)
    ensures s.guesses[id].code == code ==> CountId(d.store.wrong, code) == CountId(s.store.wrong, code) + 1
    ensures id in OpenGuesses(s, code) ==>
            WrongReach(d, code) == WrongReach(s, code) && |OpenGuesses(d, code)| < |OpenGuesses(s, code)|
  {
    CountIdSnoc(s.store.wrong, s.guesses[id].code, code);
    if s.guesses[id].code == code {
      OwnWrongStep(s, d, id, pick);
    } else {
      OtherStays(s.store, d.store, pick, code);
      OthersStay(s, d, id, code);
    }
  }

  lemma SettleStep(p: Policy, hash: Hash, lower: string -> string, s: Race, id: nat, now: int, code: nat)
    requires Sound(s) && id in s.guesses
    ensures var d := Do(p, hash, lower, s, Settle(id), now); Sound(d) && WrongReach(d, code) <= WrongReach(s, code)
  {
    var d := Do(p, hash, lower, s, Settle(id), now);
    var pick := RowAt(s.store.rows, s.guesses[id].code);
    if pick.None? || s.store.rows[pick.value].consumedAt.Some? {
      LateStep(s, d, id, code);
    } else if s.guesses[id].right {
      RightStep(s, d, id, pick.value, code);
    } else {
      WrongStep(s, d, id, pick.value, code);
    }
  }

  /** While the code is open every wrong guess of it counts. */
  lemma WrongCounts(p: Policy, hash: Hash, lower: string -> string, s: Race, id: nat, now: int, code: nat)
    requires Sound(s) && id in OpenGuesses(s, code) + ClosingGuesses(s, code) && IsOpen(s.store, code)
    ensures var d := Do(p, hash, lower, s, Settle(id), now);
            && Sound(d) && CountId(d.store.wrong, code) == CountId(s.store.wrong, code) + 1
            && (id in OpenGuesses(s, code) ==>
                  WrongReach(d, code) == WrongReach(s, code) && |OpenGuesses(d, code)| < |OpenGuesses(s, code)|)
  {
    WrongStep(s, Do(p, hash, lower, s, Settle(id), now), id, RowAt(s.store.rows, code).value, code);
  }

  lemma UnreadStep(p: Policy, hash: Hash, lower: string -> string, s: Race, e: Step, now: int, code: nat)
    requires Sound(s) && !e.Look?
    ensures var d := Do(p, hash, lower, s, e, now); Sound(d) && WrongReach(d, code) <= WrongReach(s, code)
  {
    match e
    case Check(_, _, _, _, _) => CheckStep(p, hash, lower, s, e, now, code);
    case Record(_, _, _) => RecordStep(p, hash, lower, s, e, now, code);
    case Settle(id) => if id in s.guesses { SettleStep(p, hash, lower, s, id, now, code); }
  }

  lemma {:induction false} UnreadRun(p: Policy, hash: Hash, lower: string -> string, s: Race, more: seq<At>, code: nat)
    requires Sound(s) && Unread(more)
    ensures var d := After(p, hash, lower, s, more); Sound(d) && WrongReach(d, code) <= WrongReach(s, code)
  {
    if more != [] {
      var init, last := more[..|more| - 1], more[|more| - 1];
      UnreadRun(p, hash, lower, s, init, code);
      UnreadStep(p, hash, lower, After(p, hash, lower, s, init), last.step, last.now, code);
    }
  }

  /** Every state a course leads to is sound. */
  lemma {:induction false} CourseIsSound(p: Policy, hash: Hash, lower: string -> string, run: seq<At>)
    ensures Sound(Course(p, hash, lower, run))
  {
    if run != [] {
      var init, last := run[..|run| - 1], run[|run| - 1];
      CourseIsSound(p, hash, lower, init);
      if !last.step.Look? {
        UnreadStep(p, hash, lower, Course(p, hash, lower, init), last.step, last.now, 0);
      }
    }
  }

  /** All guesses under way are settled, the closing ones last. */
  lemma {:induction false} SettleAll(p: Policy, hash: Hash, lower: string -> string, s: Race, now: int, code: nat)
    returns (more: seq<At>)
    requires Sound(s)
    ensures Unread(more) && From(more, now)
    ensures CountId(After(p, hash, lower, s, more).store.wrong, code) == WrongReach(s, code)
    decreases |OpenGuesses(s, code)|
  {
    if StillCount(s, code) == 0 {
      more := [];
    } else if OpenGuesses(s, code) != {} {
      var id :| id in OpenGuesses(s, code);
      var e := At(Settle(id), now);
      WrongCounts(p, hash, lower, s, id, now, code);
      var rest := SettleAll(p, hash, lower, Do(p, hash, lower, s, e.step, now), now, code);
      AfterFirst(p, hash, lower, s, e, rest);
      FromFirst(e, rest, now);
      more := [e] + rest;
    } else {
      var id :| id in ClosingGuesses(s, code);
      var e := At(Settle(id), now);
      WrongCounts(p, hash, lower, s, id, now, code);
      AfterFirst(p, hash, lower, s, e, []);
      more := [e] + [];
    }
  }

  /**
   From every course: without a further reading a code takes no more wrong guesses than allowed
   exactly if those it took, the pending ones that do not close it and one that does are no more.
   */
  lemma GuessesExactly(p: Policy, hash: Hash, lower: string -> string, run: seq<At>, code: nat, now: int)
    ensures var s := Course(p, hash, lower, run);
            (forall more :: Unread(more) && From(more, now) ==>
                              CountId(After(p, hash, lower, s, more).store.wrong, code) <= p.maxAttempts)
            <==> WrongReach(s, code) <= p.maxAttempts
  {
    var s := Course(p, hash, lower, run);
    CourseIsSound(p, hash, lower, run);
    if WrongReach(s, code) <= p.maxAttempts {
      forall more | Unread(more) && From(more, now)
        ensures CountId(After(p, hash, lower, s, more).store.wrong, code) <= p.maxAttempts
      {
        UnreadRun(p, hash, lower, s, more, code);
      }
    } else {
      var more := SettleAll(p, hash, lower, s, now, code);
    }
  }

  /** A reading that adds a guess which can be counted. */
  ghost predicate AddsAGuess(p: Policy, hash: Hash, lower: string -> string, s: Race, e: Step, now: int, code: nat) {
    && e.Look? && e.id !in s.guesses
    && var q := Looked(p, hash, lower, s.store, e, now);
       q.Some? && q.value.code == code && !q.value.right && (q.value.closes ==> ClosingGuesses(s, code) == {})
  }

  lemma LookSets(s: Race, d: Race, id: nat, code: nat)
    requires id !in s.guesses && id in d.guesses && d.guesses == s.guesses[id := d.guesses[id]]
    ensures var q := d.guesses[id];
            && OpenGuesses(d, code)
               == OpenGuesses(s, code) + (if q.code == code && !q.right && !q.closes then {id} else {})
            && ClosingGuesses(d, code)
               == ClosingGuesses(s, code) + (if q.code == code && !q.right && q.closes then {id} else {})
  {}

  lemma LookReach(s: Race, d: Race, id: nat, code: nat)
    requires id !in s.guesses && id in d.guesses && d == s.(guesses := s.guesses[id := d.guesses[id]])
    requires d.guesses[id].code == code ==> IsOpen(s.store, code)
    ensures var q := d.guesses[id];
            WrongReach(d, code)
            == WrongReach(s, code)
               + if q.code == code && !q.right && (q.closes ==> ClosingGuesses(s, code) == {}) then 1 else 0
  {
    LookSets(s, d, id, code);
  }

  /** A code that is safe stops being so exactly by reading a wrong guess when those under way fill its attempts. */
  lemma GuessesExposedExactlyBy(p: Policy, hash: Hash, lower: string -> string, s: Race, e: Step, now: int, code: nat)
    requires Sound(s) && WrongReach(s, code) <= p.maxAttempts
    ensures WrongReach(Do(p, hash, lower, s, e, now), code) > p.maxAttempts
            <==> AddsAGuess(p, hash, lower, s, e, now, code) && WrongReach(s, code) == p.maxAttempts
  {
    if !e.Look? {
      UnreadStep(p, hash, lower, s, e, now, code);
    } else if e.id !in s.guesses && Looked(p, hash, lower, s.store, e, now).Some? {
      OpenIs(s.store, e.pick);
      LookReach(s, Do(p, hash, lower, s, e, now), e.id, code);
    }
  }
}
