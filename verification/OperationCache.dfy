/**
 The worker agent's idempotency cache and the retried calls it protects. A delivery is one
 request of one operation id; it begins, acts and finishes in steps between which others run.
 */
module OperationCache {
  import opened Basics

  type OpId = string
  type User = string
  type Payload = string

  const OP_CACHE_MAX: nat := 512

  // ----- the cache

  datatype Cache = Cache(order: seq<OpId>, results: map<OpId, Payload>)

  predicate Distinct(order: seq<OpId>) {
    forall i, j :: 0 <= i < j < |order| ==> order[i] != order[j]
  }

  /** The order list and the result map hold the same ids, without duplicates and within the limit. */
  ghost predicate CacheValid(c: Cache) {
    && Distinct(c.order) && |c.order| <= OP_CACHE_MAX
    && forall op :: op in c.results <==> op in c.order
  }

  /** First answer wins; the oldest answers make room. */
  function Remembered(c: Cache, op: OpId, value: Payload): Cache {
    if op in c.results then c
    else if |c.order| < OP_CACHE_MAX then Cache(c.order + [op], c.results[op := value])
    else Cache((c.order + [op])[1..], c.results[op := value] - {(c.order + [op])[0]})
  }

  class OpCache {
    var order: seq<OpId>
    var results: map<OpId, Payload>

    ghost function Model(): Cache
      reads this
    {
      Cache(order, results)
    }

    constructor ()
      ensures Model() == Cache([], map[]) && CacheValid(Model())
    {
      order, results := [], map[];
    }

    method Remember(op: OpId, value: Payload)
      requires CacheValid(Model())
      modifies this
      ensures Model() == Remembered(old(Model()), op, value)
      ensures CacheValid(Model()) && op in results
      ensures results[op] == if op in old(results) then old(results)[op] else value
    {
      RememberedValid(Model(), op, value);
      if op in results {
        return;
      }
      results := results[op := value];
      order := order + [op];
      while |order| > OP_CACHE_MAX
        invariant OP_CACHE_MAX <= |order| || order == old(order) + [op]
        invariant |order| == |old(order)| + 1 ==> order == old(order) + [op] && results == old(results)[op := value]
        invariant |order| != |old(order)| + 1 ==> Model() == Remembered(old(Model()), op, value)
        invariant |old(order)| <= |order| <= |old(order)| + 1
      {
        var oldest := order[0];
        order := order[1..];
        results := results - {oldest};
      }
    }
  }

  lemma RememberedValid(c: Cache, op: OpId, value: Payload)
    requires CacheValid(c)
    ensures var d := Remembered(c, op, value);
            CacheValid(d) && op in d.results && d.results[op] == if op in c.results then c.results[op] else value
  {
    if op !in c.results {
      var longer := c.order + [op];
      assert Distinct(longer);
      assert forall x :: x in longer <==> x in c.order || x == op;
      if |c.order| == OP_CACHE_MAX {
        OldestGoes(longer);
        assert op == longer[|longer| - 1] && op in longer[1..];
      }
    }
  }

  lemma OldestGoes(order: seq<OpId>)
    requires Distinct(order) && order != []
    ensures Distinct(order[1..]) && forall x :: x in order[1..] <==> x in order && x != order[0]
  {
    assert order == [order[0]] + order[1..];
  }

  /** The limit is exact: the 512th answer after an operation's own pushes it out. */
  lemma LimitIsExact(c: Cache, op: OpId, other: OpId, value: Payload)
    requires CacheValid(c) && |c.order| == OP_CACHE_MAX && c.order[0] == op && other !in c.results
    ensures op !in Remembered(c, other, value).results
    ensures forall x :: x in c.results && x != op ==> x in Remembered(c, other, value).results
  {
    assert op in c.order;
  }

  // ----- the caller: one operation id for all attempts of a call

  /** What one attempt came to: a 2xx answer, any other status, or a transport error. */
  datatype Attempt = Success(payload: Payload) | Status(code: nat) | Transport

  /** Delays before the second, third and fourth attempt. */
  const RETRY_DELAYS_MS: seq<nat> := [200, 1000, 3000]

  /**
   The retry loop. `attempts` holds what each attempt would come to. Every failure is retried,
   statuses below 500 too: the error raised for them is caught by the same loop.
   */
  method Call(attempts: seq<Attempt>) returns (result: Attempt, made: nat)
    requires |attempts| == |RETRY_DELAYS_MS| + 1
    ensures 1 <= made <= |attempts| && result == attempts[made - 1]
    ensures forall i :: 0 <= i < made - 1 ==> !attempts[i].Success?
    ensures !result.Success? ==> made == |attempts|
  {
    made := 0;
    result := Transport;
    while made <= |RETRY_DELAYS_MS|
      invariant made <= |attempts|
      invariant forall i :: 0 <= i < made ==> !attempts[i].Success?
      invariant made > 0 ==> result == attempts[made - 1]
    {
      result := attempts[made];
      made := made + 1;
      if result.Success? {
        return;
      }
    }
  }

  // ----- the agent: deliveries that overlap in time

  /** A stop answers with this and nothing else. */
  const STOPPED: Payload := "{ok:true}"

  datatype Request =
    | Launch(op: OpId, user: User, epoch: Option<int>)
    | Stop(op: OpId, user: User)

  /**
   A delivery that missed the cache: still to act, having acted (the place taken and the instance
   spawned, or the instance killed), or a launch that found the user's instance running.
   */
  datatype Phase = Waiting | Acted | Noted
  datatype Pending = Pending(req: Request, phase: Phase)

  datatype Given = Given(op: OpId, payload: Payload)

  /**
   `running`: the users with a main instance. History: `pushed` holds the remembered answers,
   `replies` all successful ones; `acted` counts the deliveries that drove the spawner, `wasted` those
   of them that failed afterwards, `done` those that were answered.
   */
  datatype Agent = Agent(
    cache: Cache,
    running: set<User>,
    epochs: map<User, int>,
    pending: map<nat, Pending>,
    pushed: seq<Given>,
    replies: seq<Given>,
    acted: multiset<OpId>,
    wasted: multiset<OpId>,
    done: multiset<OpId>)

  datatype Event =
    | Begin(id: nat, req: Request)
    | Act(id: nat)
    | Finish(id: nat, answer: Option<Payload>)
    | Gone(user: User)                  // a crash, the idle reaper
    | Appears(user: User)               // a restart after a crash
    | Fence(user: User, epoch: int)

  predicate Enabled(a: Agent, e: Event) {
    match e
    case Begin(id, _) => id !in a.pending
    case Act(id) => id in a.pending && a.pending[id].phase == Waiting
    case Finish(id, answer) =>
      && id in a.pending
      && (answer.Some? ==>
            && a.pending[id].phase != Waiting
            && (a.pending[id].phase == Noted ==> a.pending[id].req.user in a.running)
            && (a.pending[id].req.Stop? ==> answer.value == STOPPED))
    case _ => true
  }

  /** A cached answer is replayed at once. A launch notes its epoch whether or not it will spawn. */
  function Begun(a: Agent, id: nat, req: Request): Agent {
    if req.op in a.cache.results then a.(replies := a.replies + [Given(req.op, a.cache.results[req.op])])
    else
      match req
      case Launch(_, user, epoch) =>
        a.(epochs := if epoch.Some? then a.epochs[user := epoch.value] else a.epochs,
           pending := a.pending[id := Pending(req, if user in a.running then Noted else Waiting)])
      case Stop(_, _) => a.(pending := a.pending[id := Pending(req, Waiting)])
  }

  function Finished(a: Agent, id: nat, answer: Option<Payload>): Agent
    requires id in a.pending
  {
    var p := a.pending[id];
    var op, acted := p.req.op, if p.phase == Acted then multiset{p.req.op} else multiset{};
    var rest := a.(pending := a.pending - {id});
    if answer.None? then rest.(wasted := a.wasted + acted)
    else
      rest.(cache := Remembered(a.cache, op, answer.value),
            pushed := if op in a.cache.results then a.pushed else a.pushed + [Given(op, answer.value)],
            replies := a.replies + [Given(op, answer.value)],
            epochs := if p.req.Stop? then a.epochs - {p.req.user} else a.epochs,
            done := a.done + acted)
  }

  function Next(a: Agent, e: Event): Agent
    requires Enabled(a, e)
  {
    match e
    case Begin(id, req) => Begun(a, id, req)
    case Act(id) =>
      var p := a.pending[id];
      a.(pending := a.pending[id := p.(phase := Acted)], acted := a.acted + multiset{p.req.op},
         running := if p.req.Launch? then a.running + {p.req.user} else a.running - {p.req.user})
    case Finish(id, answer) => Finished(a, id, answer)
    case Gone(user) => a.(running := a.running - {user})
    case Appears(user) => a.(running := a.running + {user})
    case Fence(user, epoch) =>
      if user in a.epochs && a.epochs[user] < epoch
        then a.(running := a.running - {user}, epochs := a.epochs - {user}) else a
  }

  const FRESH := Agent(Cache([], map[]), {}, map[], map[], [], [], multiset{}, multiset{}, multiset{})

  /** An event that cannot happen changes nothing. */
  function RunFrom(a: Agent, run: seq<Event>): Agent {
    if run == [] then a
    else
      var b := RunFrom(a, run[..|run| - 1]);
      if Enabled(b, run[|run| - 1]) then Next(b, run[|run| - 1]) else b
  }

  function Run(run: seq<Event>): Agent { RunFrom(FRESH, run) }

  lemma RunSnoc(a: Agent, run: seq<Event>, e: Event)
    ensures RunFrom(a, run + [e]) == if Enabled(RunFrom(a, run), e) then Next(RunFrom(a, run), e) else RunFrom(a, run)
  {
    assert (run + [e])[..|run + [e]| - 1] == run;
  }

  // ----- the cache holds the newest answers

  function Newest(s: seq<Given>, n: nat): seq<Given> {
    if |s| > n then s[|s| - n..] else s
  }

  /** The cache is the newest 512 remembered answers. */
  ghost predicate CacheInv(a: Agent) {
    var w := Newest(a.pushed, OP_CACHE_MAX);
    && CacheValid(a.cache) && |a.cache.order| == |w|
    && (forall i :: 0 <= i < |w| ==>
        a.cache.order[i] == w[i].op && w[i].op in a.cache.results && a.cache.results[w[i].op] == w[i].payload)
  }

  lemma RememberKeeps(a: Agent, op: OpId, value: Payload)
    requires CacheInv(a) && op !in a.cache.results
    ensures CacheInv(a.(cache := Remembered(a.cache, op, value), pushed := a.pushed + [Given(op, value)]))
  {
    var w, v := Newest(a.pushed, OP_CACHE_MAX), Newest(a.pushed + [Given(op, value)], OP_CACHE_MAX);
    var d := Remembered(a.cache, op, value);
    RememberedValid(a.cache, op, value);
    forall i | 0 <= i < |v|
      ensures d.order[i] == v[i].op && v[i].op in d.results && d.results[v[i].op] == v[i].payload
    {
      var shift := |w| + 1 - |v|;
      if i + shift < |w| {
        assert v[i] == w[i + shift] && d.order[i] == a.cache.order[i + shift];
        assert d.order[i] in d.order && a.cache.order[i + shift] in a.cache.order;
      }
    }
  }

  lemma CacheKept(a: Agent, e: Event)
    requires CacheInv(a) && Enabled(a, e)
    ensures CacheInv(Next(a, e))
  {
    if e.Finish? && e.answer.Some? && a.pending[e.id].req.op !in a.cache.results {
      RememberKeeps(a, a.pending[e.id].req.op, e.answer.value);
    }
  }

  /** In every run the cache holds exactly the newest 512 answers, with their operations distinct. */
  lemma {:induction false} CacheValidAlways(run: seq<Event>)
    ensures CacheInv(Run(run))
  {
    if run != [] {
      CacheValidAlways(run[..|run| - 1]);
      if Enabled(Run(run[..|run| - 1]), run[|run| - 1]) {
        CacheKept(Run(run[..|run| - 1]), run[|run| - 1]);
      }
    }
  }

  /** Fewer than 512 answers were remembered since this one. */
  ghost predicate Recent(a: Agent, g: Given) {
    exists k :: |a.pushed| - OP_CACHE_MAX <= k < |a.pushed| && 0 <= k && a.pushed[k] == g
  }

  /** An answered operation stays answered, with that answer, until 512 later answers are remembered. */
  lemma StaysAnswered(run: seq<Event>, g: Given, id: nat, req: Request)
    requires Recent(Run(run), g) && req.op == g.op && id !in Run(run).pending
    ensures var a := Run(run);
            Next(a, Begin(id, req)) == a.(replies := a.replies + [g])
  {
    CacheValidAlways(run);
    InCache(Run(run), g);
  }

  lemma InCache(a: Agent, g: Given)
    requires CacheInv(a) && Recent(a, g)
    ensures g.op in a.cache.results && a.cache.results[g.op] == g.payload
  {
    var w := Newest(a.pushed, OP_CACHE_MAX);
    var k :| |a.pushed| - OP_CACHE_MAX <= k < |a.pushed| && 0 <= k && a.pushed[k] == g;
    assert w[k - (|a.pushed| - |w|)] == g;
  }

  lemma CachedWasPushed(a: Agent, op: OpId)
    requires CacheInv(a) && op in a.cache.results
    ensures Given(op, a.cache.results[op]) in a.pushed
  {
    assert op in a.cache.order;
    var i :| 0 <= i < |a.cache.order| && a.cache.order[i] == op;
    var w := Newest(a.pushed, OP_CACHE_MAX);
    assert w[i] in a.pushed;
  }

  // ----- every effect is accounted for

  ghost function ActedIds(a: Agent, op: OpId): set<nat> {
    set i | i in a.pending && a.pending[i].req.op == op && a.pending[i].phase == Acted
  }

  ghost predicate Accounted(a: Agent, op: OpId) {
    && a.acted[op] == a.wasted[op] + a.done[op] + |ActedIds(a, op)|
    && (a.done[op] > 0 ==> Answered(a, op))
  }

  /** Some answer of the operation was remembered. */
  ghost predicate Answered(a: Agent, op: OpId) {
    exists g :: g in a.pushed && g.op == op
  }

  lemma ActedIdsAfter(a: Agent, e: Event, op: OpId)
    requires Enabled(a, e)
    ensures ActedIds(Next(a, e), op)
            == if e.Act? && a.pending[e.id].req.op == op then ActedIds(a, op) + {e.id}
               else if e.Finish? then ActedIds(a, op) - {e.id} else ActedIds(a, op)
  {}

  lemma AnsweredAfter(a: Agent, e: Event, op: OpId)
    requires CacheInv(a) && Enabled(a, e)
    ensures Answered(a, op) ==> Answered(Next(a, e), op)
    ensures e.Finish? && e.answer.Some? && a.pending[e.id].req.op == op ==> Answered(Next(a, e), op)
  {
    if e.Finish? && e.answer.Some? {
      FinishedIsAnswered(a, e.id, e.answer.value);
    }
  }

  lemma AccountedKept(a: Agent, e: Event, op: OpId)
    requires CacheInv(a) && Enabled(a, e) && Accounted(a, op)
    ensures Accounted(Next(a, e), op)
  {
    ActedIdsAfter(a, e, op);
    AnsweredAfter(a, e, op);
  }

  lemma FinishedIsAnswered(a: Agent, id: nat, payload: Payload)
    requires CacheInv(a) && Enabled(a, Finish(id, Some(payload)))
    ensures Answered(Finished(a, id, Some(payload)), a.pending[id].req.op)
    ensures forall g :: g in a.pushed ==> g in Finished(a, id, Some(payload)).pushed
  {
    var op := a.pending[id].req.op;
    if op in a.cache.results {
      CachedWasPushed(a, op);
    } else {
      assert Given(op, payload) in a.pushed + [Given(op, payload)];
    }
  }

  /**
   In every run each time the spawner was driven belongs to a delivery that was answered, that
   failed afterwards, or that is still pending; and an answered one left a remembered answer.
   */
  lemma {:induction false} EffectsAreAccounted(run: seq<Event>, op: OpId)
    ensures Accounted(Run(run), op)
  {
    if run == [] {
      assert ActedIds(FRESH, op) == {};
    } else {
      var init := run[..|run| - 1];
      EffectsAreAccounted(init, op);
      CacheValidAlways(init);
      if Enabled(Run(init), run[|run| - 1]) {
        AccountedKept(Run(init), run[|run| - 1], op);
      }
    }
  }

  /** Deliveries that failed without having acted had no effect. */
  lemma NeverDriven(run: seq<Event>, op: OpId)
    requires var a := Run(run);
             && !Answered(a, op) && a.wasted[op] == 0
             && forall i :: i in a.pending && a.pending[i].req.op == op ==> a.pending[i].phase != Acted
    ensures Run(run).acted[op] == 0
  {
    EffectsAreAccounted(run, op);
    assert ActedIds(Run(run), op) == {};
  }

  // ----- at most once

  /** A delivery that has acted or is going to. */
  predicate Busy(p: Pending, op: OpId) {
    p.req.op == op && p.phase != Noted
  }

  /** One delivery of the operation is still to act while another is to act too or has acted without being answered. */
  ghost predicate AtRisk(a: Agent, op: OpId) {
    exists i, j :: i in a.pending && j in a.pending && i != j && Busy(a.pending[i], op) && Busy(a.pending[j], op)
                   && a.pending[i].phase == Waiting
  }

  /** If the operation was answered, fewer than 512 answers were remembered since. */
  ghost predicate InTime(a: Agent, op: OpId) {
    Answered(a, op) ==> exists g :: Recent(a, g) && g.op == op
  }

  predicate Begins(e: Event, op: OpId) {
    e.Begin? && e.req.op == op
  }

  ghost predicate OnceInv(a: Agent, op: OpId) {
    && (forall i, j :: i in a.pending && j in a.pending && Busy(a.pending[i], op) && Busy(a.pending[j], op) ==> i == j)
    && a.done[op] <= 1
    && (a.done[op] == 1 ==> forall i :: i in a.pending ==> !Busy(a.pending[i], op))
  }

  lemma OnceKept(a: Agent, e: Event, op: OpId)
    requires CacheInv(a) && Accounted(a, op) && OnceInv(a, op) && Enabled(a, e)
    requires Begins(e, op) ==> InTime(a, op)
    ensures AtRisk(Next(a, e), op) || OnceInv(Next(a, e), op)
    ensures !Begins(e, op) ==> !AtRisk(Next(a, e), op)
  {
    if Begins(e, op) {
      OnceAtBegin(a, e, op);
    } else {
      var b := Next(a, e);
      assert forall i :: i in b.pending && Busy(b.pending[i], op) ==> i in a.pending && Busy(a.pending[i], op);
    }
  }

  lemma OnceAtBegin(a: Agent, e: Event, op: OpId)
    requires CacheInv(a) && Accounted(a, op) && OnceInv(a, op) && Enabled(a, e) && Begins(e, op) && InTime(a, op)
    ensures AtRisk(Next(a, e), op) || OnceInv(Next(a, e), op)
  {
    var b := Next(a, e);
    if Answered(a, op) {
      var g :| Recent(a, g) && g.op == op;
      InCache(a, g);
    } else if !OnceInv(b, op) {
      assert b.done == a.done && e.id in b.pending && Busy(b.pending[e.id], op);
      var i :| i in a.pending && Busy(a.pending[i], op);
      assert b.pending[i] == a.pending[i] && b.pending[e.id].phase == Waiting;
    }
  }

  /** No delivery of the operation begins too late, and none is ever at risk, up to before the last event. */
  ghost predicate Careful(run: seq<Event>, op: OpId) {
    && (forall i :: 0 <= i < |run| && Begins(run[i], op) ==> InTime(Run(run[..i]), op))
    && (forall i :: 0 <= i < |run| ==> !AtRisk(Run(run[..i]), op))
  }

  lemma CarefulInit(run: seq<Event>, op: OpId)
    requires Careful(run, op) && run != []
    ensures Careful(run[..|run| - 1], op) && !AtRisk(Run(run[..|run| - 1]), op)
  {
    var init := run[..|run| - 1];
    forall i | 0 <= i < |init| ensures init[..i] == run[..i] {}
  }

  lemma {:induction false} OnceAlong(run: seq<Event>, op: OpId)
    requires Careful(run, op)
    ensures AtRisk(Run(run), op) || OnceInv(Run(run), op)
  {
    if run != [] {
      var init := run[..|run| - 1];
      CarefulInit(run, op);
      OnceAlong(init, op);
      CacheValidAlways(init);
      EffectsAreAccounted(init, op);
      if Enabled(Run(init), run[|run| - 1]) {
        OnceKept(Run(init), run[|run| - 1], op);
      }
    }
  }

  lemma OnceMeans(a: Agent, op: OpId)
    requires OnceInv(a, op) && Accounted(a, op)
    ensures a.acted[op] <= a.wasted[op] + 1
  {
    var ids := ActedIds(a, op);
    if ids != {} {
      var i :| i in ids;
      assert ids == {i};
    }
  }

  /**
   At most once: as long as no delivery of an operation is at risk and none comes after 512 later
   answers, the spawner is driven for it at most once, not counting deliveries that failed after
   driving it.
   */
  lemma ExactlyOneEffect(run: seq<Event>, op: OpId)
    requires Careful(run, op) && !AtRisk(Run(run), op)
    ensures Run(run).acted[op] <= Run(run).wasted[op] + 1
  {
    OnceAlong(run, op);
    EffectsAreAccounted(run, op);
    OnceMeans(Run(run), op);
  }

  /** At most one delivery of the operation is pending at any time: no retry begins before the last try is finished. */
  ghost predicate Serial(run: seq<Event>, op: OpId) {
    forall i :: 0 <= i <= |run| ==> !Overlapping(Run(run[..i]), op)
  }

  ghost predicate Overlapping(a: Agent, op: OpId) {
    exists i, j :: i in a.pending && j in a.pending && i != j && a.pending[i].req.op == op && a.pending[j].req.op == op
  }

  /** What may follow without a further delivery of the operation. */
  predicate NoMore(run: seq<Event>, op: OpId) {
    forall i :: 0 <= i < |run| ==> !Begins(run[i], op)
  }

  lemma {:induction false} OnceFrom(a: Agent, more: seq<Event>, op: OpId)
    requires CacheInv(a) && Accounted(a, op) && OnceInv(a, op) && NoMore(more, op)
    ensures var b := RunFrom(a, more); CacheInv(b) && Accounted(b, op) && OnceInv(b, op)
  {
    if more != [] {
      var init, e := more[..|more| - 1], more[|more| - 1];
      OnceFrom(a, init, op);
      var b := RunFrom(a, init);
      if Enabled(b, e) {
        CacheKept(b, e);
        AccountedKept(b, e, op);
        OnceKept(b, e, op);
      }
    }
  }

  ghost predicate Twice(a: Agent, op: OpId) {
    a.acted[op] > a.wasted[op] + 1
  }

  lemma BothAct(a: Agent, op: OpId) returns (more: seq<Event>)
    requires CacheInv(a) && Accounted(a, op) && AtRisk(a, op)
    ensures NoMore(more, op) && Twice(RunFrom(a, more), op)
  {
    var i, j :| i in a.pending && j in a.pending && i != j && Busy(a.pending[i], op) && Busy(a.pending[j], op)
                && a.pending[i].phase == Waiting;
    var b := Next(a, Act(i));
    AccountedKept(a, Act(i), op);
    RunSnoc(a, [], Act(i));
    assert [] + [Act(i)] == [Act(i)];
    assert i in ActedIds(b, op);
    more := [Act(i)];
    if b.pending[j].phase == Waiting {
      AccountedKept(b, Act(j), op);
      RunSnoc(a, more, Act(j));
      more := more + [Act(j)];
      b := Next(b, Act(j));
    }
    assert {i, j} <= ActedIds(b, op);
    SubsetSize({i, j}, ActedIds(b, op));
  }

  lemma SubsetSize(a: set<nat>, b: set<nat>)
    requires a <= b
    ensures |a| <= |b|
  {
    assert b == a + (b - a);
  }

  /**
   The condition is exact. On a run that was careful so far, what follows without a further
   delivery can drive the spawner twice if and only if the operation is now at risk.
   */
  lemma {:induction false} OnceExactly(run: seq<Event>, op: OpId)
    requires Careful(run, op)
    ensures AtRisk(Run(run), op) <==> exists more :: NoMore(more, op) && Twice(RunFrom(Run(run), more), op)
  {
    CacheValidAlways(run);
    EffectsAreAccounted(run, op);
    if AtRisk(Run(run), op) {
      var more := BothAct(Run(run), op);
    } else {
      OnceAlong(run, op);
      forall more | NoMore(more, op) ensures !Twice(RunFrom(Run(run), more), op) {
        OnceFrom(Run(run), more, op);
        OnceMeans(RunFrom(Run(run), more), op);
      }
    }
  }

  // ----- the same reply

  /**
   All successful replies to the operation, remembered or not, are alike; once there is one only stops
   are pending.
   */
  ghost predicate ReplyInv(a: Agent, op: OpId) {
    && (forall g :: g in a.replies && g.op == op ==> Answered(a, op))
    && (forall g, h :: g in a.pushed && h in a.pushed && g.op == op && h.op == op ==> g == h)
    && (forall g, h :: g in a.pushed && h in a.replies && g.op == op && h.op == op ==> g == h)
    && (Answered(a, op) ==>
          forall i :: i in a.pending && a.pending[i].req.op == op ==>
            a.pending[i].req.Stop? && Given(op, STOPPED) in a.pushed)
  }

  /** Two deliveries of the operation are pending, and not both are stops. */
  ghost predicate MayDiffer(a: Agent, op: OpId) {
    exists i, j :: i in a.pending && j in a.pending && i != j && a.pending[i].req.op == op && a.pending[j].req.op == op
                   && a.pending[i].req.Launch?
  }

  lemma ReplyAtFinish(a: Agent, id: nat, payload: Payload, op: OpId)
    requires CacheInv(a) && ReplyInv(a, op) && !MayDiffer(a, op) && Enabled(a, Finish(id, Some(payload)))
    requires a.pending[id].req.op == op
    ensures ReplyInv(Finished(a, id, Some(payload)), op)
  {
    var b := Finished(a, id, Some(payload));
    FinishedIsAnswered(a, id, payload);
    if op in a.cache.results {
      CachedWasPushed(a, op);
    }
    assert forall g :: g in b.pushed && g.op == op ==> g == Given(op, payload);
    assert Given(op, payload) in b.pushed;
    forall i | i in b.pending && b.pending[i].req.op == op
      ensures b.pending[i].req.Stop? && Given(op, STOPPED) in b.pushed
    {
      assert i in a.pending && i != id;
    }
  }

  lemma ReplyAtOther(a: Agent, e: Event, op: OpId)
    requires ReplyInv(a, op) && Enabled(a, e) && e.Finish? && e.answer.Some? && a.pending[e.id].req.op != op
    ensures ReplyInv(Next(a, e), op)
  {
    var b := Next(a, e);
    assert forall g: Given :: g.op == op ==> (g in b.pushed <==> g in a.pushed) && (g in b.replies <==> g in a.replies);
  }

  lemma ReplyKept(a: Agent, e: Event, op: OpId)
    requires CacheInv(a) && ReplyInv(a, op) && !MayDiffer(a, op) && Enabled(a, e)
    requires Begins(e, op) ==> InTime(a, op)
    ensures ReplyInv(Next(a, e), op)
  {
    var b := Next(a, e);
    if e.Finish? && e.answer.Some? {
      var q := a.pending[e.id].req.op;
      if q == op {
        ReplyAtFinish(a, e.id, e.answer.value, op);
      } else {
        ReplyAtOther(a, e, op);
      }
    } else if e.Begin? && e.req.op in a.cache.results {
      CachedWasPushed(a, e.req.op);
    } else if Begins(e, op) && Answered(a, op) {
      var g :| Recent(a, g) && g.op == op;
      InCache(a, g);
      assert false;
    }
  }

  /** No delivery of the operation begins too late, and no two that may differ overlap, up to before the last event. */
  ghost predicate CarefulReplies(run: seq<Event>, op: OpId) {
    && (forall i :: 0 <= i < |run| && Begins(run[i], op) ==> InTime(Run(run[..i]), op))
    && (forall i :: 0 <= i < |run| ==> !MayDiffer(Run(run[..i]), op))
  }

  lemma {:induction false} ReplyAlong(run: seq<Event>, op: OpId)
    requires CarefulReplies(run, op)
    ensures ReplyInv(Run(run), op)
  {
    if run != [] {
      var init := run[..|run| - 1];
      forall i | 0 <= i < |init| ensures init[..i] == run[..i] {}
      assert CarefulReplies(init, op);
      ReplyAlong(init, op);
      CacheValidAlways(init);
      assert !MayDiffer(Run(init), op);
      if Enabled(Run(init), run[|run| - 1]) {
        ReplyKept(Run(init), run[|run| - 1], op);
      }
    }
  }

  ghost predicate AllAlike(a: Agent, op: OpId) {
    forall g, h :: g in a.replies && h in a.replies && g.op == op && h.op == op ==> g == h
  }

  lemma ReplyMeans(a: Agent, op: OpId)
    requires ReplyInv(a, op)
    ensures AllAlike(a, op)
  {
    forall g, h | g in a.replies && h in a.replies && g.op == op && h.op == op ensures g == h {
      var f :| f in a.pushed && f.op == op;
    }
  }

  lemma {:induction false} ReplyFrom(a: Agent, more: seq<Event>, op: OpId)
    requires CacheInv(a) && ReplyInv(a, op) && !MayDiffer(a, op) && NoMore(more, op)
    ensures var b := RunFrom(a, more); CacheInv(b) && ReplyInv(b, op) && !MayDiffer(b, op)
  {
    if more != [] {
      var init, e := more[..|more| - 1], more[|more| - 1];
      ReplyFrom(a, init, op);
      var b := RunFrom(a, init);
      if Enabled(b, e) {
        CacheKept(b, e);
        ReplyKept(b, e, op);
        var c := Next(b, e);
        assert forall i :: i in c.pending && c.pending[i].req.op == op ==>
          i in b.pending && c.pending[i].req == b.pending[i].req;
      }
    }
  }

  /** A pending delivery can be answered, a launch with any payload. */
  lemma CanFinish(a: Agent, more: seq<Event>, id: nat, payload: Payload, op: OpId) returns (all: seq<Event>)
    requires NoMore(more, op) && id in RunFrom(a, more).pending
    requires RunFrom(a, more).pending[id].req.op == op &&
             (RunFrom(a, more).pending[id].req.Stop? ==> payload == STOPPED)
    ensures NoMore(all, op)
    ensures var b, c := RunFrom(a, more), RunFrom(a, all);
            c.replies == b.replies + [Given(op, payload)] && c.pending == b.pending - {id}
  {
    all := CanAct(a, more, id, op);
    var c := RunFrom(a, all);
    RunSnoc(a, all, Finish(id, Some(payload)));
    Finishes(c, id, payload);
    all := all + [Finish(id, Some(payload))];
  }

  lemma CanAct(a: Agent, more: seq<Event>, id: nat, op: OpId) returns (all: seq<Event>)
    requires NoMore(more, op) && id in RunFrom(a, more).pending && RunFrom(a, more).pending[id].req.op == op
    ensures NoMore(all, op)
    ensures var b, c := RunFrom(a, more), RunFrom(a, all);
            && c.replies == b.replies && id in c.pending && c.pending - {id} == b.pending - {id}
            && c.pending[id].req == b.pending[id].req && c.pending[id].phase != Waiting
            && (c.pending[id].phase == Noted ==> c.pending[id].req.user in c.running)
  {
    var b := RunFrom(a, more);
    var user, phase := b.pending[id].req.user, b.pending[id].phase;
    all := more;
    if phase != Acted {
      var step := if phase == Waiting then Act(id) else Appears(user);
      RunSnoc(a, more, step);
      all := more + [step];
      assert RunFrom(a, all).pending - {id} == b.pending - {id};
    }
  }

  lemma Finishes(c: Agent, id: nat, payload: Payload)
    requires id in c.pending && c.pending[id].phase != Waiting
    requires c.pending[id].phase == Noted ==> c.pending[id].req.user in c.running
    requires c.pending[id].req.Stop? ==> payload == STOPPED
    ensures Enabled(c, Finish(id, Some(payload)))
    ensures var d := Next(c, Finish(id, Some(payload)));
            d.replies == c.replies + [Given(c.pending[id].req.op, payload)] && d.pending == c.pending - {id}
  {}

  lemma DifferentReplies(a: Agent, op: OpId) returns (more: seq<Event>)
    requires MayDiffer(a, op)
    ensures NoMore(more, op) && !AllAlike(RunFrom(a, more), op)
  {
    var i, j :| i in a.pending && j in a.pending && i != j && a.pending[i].req.op == op && a.pending[j].req.op == op
                && a.pending[i].req.Launch?;
    more := CanFinish(a, [], j, STOPPED, op);
    var b := RunFrom(a, more);
    assert b.pending == a.pending - {j} && i in b.pending && b.pending[i] == a.pending[i];
    more := CanFinish(a, more, i, "", op);
    var c := RunFrom(a, more);
    assert c.replies == a.replies + [Given(op, STOPPED)] + [Given(op, "")];
    assert Given(op, STOPPED) in c.replies && Given(op, "") in c.replies;
  }

  /**
   The same reply: as long as no two deliveries that may differ overlap and none comes after 512
   later answers, all successful replies to an operation are alike, and what follows without a
   further delivery can spoil that if and only if two such deliveries overlap now.
   */
  lemma {:induction false} SameReply(run: seq<Event>, op: OpId)
    requires CarefulReplies(run, op)
    ensures AllAlike(Run(run), op)
    ensures MayDiffer(Run(run), op) <==> exists more :: NoMore(more, op) && !AllAlike(RunFrom(Run(run), more), op)
  {
    CacheValidAlways(run);
    ReplyAlong(run, op);
    ReplyMeans(Run(run), op);
    if MayDiffer(Run(run), op) {
      var more := DifferentReplies(Run(run), op);
    } else {
      forall more | NoMore(more, op) ensures AllAlike(RunFrom(Run(run), more), op) {
        ReplyFrom(Run(run), more, op);
        ReplyMeans(RunFrom(Run(run), more), op);
      }
    }
  }

  /** Deliveries one after the other are never at risk: one effect and one answer. */
  lemma SerialIsSafe(run: seq<Event>, op: OpId)
    requires Serial(run, op) && forall i :: 0 <= i < |run| && Begins(run[i], op) ==> InTime(Run(run[..i]), op)
    ensures Run(run).acted[op] <= Run(run).wasted[op] + 1 && AllAlike(Run(run), op)
  {
    forall i | 0 <= i <= |run|
      ensures !AtRisk(Run(run[..i]), op) && !MayDiffer(Run(run[..i]), op)
    {
      assert !Overlapping(Run(run[..i]), op);
    }
    assert run[..|run|] == run;
    ExactlyOneEffect(run, op);
    SameReply(run, op);
  }

  /** Concretely: a stop retried while the first is being finished drives the spawner twice. */
  lemma TwoStopsDriveTwice(op: OpId, user: User)
    ensures var run := [Begin(0, Stop(op, user))] + [Act(0)] + [Begin(1, Stop(op, user))] + [Act(1)];
            Twice(Run(run), op)
  {
    var req := Stop(op, user);
    RunSnoc(FRESH, [], Begin(0, req));
    assert [] + [Begin(0, req)] == [Begin(0, req)];
    RunSnoc(FRESH, [Begin(0, req)], Act(0));
    RunSnoc(FRESH, [Begin(0, req)] + [Act(0)], Begin(1, req));
    RunSnoc(FRESH, [Begin(0, req)] + [Act(0)] + [Begin(1, req)], Act(1));
  }

  /** And a launch retried during the first one's port search spawns a second instance. */
  lemma TwoLaunchesSpawnTwice(op: OpId, user: User, epoch: Option<int>)
    ensures var run := [Begin(0, Launch(op, user, epoch))] + [Begin(1, Launch(op, user, epoch))] + [Act(0)] + [Act(1)];
            Twice(Run(run), op)
  {
    var req := Launch(op, user, epoch);
    RunSnoc(FRESH, [], Begin(0, req));
    assert [] + [Begin(0, req)] == [Begin(0, req)];
    RunSnoc(FRESH, [Begin(0, req)], Begin(1, req));
    RunSnoc(FRESH, [Begin(0, req)] + [Begin(1, req)], Act(0));
    RunSnoc(FRESH, [Begin(0, req)] + [Begin(1, req)] + [Act(0)], Act(1));
  }
}
