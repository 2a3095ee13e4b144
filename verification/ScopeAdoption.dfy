/**
 Taking over the instance scopes a previous process left behind: read the recorded command line
 back, decide what to keep, probe the kept ones one by one, and report exactly once when all
 is settled. Timer ticks and probe results may come in any order.
 */
module ScopeAdoption {
  import opened Basics
  import opened ConfigText

  // ----- reading a recorded command line

  datatype Role = MainRole | WatchdogRole
  datatype Info = Info(userId: string, role: Role, port: Option<nat>, folder: string)

  /** The words of a text: what `split(/\s+/)` leaves after empty pieces are dropped. */
  function Words(text: string): seq<string> {
    if text == "" then []
    else if Space(text[0]) then Words(text[1..])
    else
      var n := WordLen(text);
      [text[..n]] + Words(text[n..])
  }

  function WordLen(text: string): (n: nat)
    ensures n <= |text| && (text != "" && !Space(text[0]) ==> n > 0)
  {
    if text == "" || Space(text[0]) then 0 else 1 + WordLen(text[1..])
  }

  function Unwords(tokens: seq<string>): string {
    if tokens == [] then "" else tokens[0] + " " + Unwords(tokens[1..])
  }

  /** The word after the first occurrence of a flag. */
  function ValueOf(tokens: seq<string>, flag: string): Option<string> {
    if tokens == [] then None
    else if tokens[0] == flag then (if |tokens| > 1 then Some(tokens[1]) else None)
    else ValueOf(tokens[1..], flag)
  }

  const MARKER := "/users/"

  function IndexOf(s: string, what: string): (at: Option<nat>)
    ensures at.Some? ==> at.value + |what| <= |s| && s[at.value..at.value + |what|] == what
    decreases |s|
  {
    if what <= s then Some(0)
    else if s == "" then None
    else
      var rest := IndexOf(s[1..], what);
      if rest.Some? then
        assert s[1..][rest.value..rest.value + |what|] == s[rest.value + 1..rest.value + 1 + |what|];
        Some(rest.value + 1)
      else None
  }

  /** The user a folder belongs to: the path segment after `/users/`. */
  function UserOf(folder: string): Option<string> {
    var at := IndexOf(folder, MARKER);
    if at.None? then None
    else
      var rest := folder[at.value + |MARKER|..];
      var slash := IndexOf(rest, "/");
      var userId := if slash.None? then rest else rest[..slash.value];
      if userId == "" || ' ' in userId then None else Some(userId)
  }

  /** The port a word names, if it is one a process can listen on. */
  function PortOf(word: Option<string>): Option<nat> {
    if word.None? || word.value == "" || !AllOf(word.value, Digit) then None
    else
      var port := FromDecimal(word.value);
      if port == 0 || port > 65535 then None else Some(port)
  }

  function ParseTokens(tokens: seq<string>, uid: nat): Option<Info> {
    var profile, reuid, folder := ValueOf(tokens, "--profile"), ValueOf(tokens, "--reuid"), ValueOf(tokens, "--chdir");
    var portRaw := ValueOf(tokens, "--port");
    if profile != Some("web") && profile != Some("headless") then None
    else if reuid != Some(ToDecimal(uid)) then None
    else if folder.None? || !("/" <= folder.value) then None
    else
      var userId := UserOf(folder.value);
      if userId.None? then None
      else if profile == Some("web") then
        var port := PortOf(portRaw);
        if port.None? then None else Some(Info(userId.value, MainRole, port, folder.value))
      else if portRaw.Some? then None
      else Some(Info(userId.value, WatchdogRole, None, folder.value))
  }

  function ParseScopeDescription(desc: string, uid: nat): Option<Info> {
    ParseTokens(Words(desc), uid)
  }

  datatype Action = Adopt | StopIt(reason: string)

  function DecideScopeAction(info: Option<Info>, dupUid: bool): Action {
    if dupUid then StopIt("dup-uid")
    else if info.None? then StopIt("unparsable")
    else if info.value.role != MainRole then StopIt("no-probe-target")
    else Adopt
  }

  // ----- what a spawn records is read back

  /** Words that hold no white space and are not one of the flags the parser looks for. */
  predicate Neutral(tokens: seq<string>) {
    forall t :: t in tokens ==> Word(t) && t != "--profile" && t != "--reuid" && t != "--chdir" && t != "--port"
  }

  predicate Word(t: string) {
    t != "" && NoneOf(t, Space)
  }

  /** The command line of an instance: sandbox arguments, working directory, identity, program, role, port. */
  function Argv(sandbox: seq<string>, folder: string, setpriv: seq<string>, uid: nat, program: seq<string>,
                role: Role, extra: seq<string>, port: nat): seq<string>
  {
    sandbox + (["--chdir", folder] + (setpriv + (["--reuid", ToDecimal(uid)] + (program
    + (["--profile", if role.MainRole? then "web" else "headless"]
    + (extra + if role.MainRole? then ["--port", ToDecimal(port)] else []))))))
  }

  lemma {:induction false} WordLenOf(word: string, rest: string)
    requires NoneOf(word, Space) && (rest == "" || Space(rest[0]))
    ensures WordLen(word + rest) == |word|
  {
    if word == "" {
      assert word + rest == rest;
    } else {
      assert (word + rest)[1..] == word[1..] + rest;
      WordLenOf(word[1..], rest);
    }
  }

  /** Words without white space survive being written one after the other and split again. */
  lemma {:induction false} WordsRoundTrip(tokens: seq<string>)
    requires forall t :: t in tokens ==> Word(t)
    ensures Words(Unwords(tokens)) == tokens
  {
    if tokens != [] {
      var t, rest := tokens[0], " " + Unwords(tokens[1..]);
      assert t in tokens;
      assert Unwords(tokens) == t + rest;
      WordLenOf(t, rest);
      assert (t + rest)[..|t|] == t && (t + rest)[|t|..] == rest;
      assert rest[1..] == Unwords(tokens[1..]);
      WordsRoundTrip(tokens[1..]);
    }
  }

  lemma {:induction false} ValueSkips(before: seq<string>, after: seq<string>, flag: string)
    requires flag !in before
    ensures ValueOf(before + after, flag) == ValueOf(after, flag)
  {
    if before == [] {
      assert before + after == after;
    } else {
      assert (before + after)[1..] == before[1..] + after;
      ValueSkips(before[1..], after, flag);
    }
  }

  lemma ValueSkipsPair(a: string, b: string, after: seq<string>, flag: string)
    requires a != flag && b != flag
    ensures ValueOf([a, b] + after, flag) == ValueOf(after, flag)
  {
    ValueSkips([a, b], after, flag);
  }

  lemma ValueFound(flag: string, value: string, after: seq<string>)
    ensures ValueOf([flag, value] + after, flag) == Some(value)
  {}

  lemma DecimalIsWord(n: nat)
    ensures Word(ToDecimal(n)) && ToDecimal(n)[0] != '-'
  {
    DecimalRoundTrip(n);
  }

  /** Looking a flag up in the command line of an instance. */
  lemma ArgvValues(sandbox: seq<string>, folder: string, setpriv: seq<string>, uid: nat, program: seq<string>,
                   role: Role, extra: seq<string>, port: nat)
    requires Neutral(sandbox) && Neutral(setpriv) && Neutral(program) && Neutral(extra)
    requires "/" <= folder
    ensures var argv := Argv(sandbox, folder, setpriv, uid, program, role, extra, port);
            && ValueOf(argv, "--chdir") == Some(folder)
            && ValueOf(argv, "--reuid") == Some(ToDecimal(uid))
            && ValueOf(argv, "--profile") == Some(if role.MainRole? then "web" else "headless")
            && ValueOf(argv, "--port") == if role.MainRole? then Some(ToDecimal(port)) else None
  {
    var prof := if role.MainRole? then "web" else "headless";
    var t6 := if role.MainRole? then ["--port", ToDecimal(port)] else [];
    var t5 := extra + t6;
    var t4 := ["--profile", prof] + t5;
    var t3 := program + t4;
    var t2 := ["--reuid", ToDecimal(uid)] + t3;
    var t1 := setpriv + t2;
    var t0 := ["--chdir", folder] + t1;
    DecimalIsWord(uid);
    DecimalIsWord(port);
    FindChdir(sandbox, folder, t1);
    SkipTo(sandbox, folder, setpriv, t2, "--reuid");
    ValueFound("--reuid", ToDecimal(uid), t3);
    SkipTo(sandbox, folder, setpriv, t2, "--profile");
    SkipTo(sandbox, folder, setpriv, t2, "--port");
    FindLater(uid, program, prof, t5, extra, t6);
  }

  lemma FindChdir(sandbox: seq<string>, folder: string, rest: seq<string>)
    requires Neutral(sandbox)
    ensures ValueOf(sandbox + (["--chdir", folder] + rest), "--chdir") == Some(folder)
  {
    ValueSkips(sandbox, ["--chdir", folder] + rest, "--chdir");
    ValueFound("--chdir", folder, rest);
  }

  lemma SkipTo(sandbox: seq<string>, folder: string, setpriv: seq<string>, rest: seq<string>, flag: string)
    requires Neutral(sandbox) && Neutral(setpriv) && "/" <= folder
    requires flag in ["--reuid", "--profile", "--port"]
    ensures ValueOf(sandbox + (["--chdir", folder] + (setpriv + rest)), flag) == ValueOf(rest, flag)
  {
    assert flag != "--chdir" && flag[0] == '-' && folder[0] == '/';
    ValueSkips(sandbox, ["--chdir", folder] + (setpriv + rest), flag);
    ValueSkipsPair("--chdir", folder, setpriv + rest, flag);
    ValueSkips(setpriv, rest, flag);
  }

  lemma FindLater(uid: nat, program: seq<string>, prof: string, t5: seq<string>, extra: seq<string>, t6: seq<string>)
    requires Neutral(program) && Neutral(extra) && t5 == extra + t6 && (prof == "web" || prof == "headless")
    ensures var t2 := ["--reuid", ToDecimal(uid)] + (program + (["--profile", prof] + t5));
            ValueOf(t2, "--profile") == Some(prof) && ValueOf(t2, "--port") == ValueOf(t6, "--port")
  {
    DecimalIsWord(uid);
    var t4 := ["--profile", prof] + t5;
    ValueSkipsPair("--reuid", ToDecimal(uid), program + t4, "--profile");
    ValueSkips(program, t4, "--profile");
    ValueFound("--profile", prof, t5);
    ValueSkipsPair("--reuid", ToDecimal(uid), program + t4, "--port");
    ValueSkips(program, t4, "--port");
    ValueSkipsPair("--profile", prof, t5, "--port");
    ValueSkips(extra, t6, "--port");
  }

  /**
   What a spawn records is what adoption reads: the command line of an instance, written as
   words, gives back its user, role, port and folder.
   */
  lemma SpawnedIsRecognised(sandbox: seq<string>, folder: string, setpriv: seq<string>, uid: nat, program: seq<string>,
                            role: Role, extra: seq<string>, port: nat)
    requires Neutral(sandbox) && Neutral(setpriv) && Neutral(program) && Neutral(extra)
    requires "/" <= folder && Word(folder) && UserOf(folder).Some? && 1 <= port <= 65535
    ensures ParseScopeDescription(Unwords(Argv(sandbox, folder, setpriv, uid, program, role, extra, port)), uid)
            == Some(Info(UserOf(folder).value, role, if role.MainRole? then Some(port) else None, folder))
  {
    var argv := Argv(sandbox, folder, setpriv, uid, program, role, extra, port);
    ArgvIsWords(sandbox, folder, setpriv, uid, program, role, extra, port);
    WordsRoundTrip(argv);
    ArgvValues(sandbox, folder, setpriv, uid, program, role, extra, port);
    DecimalRoundTrip(port);
  }

  predicate AllWords(tokens: seq<string>) {
    forall t :: t in tokens ==> Word(t)
  }

  lemma WordsSum(a: seq<string>, b: seq<string>)
    requires AllWords(a) && AllWords(b)
    ensures AllWords(a + b)
  {}

  lemma WordPair(a: string, b: string, after: seq<string>)
    requires Word(a) && Word(b) && AllWords(after)
    ensures AllWords([a, b] + after)
  {}

  lemma NeutralWords(tokens: seq<string>, after: seq<string>)
    requires Neutral(tokens) && AllWords(after)
    ensures AllWords(tokens + after)
  {
    WordsSum(tokens, after);
  }

  lemma RoleIsWords(program: seq<string>, role: Role, prof: string, extra: seq<string>, port: nat, t6: seq<string>)
    requires Neutral(program) && Neutral(extra) && (prof == "web" || prof == "headless")
    requires t6 == if role.MainRole? then ["--port", ToDecimal(port)] else []
    ensures AllWords(program + (["--profile", prof] + (extra + t6)))
  {
    DecimalIsWord(port);
    if role.MainRole? { WordPair("--port", ToDecimal(port), []); }
    NeutralWords(extra, t6);
    WordPair("--profile", prof, extra + t6);
    NeutralWords(program, ["--profile", prof] + (extra + t6));
  }

  lemma {:induction false} ArgvIsWords(sandbox: seq<string>, folder: string, setpriv: seq<string>, uid: nat,
                                       program: seq<string>, role: Role, extra: seq<string>, port: nat)
    requires Neutral(sandbox) && Neutral(setpriv) && Neutral(program) && Neutral(extra) && Word(folder)
    ensures AllWords(Argv(sandbox, folder, setpriv, uid, program, role, extra, port))
  {
    DecimalIsWord(uid);
    var t6 := if role.MainRole? then ["--port", ToDecimal(port)] else [];
    var prof := if role.MainRole? then "web" else "headless";
    RoleIsWords(program, role, prof, extra, port, t6);
    var t3 := program + (["--profile", prof] + (extra + t6));
    WordPair("--reuid", ToDecimal(uid), t3);
    NeutralWords(setpriv, ["--reuid", ToDecimal(uid)] + t3);
    WordPair("--chdir", folder, setpriv + (["--reuid", ToDecimal(uid)] + t3));
    NeutralWords(sandbox, ["--chdir", folder] + (setpriv + (["--reuid", ToDecimal(uid)] + t3)));
  }

  /** A main that is recognised has a port it can listen on, and the scope's own uid. */
  lemma RecognisedMain(desc: string, uid: nat)
    ensures var info := ParseScopeDescription(desc, uid);
            info.Some? ==> (info.value.role.MainRole? <==> info.value.port.Some?)
                           && (info.value.port.Some? ==> 1 <= info.value.port.value <= 65535)
                           && UserOf(info.value.folder) == Some(info.value.userId)
  {}

  // ----- one round of adoption

  datatype Scope = Scope(unit: string, uid: nat, desc: string)

  /** Unit names come from the service manager, and a unit's uid is read off its name. */
  ghost predicate Scanned(found: seq<Scope>, uidOf: string -> nat) {
    forall i :: 0 <= i < |found| ==> found[i].uid == uidOf(found[i].unit)
  }

  function CountUid(found: seq<Scope>, uid: nat): nat {
    if found == [] then 0 else CountUid(found[..|found| - 1], uid) + if found[|found| - 1].uid == uid then 1 else 0
  }

  function ActionFor(found: seq<Scope>, i: nat): Action
    requires i < |found|
  {
    DecideScopeAction(ParseScopeDescription(found[i].desc, found[i].uid), CountUid(found, found[i].uid) > 1)
  }

  /** What is to be done with each scanned scope, in order. */
  datatype Verdict = Verdict(unit: string, action: Action, port: Option<nat>)

  function VerdictFor(found: seq<Scope>, i: nat): Verdict
    requires i < |found|
  {
    var info := ParseScopeDescription(found[i].desc, found[i].uid);
    Verdict(found[i].unit, ActionFor(found, i), if info.Some? then info.value.port else None)
  }

  function Verdicts(found: seq<Scope>): seq<Verdict> {
    seq(|found|, i requires 0 <= i < |found| => VerdictFor(found, i))
  }

  datatype Round = Round(
    next: nat,                    // the next scope to handle
    inflight: set<nat>,           // probes without a result
    adopted: map<string, nat>,    // unit -> scope, as long as it is kept
    alive: set<nat>,              // scopes whose probe succeeded
    failed: set<nat>,
    cleaned: set<nat>,            // adopted scopes whose unit a spawn for their user stopped since
    stops: seq<string>,           // units told to stop, in order
    scanned: nat, adoptedCount: nat, stopped: nat, probeOk: nat, probeFail: nat,
    pending: nat, scheduled: bool, notified: nat)

  /** `Cleaned`: a spawn for a user stops the listed units of that user, adopted or not. */
  datatype Event = Tick | Probe(scope: nat, ok: bool) | Cleaned(units: seq<string>)

  function MaybeSettled(r: Round): Round {
    if !r.scheduled || r.pending > 0 then r else r.(scheduled := false, notified := r.notified + 1)
  }

  function Settle(r: Round): Round {
    MaybeSettled(r.(scheduled := true))
  }

  function Begin(plan: seq<Verdict>): Round {
    var r := Round(0, {}, map[], {}, {}, {}, [], |plan|, 0, 0, 0, 0, 0, false, 0);
    if plan == [] then Settle(r) else r
  }

  function AdoptOne(v: Verdict, r: Round, i: nat): Round {
    if v.action.StopIt? then r.(stopped := r.stopped + 1, stops := r.stops + [v.unit])
    else
      var kept := r.(adopted := r.adopted[v.unit := i], adoptedCount := r.adoptedCount + 1);
      if v.port.None? then
        MaybeSettled(kept.(stopped := r.stopped + 1, adopted := r.adopted - {v.unit}, stops := r.stops + [v.unit]))
      else kept.(pending := r.pending + 1, inflight := r.inflight + {i})
  }

  function ProbeDone(unit: string, r: Round, i: nat, ok: bool): Round {
    var d := if ok then ProbeSucceeded(r, i) else ProbeFailed(unit, r, i);
    MaybeSettled(d.(inflight := r.inflight - {i}, pending := if r.pending > 0 then r.pending - 1 else 0))
  }

  function ProbeSucceeded(r: Round, i: nat): Round {
    r.(alive := r.alive + {i}, probeOk := r.probeOk + 1)
  }

  function ProbeFailed(unit: string, r: Round, i: nat): Round {
    r.(failed := r.failed + {i}, probeFail := r.probeFail + 1, stopped := r.stopped + 1,
       adopted := r.adopted - {unit}, stops := r.stops + [unit])
  }

  /** The scopes adopted so far, still kept or not, whose unit is one of these. */
  ghost function Hit(plan: seq<Verdict>, next: nat, units: seq<string>): set<nat> {
    set i | 0 <= i < next && i < |plan| && plan[i].action.Adopt? && plan[i].unit in units
  }

  function Dropped(units: seq<string>): set<string> {
    set u | u in units
  }

  /** A tick after the last scope, and a second event of one probe, do nothing. */
  ghost function Next(plan: seq<Verdict>, r: Round, e: Event): Round {
    match e
    case Tick =>
      if r.next >= |plan| then r
      else
        var d := AdoptOne(plan[r.next], r, r.next).(next := r.next + 1);
        if d.next >= |plan| then Settle(d) else d
    case Probe(i, ok) => if i in r.inflight && i < |plan| then ProbeDone(plan[i].unit, r, i, ok) else r
    case Cleaned(units) =>
      r.(adopted := r.adopted - Dropped(units), cleaned := r.cleaned + Hit(plan, r.next, units),
         stops := r.stops + units)
  }

  ghost function Run(plan: seq<Verdict>, events: seq<Event>): Round {
    if events == [] then Begin(plan) else Next(plan, Run(plan, events[..|events| - 1]), events[|events| - 1])
  }

  predicate Finished(plan: seq<Verdict>, r: Round) {
    r.next >= |plan| && r.inflight == {}
  }

  /** What the verdicts on scanned scopes guarantee: an adopted scope has a port, and its unit to itself. */
  ghost predicate Sound(plan: seq<Verdict>) {
    && (forall i :: 0 <= i < |plan| && plan[i].action.Adopt? ==> plan[i].port.Some?)
    && (forall i, j :: 0 <= i < |plan| && 0 <= j < |plan| && plan[i].action.Adopt? && plan[j].unit == plan[i].unit ==>
        i == j)
  }

  /** Which scopes are waiting for a probe result, were found alive, or were not. */
  ghost predicate SetsInv(plan: seq<Verdict>, r: Round) {
    && r.next <= |plan|
    && (forall i :: i in r.inflight || i in r.alive || i in r.failed ==> i < r.next && plan[i].action.Adopt?)
    && r.inflight !! r.alive && r.inflight !! r.failed && r.alive !! r.failed
    && (forall unit :: unit in r.adopted ==>
          r.adopted[unit] in (r.inflight + r.alive) - r.cleaned && r.adopted[unit] < |plan| &&
            plan[r.adopted[unit]].unit == unit)
    && (forall i :: i in (r.inflight + r.alive) - r.cleaned ==>
        plan[i].unit in r.adopted && r.adopted[plan[i].unit] == i)
    && (forall i :: i in r.cleaned ==> i < r.next)
  }

  /** The counters that follow the sets. */
  ghost predicate Books(r: Round) {
    && |r.inflight| == r.pending && |r.alive| == r.probeOk && |r.failed| == r.probeFail
    && r.adoptedCount == r.probeOk + r.probeFail + r.pending
  }

  ghost predicate CountsInv(plan: seq<Verdict>, r: Round) {
    && Books(r) && r.scanned == |plan|
    && r.next == r.stopped + r.probeOk + r.pending
    && r.notified == (if r.next >= |plan| && r.pending == 0 then 1 else 0)
    && (r.scheduled <==> r.next >= |plan| && r.pending > 0)
  }

  ghost predicate Inv(plan: seq<Verdict>, r: Round) {
    SetsInv(plan, r) && CountsInv(plan, r)
  }

  lemma {:induction false} CountUidOne(found: seq<Scope>, i: nat)
    requires i < |found|
    ensures CountUid(found, found[i].uid) >= 1
    ensures forall j :: 0 <= j < |found| && j != i && found[j].uid == found[i].uid ==>
            CountUid(found, found[i].uid) >= 2
  {
    var init, last := found[..|found| - 1], found[|found| - 1];
    if i < |found| - 1 {
      CountUidOne(init, i);
    } else {
      forall j | 0 <= j < |found| - 1 && found[j].uid == found[i].uid
        ensures CountUid(init, found[i].uid) >= 1
      {
        CountUidOne(init, j);
      }
    }
  }

  /** A scope that is adopted is the only one of its uid, so the only one of its unit. */
  lemma AdoptedIsAlone(found: seq<Scope>, uidOf: string -> nat, i: nat, j: nat)
    requires Scanned(found, uidOf) && i < |found| && j < |found| && found[i].unit == found[j].unit
    requires ActionFor(found, i).Adopt?
    ensures i == j
  {
    CountUidOne(found, i);
  }

  lemma {:induction false} VerdictsAreSound(found: seq<Scope>, uidOf: string -> nat)
    requires Scanned(found, uidOf)
    ensures Sound(Verdicts(found))
  {
    var plan := Verdicts(found);
    forall i | 0 <= i < |plan| && plan[i].action.Adopt?
      ensures plan[i].port.Some?
    {
      RecognisedMain(found[i].desc, found[i].uid);
    }
    forall i, j | 0 <= i < |plan| && 0 <= j < |plan| && plan[i].action.Adopt? && plan[j].unit == plan[i].unit
      ensures i == j
    {
      AdoptedIsAlone(found, uidOf, i, j);
    }
  }

  lemma TickKeepsSets(plan: seq<Verdict>, r: Round)
    requires Sound(plan) && SetsInv(plan, r) && r.next < |plan|
    ensures SetsInv(plan, Next(plan, r, Tick))
  {
    var d := Next(plan, r, Tick);
    if plan[r.next].action.Adopt? {
      assert d.inflight == r.inflight + {r.next} && d.adopted == r.adopted[plan[r.next].unit := r.next];
    }
  }

  lemma AdoptKeepsBooks(v: Verdict, r: Round, i: nat)
    requires Books(r) && i !in r.inflight && (v.action.Adopt? ==> v.port.Some?)
    ensures var d := AdoptOne(v, r, i);
            && Books(d) && d.stopped + d.pending == r.stopped + r.pending + 1 && d.probeOk == r.probeOk
            && d.scheduled == r.scheduled && d.notified == r.notified && d.scanned == r.scanned
  {
    assert |r.inflight + {i}| == |r.inflight| + 1;
  }

  lemma TickKeepsCounts(plan: seq<Verdict>, r: Round)
    requires Sound(plan) && Inv(plan, r) && r.next < |plan|
    ensures CountsInv(plan, Next(plan, r, Tick))
  {
    AdoptKeepsBooks(plan[r.next], r, r.next);
    var d := AdoptOne(plan[r.next], r, r.next).(next := r.next + 1);
    SettleCounts(plan, d);
  }

  lemma SettleCounts(plan: seq<Verdict>, d: Round)
    requires Books(d) && d.scanned == |plan| && d.next == d.stopped + d.probeOk + d.pending
    requires !d.scheduled && d.notified == 0
    ensures CountsInv(plan, if d.next >= |plan| then Settle(d) else d)
  {}

  lemma ProbeKeepsSets(plan: seq<Verdict>, r: Round, i: nat, ok: bool)
    requires Sound(plan) && SetsInv(plan, r) && i in r.inflight
    ensures SetsInv(plan, Next(plan, r, Probe(i, ok)))
  {
    var d := Next(plan, r, Probe(i, ok));
    assert d.inflight == r.inflight - {i};
    assert d.adopted == if ok then r.adopted else r.adopted - {plan[i].unit};
  }

  lemma CleaningKeepsSets(plan: seq<Verdict>, r: Round, units: seq<string>)
    requires Sound(plan) && SetsInv(plan, r)
    ensures SetsInv(plan, Next(plan, r, Cleaned(units)))
  {
    var d := Next(plan, r, Cleaned(units));
    assert forall unit :: unit in d.adopted <==> unit in r.adopted && unit !in units;
    assert forall i :: i in d.cleaned <==> i in r.cleaned || i in Hit(plan, r.next, units);
  }

  lemma ProbeKeepsCounts(plan: seq<Verdict>, r: Round, i: nat, ok: bool)
    requires Inv(plan, r) && i in r.inflight
    ensures CountsInv(plan, Next(plan, r, Probe(i, ok)))
  {
    assert i !in r.alive && i !in r.failed;
    assert |r.inflight - {i}| == |r.inflight| - 1;
  }

  lemma {:induction false} NextKeepsInv(plan: seq<Verdict>, r: Round, e: Event)
    requires Sound(plan) && Inv(plan, r)
    ensures Inv(plan, Next(plan, r, e))
  {
    match e
    case Tick => if r.next < |plan| { TickKeepsSets(plan, r); TickKeepsCounts(plan, r); }
    case Probe(i, ok) => if i in r.inflight { ProbeKeepsSets(plan, r, i, ok); ProbeKeepsCounts(plan, r, i, ok); }
    case Cleaned(units) => CleaningKeepsSets(plan, r, units);
  }

  lemma {:induction false} RunKeepsInv(plan: seq<Verdict>, events: seq<Event>)
    requires Sound(plan)
    ensures Inv(plan, Run(plan, events))
  {
    if events != [] {
      RunKeepsInv(plan, events[..|events| - 1]);
      NextKeepsInv(plan, Run(plan, events[..|events| - 1]), events[|events| - 1]);
    }
  }

  // ----- the promises

  /**
   For every scan and every order of ticks and probe results, the settled callback has been
   called once if all scopes are handled and no probe is pending, and not yet otherwise; after
   that only later spawns change anything, by what they clean away.
   */
  lemma {:induction false} SettlesExactlyOnce(found: seq<Scope>, uidOf: string -> nat, events: seq<Event>,
                                              later: seq<Event>)
    requires Scanned(found, uidOf)
    ensures var plan := Verdicts(found);
            && Run(plan, events).notified == (if Finished(plan, Run(plan, events)) then 1 else 0)
            && (Finished(plan, Run(plan, events)) ==> CleanedOnly(Run(plan, events), Run(plan, events + later)))
  {
    VerdictsAreSound(found, uidOf);
    RunKeepsInv(Verdicts(found), events);
    if Finished(Verdicts(found), Run(Verdicts(found), events)) {
      NothingFollows(Verdicts(found), events, later);
    }
  }

  /** The rounds are the same except that some units were cleaned away. */
  ghost predicate CleanedOnly(r: Round, d: Round) {
    d == r.(adopted := d.adopted, cleaned := d.cleaned, stops := d.stops) && d.adopted.Keys <= r.adopted.Keys &&
      r.stops <= d.stops
  }

  lemma {:induction false} NothingFollows(plan: seq<Verdict>, events: seq<Event>, later: seq<Event>)
    requires Finished(plan, Run(plan, events))
    ensures CleanedOnly(Run(plan, events), Run(plan, events + later))
  {
    if later == [] {
      assert events + later == events;
    } else {
      var init := later[..|later| - 1];
      NothingFollows(plan, events, init);
      assert (events + later)[..|events + later| - 1] == events + init;
    }
  }

  /** At that moment the counters add up: every adopted scope was probed, every scanned one stopped or found alive. */
  lemma SettledCountsAddUp(found: seq<Scope>, uidOf: string -> nat, events: seq<Event>)
    requires Scanned(found, uidOf)
    ensures var r := Run(Verdicts(found), events);
            && r.adoptedCount == r.probeOk + r.probeFail + |r.inflight|
            && (r.notified == 1 ==> r.adoptedCount == r.probeOk + r.probeFail && r.scanned == r.stopped + r.probeOk)
  {
    VerdictsAreSound(found, uidOf);
    RunKeepsInv(Verdicts(found), events);
  }

  /**
   What stays adopted is exactly the scopes found alive and not cleaned away by a spawn for their
   user since: each a recognised main, alone under its uid.
   */
  lemma SettledKeepsTheLiving(found: seq<Scope>, uidOf: string -> nat, events: seq<Event>, unit: string)
    requires Scanned(found, uidOf) && Run(Verdicts(found), events).notified == 1
    ensures var r := Run(Verdicts(found), events);
            && (unit in r.adopted
                <==> exists i :: i in r.alive && i !in r.cleaned && i < |found| && found[i].unit == unit)
            && (unit in r.adopted ==>
                  var i := r.adopted[unit];
                  && i in r.alive && i !in r.cleaned && i < |found| && CountUid(found, found[i].uid) == 1
                  && var info := ParseScopeDescription(found[i].desc, found[i].uid);
                     info.Some? && info.value.role.MainRole? && info.value.port.Some?)
  {
    var plan := Verdicts(found);
    VerdictsAreSound(found, uidOf);
    RunKeepsInv(plan, events);
    var r := Run(plan, events);
    if unit in r.adopted {
      var i := r.adopted[unit];
      assert i in r.inflight + r.alive && plan[i].action.Adopt?;
      AdoptedIsMain(found, i);
      AliveHasItsUnit(plan, r, unit);
    }
  }

  lemma AliveHasItsUnit(plan: seq<Verdict>, r: Round, unit: string)
    requires SetsInv(plan, r) && unit in r.adopted && Sound(plan)
    ensures r.adopted[unit] < |plan| && plan[r.adopted[unit]].unit == unit
  {}

  lemma {:induction false} AdoptedIsMain(found: seq<Scope>, i: nat)
    requires i < |found| && ActionFor(found, i).Adopt?
    ensures CountUid(found, found[i].uid) == 1
    ensures var info := ParseScopeDescription(found[i].desc, found[i].uid);
            info.Some? && info.value.role.MainRole? && info.value.port.Some?
  {
    CountUidOne(found, i);
    RecognisedMain(found[i].desc, found[i].uid);
  }

  /** Work that remains: two events for each scope not handled, one for each probe in flight. */
  function Remaining(plan: seq<Verdict>, r: Round): int {
    2 * (|plan| - r.next) + |r.inflight|
  }

  /** Until it settles there is always an event to come, and every such event brings it closer. */
  lemma {:induction false} AlwaysProgress(found: seq<Scope>, uidOf: string -> nat, events: seq<Event>, e: Event)
    requires Scanned(found, uidOf)
    ensures var plan := Verdicts(found); var r := Run(plan, events);
            && (r.notified == 0 ==> r.next < |plan| || r.inflight != {})
            && (Enabled(plan, r, e) ==> 0 <= Remaining(plan, Next(plan, r, e)) < Remaining(plan, r))
  {
    VerdictsAreSound(found, uidOf);
    PlanProgress(Verdicts(found), events, e);
  }

  predicate Enabled(plan: seq<Verdict>, r: Round, e: Event) {
    (e.Tick? && r.next < |plan|) || (e.Probe? && e.scope in r.inflight)
  }

  lemma PlanProgress(plan: seq<Verdict>, events: seq<Event>, e: Event)
    requires Sound(plan)
    ensures var r := Run(plan, events);
            && (r.notified == 0 ==> r.next < |plan| || r.inflight != {})
            && (Enabled(plan, r, e) ==> 0 <= Remaining(plan, Next(plan, r, e)) < Remaining(plan, r))
  {
    RunKeepsInv(plan, events);
    if Enabled(plan, Run(plan, events), e) {
      StepProgress(plan, Run(plan, events), e);
    }
  }

  lemma StepProgress(plan: seq<Verdict>, r: Round, e: Event)
    requires Sound(plan) && Inv(plan, r) && Enabled(plan, r, e)
    ensures 0 <= Remaining(plan, Next(plan, r, e)) < Remaining(plan, r)
  {
    match e
    case Tick =>
      AdoptWork(plan[r.next], r, r.next);
      var d := AdoptOne(plan[r.next], r, r.next).(next := r.next + 1);
      assert Settle(d).inflight == d.inflight && Settle(d).next == d.next;
    case Probe(i, ok) => ProbeWork(plan[i].unit, r, i, ok);
    case Cleaned(_) =>
  }

  lemma AdoptWork(v: Verdict, r: Round, i: nat)
    ensures |AdoptOne(v, r, i).inflight| <= |r.inflight| + 1
  {
    assert |r.inflight + {i}| <= |r.inflight| + 1;
  }

  lemma ProbeWork(unit: string, r: Round, i: nat, ok: bool)
    requires i in r.inflight
    ensures |ProbeDone(unit, r, i, ok).inflight| == |r.inflight| - 1 && ProbeDone(unit, r, i, ok).next == r.next
  {
    assert |r.inflight - {i}| == |r.inflight| - 1;
  }

  // ----- whose units a spawn cleans away

  /** The units a cleaning for a uid stops. */
  predicate CleanName(uid: nat, name: string) {
    "dsh-" + ToDecimal(uid) + "-" <= name && |name| >= 6 && name[|name| - 6..] == ".scope"
  }

  function OwnUnits(listed: seq<string>, uid: nat): seq<string> {
    if listed == [] then []
    else
      OwnUnits(listed[..|listed| - 1], uid)
      + if CleanName(uid, listed[|listed| - 1]) then [listed[|listed| - 1]] else []
  }

  lemma OwnUnitsSnoc(listed: seq<string>, i: nat, uid: nat)
    requires i < |listed|
    ensures OwnUnits(listed[..i + 1], uid)
            == OwnUnits(listed[..i], uid) + if CleanName(uid, listed[i]) then [listed[i]] else []
  {
    assert listed[..i + 1][..i] == listed[..i];
  }

  lemma DroppedSnoc(units: seq<string>, unit: string)
    ensures Dropped(units + [unit]) == Dropped(units) + {unit}
  {
    assert forall u :: u in units + [unit] <==> u in units || u == unit;
  }

  /** The unit a spawn starts for a uid. */
  function UnitName(uid: nat, tail: string): string {
    "dsh-" + ToDecimal(uid) + "-" + tail + ".scope"
  }

  /** A run of digits is known by the dash after it. */
  lemma {:induction false} DigitsEnd(a: string, b: string, rest: string)
    requires AllOf(a, Digit) && AllOf(b, Digit) && a + "-" <= b + ("-" + rest)
    ensures a == b
  {
    var x, y := a + "-", b + ("-" + rest);
    assert x[0] == y[0];
    if a != "" && b != "" {
      assert x[1..] == a[1..] + "-" && y[1..] == b[1..] + ("-" + rest);
      DigitsEnd(a[1..], b[1..], rest);
    }
  }

  /** No user's spawn cleans away another user's unit, whatever digits the uids share. */
  lemma CleaningIsByUid(uid: nat, owner: nat, tail: string)
    ensures CleanName(uid, UnitName(owner, tail)) <==> uid == owner
  {
    DecimalRoundTrip(uid);
    DecimalRoundTrip(owner);
    PrefixIsDigits(ToDecimal(uid), ToDecimal(owner), tail);
  }

  lemma PrefixIsDigits(a: string, b: string, tail: string)
    requires AllOf(a, Digit) && AllOf(b, Digit)
    ensures var name := "dsh-" + b + "-" + tail + ".scope";
            ("dsh-" + a + "-" <= name <==> a == b) && |name| >= 6 && name[|name| - 6..] == ".scope"
  {
    var rest, prefix := tail + ".scope", "dsh-" + a + "-";
    var name := "dsh-" + b + "-" + tail + ".scope";
    assert name == "dsh-" + (b + ("-" + rest)) && prefix == "dsh-" + (a + "-");
    if prefix <= name {
      assert name[4..] == b + ("-" + rest) && prefix[4..] == a + "-";
      DigitsEnd(a, b, rest);
    }
  }

  // ----- the object

  /** The adoption part of the spawner, with the counters it reports. */
  class ScopeAdopter {
    const found: seq<Scope>
    ghost const plan: seq<Verdict>
    var perUid: map<nat, nat>
    var adopted: map<string, nat>
    var nextIndex: nat
    var scanned: nat
    var adoptedCount: nat
    var stopped: nat
    var probeOk: nat
    var probeFail: nat
    var pendingProbes: nat
    var rehydrateScheduled: bool
    var stops: seq<string>
    ghost var inflight: set<nat>
    ghost var alive: set<nat>
    ghost var failed: set<nat>
    ghost var cleaned: set<nat>
    ghost var notified: nat

    ghost function Model(): Round
      reads this
    {
      Round(nextIndex, inflight, adopted, alive, failed, cleaned, stops, scanned, adoptedCount, stopped, probeOk,
            probeFail, pendingProbes, rehydrateScheduled, notified)
    }

    /** The plan lists the units in scan order. */
    ghost predicate Planned() {
      |plan| == |found| && forall i :: 0 <= i < |found| ==> plan[i].unit == found[i].unit
    }

    /** The plan holds the verdicts, and every scanned uid has been counted. */
    ghost predicate Counted()
      reads `perUid
    {
      && plan == Verdicts(found)
      && forall i :: 0 <= i < |found| ==>
         found[i].uid in perUid && perUid[found[i].uid] == CountUid(found, found[i].uid)
    }

    constructor (found: seq<Scope>)
      ensures this.found == found && Planned() && Counted() && Model() == Begin(plan)
    {
      this.found, plan := found, Verdicts(found);
      adopted, nextIndex, scanned, stops := map[], 0, |found|, [];
      adoptedCount, stopped, probeOk, probeFail, pendingProbes, rehydrateScheduled := 0, 0, 0, 0, 0, false;
      inflight, alive, failed, cleaned, notified := {}, {}, {}, {}, 0;
      new;
      perUid := CountUids(found);
      if |found| == 0 { SettleRehydrate(); }
    }

    static method CountUids(found: seq<Scope>) returns (perUid: map<nat, nat>)
      ensures forall i :: 0 <= i < |found| ==>
              found[i].uid in perUid && perUid[found[i].uid] == CountUid(found, found[i].uid)
    {
      perUid := map[];
      for i := 0 to |found|
        invariant forall uid :: uid in perUid ==> perUid[uid] == CountUid(found[..i], uid)
        invariant forall uid :: uid !in perUid ==> CountUid(found[..i], uid) == 0
      {
        assert found[..i + 1][..i] == found[..i];
        var uid := found[i].uid;
        perUid := perUid[uid := (if uid in perUid then perUid[uid] else 0) + 1];
      }
      assert found[..|found|] == found;
      forall i | 0 <= i < |found|
        ensures CountUid(found, found[i].uid) > 0
      {
        CountUidOne(found, i);
      }
    }

    method MaybeRehydrateSettled()
      modifies `rehydrateScheduled, `notified
      ensures Model() == MaybeSettled(old(Model()))
    {
      if !rehydrateScheduled || pendingProbes > 0 { return; }
      rehydrateScheduled := false;
      notified := notified + 1;
    }

    method SettleRehydrate()
      modifies `rehydrateScheduled, `notified
      ensures Model() == Settle(old(Model()))
    {
      rehydrateScheduled := true;
      MaybeRehydrateSettled();
    }

    method Judge(i: nat) returns (v: Verdict)
      requires Counted() && i < |found|
      ensures |plan| == |found| && v == plan[i]
    {
      var info := ParseScopeDescription(found[i].desc, found[i].uid);
      var action := DecideScopeAction(info, perUid[found[i].uid] > 1);
      v := Verdict(found[i].unit, action, if info.Some? then info.value.port else None);
    }

    /** Stops a scope that is not adopted, or registers it and starts its probe. */
    method TakeOne(v: Verdict, i: nat)
      modifies this
      ensures Model() == AdoptOne(v, old(Model()), i) && unchanged(`perUid)
    {
      if v.action.StopIt? {
        stopped := stopped + 1;
        stops := stops + [v.unit];
        return;
      }
      adopted := adopted[v.unit := i];
      adoptedCount := adoptedCount + 1;
      if v.port.None? {
        stopped := stopped + 1;
        assert adopted - {v.unit} == old(adopted) - {v.unit};
        adopted := adopted - {v.unit};
        stops := stops + [v.unit];
        MaybeRehydrateSettled();
        return;
      }
      pendingProbes := pendingProbes + 1;
      inflight := inflight + {i};
    }

    method OnTick()
      requires Planned() && Counted()
      modifies this
      ensures Counted() && Model() == Next(plan, old(Model()), Tick)
    {
      if nextIndex >= |found| { return; }
      var v := Judge(nextIndex);
      TakeOne(v, nextIndex);
      nextIndex := nextIndex + 1;
      if nextIndex >= |found| { SettleRehydrate(); }
    }

    /** The first event of a probe's socket; later ones do not get here. */
    method OnProbe(i: nat, ok: bool)
      requires Planned() && i in inflight && i < |found| && pendingProbes > 0
      modifies `probeOk, `probeFail, `stopped, `adopted, `stops, `alive, `failed, `inflight, `pendingProbes,
               `rehydrateScheduled, `notified
      ensures Model() == Next(plan, old(Model()), Probe(i, ok))
    {
      if ok {
        probeOk := probeOk + 1;
        alive := alive + {i};
      } else {
        GiveUp(i);
      }
      inflight := inflight - {i};
      pendingProbes := pendingProbes - 1;
      MaybeRehydrateSettled();
    }

    method StopListed(uid: nat, listed: seq<string>)
      modifies `adopted, `stops
      ensures adopted == old(adopted) - Dropped(OwnUnits(listed, uid)) && stops == old(stops) + OwnUnits(listed, uid)
    {
      for i := 0 to |listed|
        invariant adopted == old(adopted) - Dropped(OwnUnits(listed[..i], uid))
        invariant stops == old(stops) + OwnUnits(listed[..i], uid)
      {
        OwnUnitsSnoc(listed, i, uid);
        var name := listed[i];
        if !CleanName(uid, name) { continue; }
        DroppedSnoc(OwnUnits(listed[..i], uid), name);
        stops := stops + [name];
        adopted := adopted - {name};
      }
      assert listed[..|listed|] == listed;
    }

    /** `cleanStaleScopes`: before a spawn the listed units of the user's uid are stopped and forgotten. */
    method CleanStaleScopes(uid: nat, listed: seq<string>)
      modifies `adopted, `stops, `cleaned
      ensures Model() == Next(plan, old(Model()), Cleaned(OwnUnits(listed, uid)))
    {
      StopListed(uid, listed);
      cleaned := cleaned + Hit(plan, nextIndex, OwnUnits(listed, uid));
    }

    method GiveUp(i: nat)
      requires Planned() && i < |found|
      modifies `probeFail, `stopped, `adopted, `stops, `failed
      ensures Model() == ProbeFailed(plan[i].unit, old(Model()), i)
    {
      probeFail := probeFail + 1;
      stopped := stopped + 1;
      adopted := adopted - {found[i].unit};
      stops := stops + [found[i].unit];
      failed := failed + {i};
    }
  }
}
