/**
 Which recorded command lines are recognised and what is decided about a scope, stated on the words and on
 the scan themselves; and which units a round of adoption has told to stop, by what happened.
 */
module ScopeForm {
  import opened Basics
  import opened ConfigText
  import opened ScopeAdoption

  // ----- the words of a command line

  /** The first time the flag appears, this word follows it. */
  predicate Follows(tokens: seq<string>, flag: string, i: nat, word: string) {
    i + 1 < |tokens| && tokens[i] == flag && tokens[i + 1] == word && flag !in tokens[..i]
  }

  ghost predicate Says(tokens: seq<string>, flag: string, word: string) {
    exists i: nat :: Follows(tokens, flag, i, word)
  }

  lemma {:induction false} SaysExactly(tokens: seq<string>, flag: string, word: string)
    ensures ValueOf(tokens, flag) == Some(word) <==> Says(tokens, flag, word)
  {
    if tokens != [] {
      if tokens[0] == flag {
        forall i: nat | i > 0 ensures !Follows(tokens, flag, i, word) {
          if i < |tokens| { assert tokens[..i][0] == flag; }
        }
        if |tokens| > 1 && tokens[1] == word { assert Follows(tokens, flag, 0, word); }
      } else {
        SaysExactly(tokens[1..], flag, word);
        if i: nat :| Follows(tokens, flag, i, word) {
          assert i > 0 && tokens[..i][1..] == tokens[1..][..i - 1];
          assert flag !in tokens[..i][1..];
          assert Follows(tokens[1..], flag, i - 1, word);
        }
        if i: nat :| Follows(tokens[1..], flag, i, word) {
          assert tokens[..i + 1] == [tokens[0]] + tokens[1..][..i];
          assert Follows(tokens, flag, i + 1, word);
        }
      }
    }
  }

  // ----- the user of a folder

  lemma {:induction false} IndexIsFirst(s: string, what: string)
    ensures var at := IndexOf(s, what);
            && (at.Some? ==> at.value + |what| <= |s| && forall k :: 0 <= k < at.value ==> !(what <= s[k..]))
            && (at.None? ==> forall k :: 0 <= k <= |s| ==> !(what <= s[k..]))
    decreases |s|
  {
    assert s[0..] == s;
    if !(what <= s) && s != "" {
      IndexIsFirst(s[1..], what);
      forall k | 1 <= k <= |s| ensures s[k..] == s[1..][k - 1..] {}
    }
  }

  /** `before` runs up to the first `/users/`, and the name to the next slash or the end. */
  predicate Home(folder: string, userId: string, before: string, tail: string) {
    && folder == before + "/users/" + userId + tail
    && userId != "" && '/' !in userId && ' ' !in userId && (tail == "" || tail[0] == '/')
    && forall k :: 0 <= k < |before| ==> !("/users/" <= folder[k..])
  }

  ghost predicate LivesIn(userId: string, folder: string) {
    exists before, tail :: Home(folder, userId, before, tail)
  }

  lemma SlashAt(rest: string)
    ensures var slash := IndexOf(rest, "/");
            && (slash.Some? ==> slash.value < |rest| && rest[slash.value] == '/' && '/' !in rest[..slash.value])
            && (slash.None? ==> '/' !in rest)
  {
    IndexIsFirst(rest, "/");
    forall k | 0 <= k < |rest| ensures "/" <= rest[k..] <==> rest[k] == '/' {}
  }

  lemma SegmentEnds(userId: string, tail: string)
    requires '/' !in userId && (tail == "" || tail[0] == '/')
    ensures IndexOf(userId + tail, "/") == if tail == "" then None else Some(|userId|)
  {
    var rest := userId + tail;
    SlashAt(rest);
    assert forall k :: 0 <= k < |userId| ==> rest[k] in userId;
    if tail != "" {
      assert rest[|userId|] == '/';
      var slash := IndexOf(rest, "/").value;
      assert forall k :: 0 <= k < slash ==> rest[k] in rest[..slash];
    }
  }

  lemma CutFolder(folder: string, at: nat)
    requires at + 7 <= |folder| && folder[at..at + 7] == "/users/"
    ensures folder == folder[..at] + "/users/" + folder[at + 7..]
  {}

  lemma FirstAt(folder: string, before: string, rest: string)
    requires folder == before + "/users/" + rest
    requires forall k :: 0 <= k < |before| ==> !("/users/" <= folder[k..])
    ensures IndexOf(folder, "/users/") == Some(|before|) && folder[|before| + 7..] == rest
  {
    IndexIsFirst(folder, "/users/");
    assert folder[|before|..] == "/users/" + rest;
    var at := IndexOf(folder, "/users/").value;
    assert folder[at..][..7] == folder[at..at + 7];
  }

  /** Up to the first slash, or all of it. */
  function Segment(rest: string): string {
    var slash := IndexOf(rest, "/");
    if slash.None? then rest else rest[..slash.value]
  }

  lemma SegmentCuts(rest: string) returns (tail: string)
    ensures rest == Segment(rest) + tail && (tail == "" || tail[0] == '/') && '/' !in Segment(rest)
  {
    SlashAt(rest);
    tail := rest[|Segment(rest)|..];
  }

  lemma UserBySegment(folder: string)
    ensures var at := IndexOf(folder, "/users/");
            UserOf(folder) == if at.None? then None
                              else var name := Segment(folder[at.value + 7..]);
                                   if name == "" || ' ' in name then None else Some(name)
  {}

  lemma HomeFrom(folder: string, userId: string, before: string, tail: string, rest: string)
    requires folder == before + "/users/" + rest && rest == userId + tail
    requires userId != "" && '/' !in userId && ' ' !in userId && (tail == "" || tail[0] == '/')
    requires forall k :: 0 <= k < |before| ==> !("/users/" <= folder[k..])
    ensures LivesIn(userId, folder)
  {
    assert (before + "/users/") + (userId + tail) == before + "/users/" + userId + tail;
    assert Home(folder, userId, before, tail);
  }

  lemma {:induction false} UserFound(folder: string)
    requires UserOf(folder).Some?
    ensures LivesIn(UserOf(folder).value, folder)
  {
    UserBySegment(folder);
    IndexIsFirst(folder, "/users/");
    var at := IndexOf(folder, "/users/").value;
    CutFolder(folder, at);
    var before, rest := folder[..at], folder[at + 7..];
    var tail := SegmentCuts(rest);
    forall k | 0 <= k < |before| ensures !("/users/" <= folder[k..]) { assert k < at; }
    HomeFrom(folder, Segment(rest), before, tail, rest);
  }

  lemma {:induction false} UserIsHome(folder: string, userId: string, before: string, tail: string)
    requires Home(folder, userId, before, tail)
    ensures UserOf(folder) == Some(userId)
  {
    var rest := userId + tail;
    assert (before + "/users/") + rest == before + "/users/" + userId + tail;
    FirstAt(folder, before, rest);
    SegmentEnds(userId, tail);
    assert rest[..|userId|] == userId && (tail == "" ==> rest == userId);
    UserBySegment(folder);
  }

  /** A folder belongs to the name between its first `/users/` and the next slash, if that is a name. */
  lemma UserExactly(folder: string, userId: string)
    ensures UserOf(folder) == Some(userId) <==> LivesIn(userId, folder)
  {
    if UserOf(folder) == Some(userId) { UserFound(folder); }
    if before, tail :| Home(folder, userId, before, tail) { UserIsHome(folder, userId, before, tail); }
  }

  // ----- the instance

  predicate NoSuchFlag(tokens: seq<string>, flag: string) {
    |tokens| == 0 || flag !in tokens[..|tokens| - 1]
  }

  lemma {:induction false} NoneExactly(tokens: seq<string>, flag: string)
    ensures ValueOf(tokens, flag).None? <==> NoSuchFlag(tokens, flag)
  {
    if |tokens| > 1 {
      NoneExactly(tokens[1..], flag);
      assert tokens[..|tokens| - 1] == [tokens[0]] + tokens[1..][..|tokens| - 2];
    }
  }

  /** A decimal number a process can listen on. */
  predicate IsPort(word: string, port: nat) {
    |word| > 0 && AllOf(word, Digit) && FromDecimal(word) == port && 0 < port < 65536
  }

  /**
   The words of a command line describe an instance of this user: they name the scope's uid, a role, and an
   absolute folder of the user; a main names a port, a watchdog none.
   */
  ghost predicate Describes(tokens: seq<string>, uid: nat, info: Info) {
    && Says(tokens, "--reuid", ToDecimal(uid))
    && Says(tokens, "--chdir", info.folder) && info.folder != "" && info.folder[0] == '/'
    && LivesIn(info.userId, info.folder)
    && match info.role
       case MainRole =>
         && Says(tokens, "--profile", "web") && info.port.Some?
         && exists word :: Says(tokens, "--port", word) && IsPort(word, info.port.value)
       case WatchdogRole => Says(tokens, "--profile", "headless") && info.port.None? && NoSuchFlag(tokens, "--port")
  }

  lemma MainParses(tokens: seq<string>, uid: nat, info: Info)
    requires Describes(tokens, uid, info) && info.role.MainRole?
    ensures ParseTokens(tokens, uid) == Some(info)
  {
    SaysExactly(tokens, "--reuid", ToDecimal(uid));
    SaysExactly(tokens, "--chdir", info.folder);
    UserExactly(info.folder, info.userId);
    SaysExactly(tokens, "--profile", "web");
    var word :| Says(tokens, "--port", word) && IsPort(word, info.port.value);
    SaysExactly(tokens, "--port", word);
    assert PortOf(Some(word)) == info.port;
  }

  lemma WatchdogParses(tokens: seq<string>, uid: nat, info: Info)
    requires Describes(tokens, uid, info) && info.role.WatchdogRole?
    ensures ParseTokens(tokens, uid) == Some(info)
  {
    SaysExactly(tokens, "--reuid", ToDecimal(uid));
    SaysExactly(tokens, "--chdir", info.folder);
    UserExactly(info.folder, info.userId);
    SaysExactly(tokens, "--profile", "headless");
    NoneExactly(tokens, "--port");
  }

  lemma ParsedDescribes(tokens: seq<string>, uid: nat, info: Info)
    requires ParseTokens(tokens, uid) == Some(info)
    ensures Describes(tokens, uid, info)
  {
    SaysExactly(tokens, "--reuid", ToDecimal(uid));
    SaysExactly(tokens, "--chdir", info.folder);
    UserExactly(info.folder, info.userId);
    if info.role.MainRole? {
      SaysExactly(tokens, "--profile", "web");
      var word := ValueOf(tokens, "--port").value;
      SaysExactly(tokens, "--port", word);
      assert IsPort(word, info.port.value);
    } else {
      SaysExactly(tokens, "--profile", "headless");
      NoneExactly(tokens, "--port");
    }
  }

  /** A scope is recognised as exactly the instance its command line describes, and as none otherwise. */
  lemma {:induction false} ParseExactly(tokens: seq<string>, uid: nat, info: Info)
    ensures ParseTokens(tokens, uid) == Some(info) <==> Describes(tokens, uid, info)
  {
    if ParseTokens(tokens, uid) == Some(info) { ParsedDescribes(tokens, uid, info); }
    if Describes(tokens, uid, info) {
      match info.role
      case MainRole => MainParses(tokens, uid, info);
      case WatchdogRole => WatchdogParses(tokens, uid, info);
    }
  }

  // ----- what is decided

  /** Another scope of the scan has the same uid. */
  predicate Shared(found: seq<Scope>, i: nat) {
    exists j :: 0 <= j < |found| && j != i && i < |found| && found[j].uid == found[i].uid
  }

  lemma {:induction false} NoneOfUid(found: seq<Scope>, uid: nat)
    requires forall j :: 0 <= j < |found| ==> found[j].uid != uid
    ensures CountUid(found, uid) == 0
  {
    if found != [] {
      NoneOfUid(found[..|found| - 1], uid);
    }
  }

  lemma {:induction false} OneOfUid(found: seq<Scope>, i: nat)
    requires i < |found| && !Shared(found, i)
    ensures CountUid(found, found[i].uid) == 1
  {
    var n := |found| - 1;
    if i == n {
      NoneOfUid(found[..n], found[i].uid);
    } else {
      assert !Shared(found[..n], i) by {
        forall j | 0 <= j < n && j != i
          ensures found[..n][j].uid != found[i].uid
        {
          assert found[j].uid != found[i].uid;
        }
      }
      OneOfUid(found[..n], i);
      assert found[n].uid != found[i].uid;
    }
  }

  /** A scope is adopted exactly if it is alone under its uid and a main; otherwise it is stopped for one reason. */
  lemma DecisionExactly(found: seq<Scope>, i: nat)
    requires i < |found|
    ensures var info := ParseTokens(Words(found[i].desc), found[i].uid);
            ActionFor(found, i) == if Shared(found, i) then StopIt("dup-uid")
                                   else if info.None? then StopIt("unparsable")
                                   else if info.value.role == WatchdogRole then StopIt("no-probe-target")
                                   else Adopt
  {
    if Shared(found, i) {
      var j :| 0 <= j < |found| && j != i && found[j].uid == found[i].uid;
      CountUidOne(found, i);
    } else {
      OneOfUid(found, i);
    }
  }

  // ----- what is stopped

  /** The units told to stop: the scopes not adopted, those whose probe failed, and those a spawn cleaned away. */
  ghost function Told(plan: seq<Verdict>, events: seq<Event>): seq<string> {
    if events == [] then []
    else
      var r, last := Run(plan, events[..|events| - 1]), events[|events| - 1];
      Told(plan, events[..|events| - 1])
      + match last
        case Tick => if r.next < |plan| && plan[r.next].action != Adopt then [plan[r.next].unit] else []
        case Probe(i, ok) => if i in r.inflight && i < |plan| && !ok then [plan[i].unit] else []
        case Cleaned(units) => units
  }

  /** The scopes a run of ticks has handled: one a tick, in order. */
  function Ticks(events: seq<Event>): nat {
    if events == [] then 0 else Ticks(events[..|events| - 1]) + if events[|events| - 1].Tick? then 1 else 0
  }

  lemma ToldStep(plan: seq<Verdict>, r: Round, e: Event)
    requires Sound(plan)
    ensures Next(plan, r, e).stops
            == r.stops + match e
                         case Tick => if r.next < |plan| && plan[r.next].action != Adopt
                           then [plan[r.next].unit] else []
                         case Probe(i, ok) => if i in r.inflight && i < |plan| && !ok then [plan[i].unit] else []
                         case Cleaned(units) => units
    ensures Next(plan, r, e).next == r.next + if e.Tick? && r.next < |plan| then 1 else 0
  {}

  /** In every round of a scan the units stopped are exactly these, in this order, and each tick handles one scope. */
  lemma {:induction false} StopsExactly(found: seq<Scope>, uidOf: string -> nat, events: seq<Event>)
    requires Scanned(found, uidOf)
    ensures var plan := Verdicts(found);
            && Run(plan, events).stops == Told(plan, events)
            && Run(plan, events).next == if Ticks(events) < |found| then Ticks(events) else |found|
  {
    VerdictsAreSound(found, uidOf);
    if events != [] {
      StopsExactly(found, uidOf, events[..|events| - 1]);
      ToldStep(Verdicts(found), Run(Verdicts(found), events[..|events| - 1]), events[|events| - 1]);
    }
  }
}
