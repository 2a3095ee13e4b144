/**
 Reconciling the enabled keys into `.credentials.yaml`, line by line: only the platform's own
 lines are rewritten or removed. `Entries` is the list of lines inside a `refs:` section;
 everything the reconciler promises is a statement about that list.
 */
module Credentials {
  import opened Basics
  import opened ConfigText

  // ----- recognisers and printers

  predicate NameStart(c: char) { 'a' <= c <= 'z' || 'A' <= c <= 'Z' || c == '_' }
  predicate NameChar(c: char) { NameStart(c) || '0' <= c <= '9' }

  /** `^[A-Za-z_][A-Za-z0-9_]*$`, the only names a credentials ref can have. */
  predicate IsRefName(s: string) {
    s != "" && NameStart(s[0]) && AllOf(s, NameChar)
  }

  const BUILTIN_REF := "DEEPSEEK_API_KEY"

  predicate UpperChar(c: char) { 'A' <= c <= 'Z' }

  function Folded(s: string): string {
    seq(|s|, i requires 0 <= i < |s| => if UpperChar(s[i]) || '0' <= s[i] <= '9' then s[i] else '_')
  }

  /** The ref of a custom route; `upper` stands for the runtime's upper-casing. */
  function RouteRef(route: string, upper: string -> string): string {
    var up := DropRight(DropLeft(Folded(upper(route)), c => c == '_'), c => c == '_');
    (if up == "" || !UpperChar(up[0]) then "X" + up else up) + "_API_KEY"
  }

  function RefForEntry(route: Option<string>, upper: string -> string): string {
    if route.None? || route.value == "" then BUILTIN_REF else RouteRef(route.value, upper)
  }

  lemma {:induction false} DropsKeepAll(s: string, p: char -> bool, q: char -> bool)
    requires AllOf(s, q)
    ensures AllOf(DropLeft(s, p), q) && AllOf(DropRight(s, p), q)
  {
    if s != "" {
      DropsKeepAll(s[1..], p, q);
      DropsKeepAll(s[..|s| - 1], p, q);
    }
  }

  /** Whatever the route, and however upper-casing works, its ref is a name the credentials file accepts. */
  lemma RefsAreNames(route: Option<string>, upper: string -> string)
    ensures IsRefName(RefForEntry(route, upper))
  {
    if route.Some? && route.value != "" {
      var folded := Folded(upper(route.value));
      DropsKeepAll(folded, c => c == '_', NameChar);
      DropsKeepAll(DropLeft(folded, c => c == '_'), c => c == '_', NameChar);
      SuffixedIsName(DropRight(DropLeft(folded, c => c == '_'), c => c == '_'));
    }
  }

  lemma SuffixedIsName(up: string)
    requires AllOf(up, NameChar)
    ensures IsRefName((if up == "" || !UpperChar(up[0]) then "X" + up else up) + "_API_KEY")
  {}

  function NameLen(s: string): (n: nat)
    ensures n <= |s|
  {
    if s == "" || !NameChar(s[0]) then 0 else 1 + NameLen(s[1..])
  }

  /** The text after indentation, ref name and colon, with the name: `[ \t]+(name)[ \t]*:` */
  function Parse(line: string): Option<(string, string)> {
    var body := DropLeft(line, Blank);
    var n := NameLen(body);
    var rest := DropLeft(body[n..], Blank);
    if Indented(line) && n > 0 && NameStart(body[0]) && rest != "" && rest[0] == ':'
    then Some((body[..n], rest[1..])) else None
  }

  /** The ref a line defines, as the reconciler sees it. */
  function RefName(line: string): Option<string> {
    if Parse(line).Some? then Some(Parse(line).value.0) else None
  }

  /** A single-quoted YAML 1.2.2 scalar (section 7.3.2): a quote inside is doubled. */
  function Double(s: string): string {
    if s == "" then "" else (if s[0] == '\'' then "''" else [s[0]]) + Double(s[1..])
  }

  function Undouble(s: string): string {
    if s == "" then ""
    else if |s| >= 2 && s[0] == '\'' && s[1] == '\'' then "'" + Undouble(s[2..])
    else [s[0]] + Undouble(s[1..])
  }

  function YamlSingle(value: string): string {
    "'" + Double(value) + "'"
  }

  function Unquote(v: string): string {
    if |v| >= 2 && ((v[0] == '\'' && v[|v| - 1] == '\'') || (v[0] == '"' && v[|v| - 1] == '"'))
    then Undouble(v[1..|v| - 1]) else v
  }

  /** The value a line gives a ref, when read: the rest of the line must not hold a line break. */
  function ReadLine(line: string, ref: string): Option<string> {
    var p := Parse(line);
    if p.Some? && p.value.0 == ref && NoneOf(p.value.1, LineBreak) then Some(Unquote(Trim(p.value.1))) else None
  }

  function RefLine(ref: string, value: string): string {
    "  " + ref + ": " + YamlSingle(value)
  }

  lemma {:induction false} DoubleRoundTrip(s: string)
    ensures Undouble(Double(s)) == s
  {
    if s != "" {
      DoubleRoundTrip(s[1..]);
      if s[0] == '\'' {
        assert Double(s)[2..] == Double(s[1..]);
      } else {
        assert Double(s)[1..] == Double(s[1..]) && Double(s)[0] == s[0];
      }
    }
  }

  lemma {:induction false} DoubleKeepsLines(s: string, p: char -> bool)
    requires NoneOf(s, p) && !p('\'')
    ensures NoneOf(Double(s), p)
  {
    if s != "" {
      DoubleKeepsLines(s[1..], p);
    }
  }

  lemma {:induction false} NameLenOf(name: string, rest: string)
    requires AllOf(name, NameChar) && (rest == "" || !NameChar(rest[0]))
    ensures NameLen(name + rest) == |name|
  {
    if name == "" {
      assert name + rest == rest;
    } else {
      assert (name + rest)[1..] == name[1..] + rest;
      NameLenOf(name[1..], rest);
    }
  }

  /** A printed line is recognised as its ref, and reading it gives back the value. */
  lemma PrintedReads(ref: string, value: string)
    requires IsRefName(ref)
    ensures RefName(RefLine(ref, value)) == Some(ref)
    ensures NoneOf(value, LineBreak) ==> ReadLine(RefLine(ref, value), ref) == Some(value)
  {
    PrintedParses(ref, value);
    if NoneOf(value, LineBreak) {
      ScalarReads(value);
    }
  }

  lemma PrintedParses(ref: string, value: string)
    requires IsRefName(ref)
    ensures Parse(RefLine(ref, value)) == Some((ref, " " + YamlSingle(value)))
  {
    var tail := ": " + YamlSingle(value);
    assert RefLine(ref, value) == "  " + (ref + tail);
    DropLeftPadding("  ", ref + tail, Blank);
    NameLenOf(ref, tail);
    assert (ref + tail)[|ref|..] == tail && (ref + tail)[..|ref|] == ref;
    assert DropLeft(tail, Blank) == tail;
    assert tail[1..] == " " + YamlSingle(value);
  }

  lemma ScalarReads(value: string)
    requires NoneOf(value, LineBreak)
    ensures NoneOf(" " + YamlSingle(value), LineBreak)
    ensures Unquote(Trim(" " + YamlSingle(value))) == value
  {
    var scalar := YamlSingle(value);
    DoubleKeepsLines(value, LineBreak);
    DropLeftPadding(" ", scalar, Space);
    assert DropRight(scalar, Space) == scalar;
    assert scalar[1..|scalar| - 1] == Double(value);
    DoubleRoundTrip(value);
  }

  lemma PrintedIsLine(ref: string, value: string)
    requires IsRefName(ref) && IsLine(value)
    ensures IsLine(RefLine(ref, value)) && Indented(RefLine(ref, value))
  {
    DoubleKeepsLines(value, c => c == '\n');
  }

  // ----- sections

  predicate RefsHead(line: string) {
    !Indented(line) && Trim(line) == "refs:"
  }

  /** `^version:[ \t]*1[ \t]*$` on the trimmed line. */
  predicate VersionHead(line: string) {
    var t := Trim(line);
    !Indented(line) && |t| >= 8 && t[..8] == "version:" && Strip(t[8..]) == "1"
  }

  /** Whether the position after `lines` is inside a `refs:` section. */
  function InsideAfter(lines: seq<string>, inside: bool): bool {
    if lines == [] then inside
    else
      var last := lines[|lines| - 1];
      if Indented(last) then InsideAfter(lines[..|lines| - 1], inside) else RefsHead(last)
  }

  function Entries(lines: seq<string>, inside: bool): seq<string> {
    if lines == [] then []
    else
      var init, last := lines[..|lines| - 1], lines[|lines| - 1];
      Entries(init, inside) + if Indented(last) && InsideAfter(init, inside) then [last] else []
  }

  /** The first entry that reads as the ref gives its value. */
  function FirstValue(entries: seq<string>, ref: string): Option<string> {
    if entries == [] then None
    else
      var before := FirstValue(entries[..|entries| - 1], ref);
      if before.Some? then before else ReadLine(entries[|entries| - 1], ref)
  }

  function ReadRef(text: string, ref: string): Option<string> {
    FirstValue(Entries(Split(text), false), ref)
  }

  method ReadRefValue(text: string, ref: string) returns (value: Option<string>)
    requires IsRefName(ref)
    ensures value == ReadRef(text, ref)
  {
    if text == "" {
      assert Entries([""], false) == Entries([""][..0], false) + [];
      return None;
    }
    var lines := Split(text);
    var inside := false;
    for i := 0 to |lines|
      invariant inside == InsideAfter(lines[..i], false)
      invariant FirstValue(Entries(lines[..i], false), ref).None?
    {
      var raw := lines[i];
      assert lines[..i + 1][..i] == lines[..i];
      var indented := Indented(raw);
      inside := if indented then inside else Trim(raw) == "refs:";
      if !inside || !indented {
        assert Entries(lines[..i + 1], false) == Entries(lines[..i], false);
        continue;
      }
      EntriesSplit(lines[..i + 1], lines[i + 1..], false);
      assert lines == lines[..i + 1] + lines[i + 1..];
      var es := Entries(lines[..i + 1], false);
      assert es[..|es| - 1] == Entries(lines[..i], false);
      value := ReadLine(raw, ref);
      if value.Some? {
        FirstValueSplit(es, Entries(lines[i + 1..], InsideAfter(lines[..i + 1], false)), ref);
        return;
      }
    }
    assert lines[..|lines|] == lines;
    value := None;
  }

  lemma {:induction false} EntriesSplit(a: seq<string>, b: seq<string>, inside: bool)
    ensures InsideAfter(a + b, inside) == InsideAfter(b, InsideAfter(a, inside))
    ensures Entries(a + b, inside) == Entries(a, inside) + Entries(b, InsideAfter(a, inside))
  {
    if b == [] {
      assert a + b == a;
    } else {
      assert (a + b)[..|a + b| - 1] == a + b[..|b| - 1];
      EntriesSplit(a, b[..|b| - 1], inside);
    }
  }

  lemma {:induction false} FirstValueSplit(a: seq<string>, b: seq<string>, ref: string)
    ensures FirstValue(a + b, ref) == if FirstValue(a, ref).Some? then FirstValue(a, ref) else FirstValue(b, ref)
  {
    if b == [] {
      assert a + b == a;
    } else {
      assert (a + b)[..|a + b| - 1] == a + b[..|b| - 1];
      FirstValueSplit(a, b[..|b| - 1], ref);
    }
  }

  // ----- the reconciler

  datatype Desired = Desired(ref: string, value: string)

  function Refs(desired: seq<Desired>): seq<string> {
    seq(|desired|, i requires 0 <= i < |desired| => desired[i].ref)
  }

  /** The wanted values; of two entries for one ref the later wins. */
  function Wanted(desired: seq<Desired>): map<string, string> {
    if desired == [] then map[]
    else Wanted(desired[..|desired| - 1])[desired[|desired| - 1].ref := desired[|desired| - 1].value]
  }

  predicate EntryAt(lines: seq<string>, i: nat) {
    i < |lines| && Indented(lines[i]) && InsideAfter(lines[..i], false)
  }

  /** Where each ref is defined: the last line that defines it. */
  function RefAt(lines: seq<string>): map<string, nat> {
    if lines == [] then map[]
    else
      var n := |lines| - 1;
      var before := RefAt(lines[..n]);
      if EntryAt(lines, n) && RefName(lines[n]).Some? then before[RefName(lines[n]).value := n] else before
  }

  /** Lines of owned refs that are no longer wanted. */
  function Dropped(owned: seq<string>, wanted: map<string, string>, at: map<string, nat>): set<nat> {
    if owned == [] then {}
    else
      var ref := owned[|owned| - 1];
      Dropped(owned[..|owned| - 1], wanted, at) + if ref !in wanted && ref in at then {at[ref]} else {}
  }

  /** Lines of wanted refs that the platform owns, with their new text. */
  function Rewritten(refs: seq<string>, owned: seq<string>, wanted: map<string, string>,
                     at: map<string, nat>): map<nat, string>
    requires forall r :: r in refs ==> r in wanted
  {
    if refs == [] then map[]
    else
      var ref := refs[|refs| - 1];
      var before := Rewritten(refs[..|refs| - 1], owned, wanted, at);
      if ref in at && ref in owned then before[at[ref] := RefLine(ref, wanted[ref])] else before
  }

  function RefLines(refs: seq<string>, wanted: map<string, string>): seq<string>
    requires forall r :: r in refs ==> r in wanted
  {
    if refs == [] then []
    else RefLines(refs[..|refs| - 1], wanted) + [RefLine(refs[|refs| - 1], wanted[refs[|refs| - 1]])]
  }

  /** What is inserted, and after which line. */
  datatype Insertion = Insertion(anchor: Option<nat>, body: seq<string>)

  function Emitted(lines: seq<string>, drop: set<nat>, rewrite: map<nat, string>, ins: Insertion, n: nat): seq<string>
    requires n <= |lines|
  {
    if n == 0 then []
    else
      Emitted(lines, drop, rewrite, ins, n - 1)
      + (if n - 1 in drop then [] else if n - 1 in rewrite then [rewrite[n - 1]] else [lines[n - 1]])
      + (if ins.anchor == Some(n - 1) then ins.body else [])
  }

  lemma {:induction false} WantedKeys(desired: seq<Desired>)
    ensures forall r :: r in Wanted(desired) <==> r in Refs(desired)
  {
    if desired != [] {
      WantedKeys(desired[..|desired| - 1]);
      assert Refs(desired) == Refs(desired[..|desired| - 1]) + [desired[|desired| - 1].ref];
    }
  }

  function WantedRefs(desired: seq<Desired>): (refs: seq<string>)
    ensures forall r :: r in refs <==> r in Wanted(desired)
  {
    WantedKeys(desired);
    Distinct(Refs(desired))
  }

  function Additions(desired: seq<Desired>, at: map<string, nat>): (refs: seq<string>)
    ensures forall r :: r in refs <==> r in Wanted(desired) && r !in at
  {
    Filter(WantedRefs(desired), r => r !in at)
  }

  /** The owned refs after the run. */
  function NowManaged(desired: seq<Desired>, managed: seq<string>, at: map<string, nat>): seq<string> {
    Distinct(Filter(Distinct(managed), r => r in Wanted(desired))
             + Filter(WantedRefs(desired), r => r !in at || r in managed))
  }

  function PlanInsertion(lines: seq<string>, add: seq<string>, wanted: map<string, string>): Insertion
    requires forall r :: r in add ==> r in wanted
  {
    var refsAt := FirstIndex(lines, RefsHead);
    if add == [] then Insertion(None, [])
    else if refsAt.Some? then Insertion(refsAt, RefLines(add, wanted))
    else Insertion(FirstIndex(lines, VersionHead), ["refs:"] + RefLines(add, wanted))
  }

  function ReconcileLines(lines: seq<string>, desired: seq<Desired>, managed: seq<string>): Option<seq<string>> {
    var at, wanted := RefAt(lines), Wanted(desired);
    var add := Additions(desired, at);
    var ins := PlanInsertion(lines, add, wanted);
    if add != [] && ins.anchor.None? then None
    else Some(Emitted(lines, Dropped(Distinct(managed), wanted, at),
                      Rewritten(WantedRefs(desired), managed, wanted, at), ins, |lines|))
  }

  function FreshText(desired: seq<Desired>): string {
    "version: 1\nrefs:\n"
      + Join(seq(|desired|, i requires 0 <= i < |desired| => RefLine(desired[i].ref, desired[i].value))) + "\n"
  }

  /** `reconcileCredentials`: an unrecognised layout is returned unchanged. */
  function Reconcile(text: string, desired: seq<Desired>, managed: seq<string>): Result {
    if Trim(text) == "" then
      if desired == [] then Result(text, []) else Result(FreshText(desired), Refs(desired))
    else
      var lines := Split(text);
      var out := ReconcileLines(lines, desired, managed);
      if out.None? then Result(text, Distinct(managed))
      else Result(Join(out.value), NowManaged(desired, managed, RefAt(lines)))
  }

  lemma ScanStep(lines: seq<string>, i: nat)
    requires i < |lines|
    ensures InsideAfter(lines[..i + 1], false)
            == if Indented(lines[i]) then InsideAfter(lines[..i], false) else RefsHead(lines[i])
    ensures FirstIndex(lines[..i + 1], RefsHead)
            == if FirstIndex(lines[..i], RefsHead).Some? then FirstIndex(lines[..i], RefsHead)
               else if RefsHead(lines[i]) then Some(i) else None
    ensures FirstIndex(lines[..i + 1], VersionHead)
            == if FirstIndex(lines[..i], VersionHead).Some? then FirstIndex(lines[..i], VersionHead)
               else if VersionHead(lines[i]) then Some(i) else None
    ensures RefAt(lines[..i + 1])
            == if Indented(lines[i]) && InsideAfter(lines[..i], false) && RefName(lines[i]).Some?
               then RefAt(lines[..i])[RefName(lines[i]).value := i] else RefAt(lines[..i])
  {
    assert lines[..i + 1][..i] == lines[..i];
  }

  /** First pass: where the sections are and which line defines which ref. */
  method ScanLayout(lines: seq<string>) returns (refsAt: Option<nat>, versionAt: Option<nat>, at: map<string, nat>)
    ensures refsAt == FirstIndex(lines, RefsHead) && versionAt == FirstIndex(lines, VersionHead)
    ensures at == RefAt(lines)
  {
    refsAt, versionAt, at := None, None, map[];
    var inside := false;
    for i := 0 to |lines|
      invariant inside == InsideAfter(lines[..i], false)
      invariant refsAt == FirstIndex(lines[..i], RefsHead) && versionAt == FirstIndex(lines[..i], VersionHead)
      invariant at == RefAt(lines[..i])
    {
      var raw := lines[i];
      ScanStep(lines, i);
      var indented := Indented(raw);
      inside := if indented then inside else Trim(raw) == "refs:";
      if !indented && Trim(raw) == "refs:" && refsAt.None? {
        refsAt := Some(i);
      }
      if versionAt.None? && VersionHead(raw) {
        versionAt := Some(i);
      }
      if inside && indented && RefName(raw).Some? {
        at := at[RefName(raw).value := i];
      }
    }
    assert lines[..|lines|] == lines;
  }

  /** Second pass, over the owned refs: what is no longer wanted goes. */
  method PlanOwned(owned: seq<string>, wanted: map<string, string>, at: map<string, nat>)
    returns (drop: set<nat>, kept: seq<string>)
    ensures drop == Dropped(owned, wanted, at)
    ensures kept == Filter(owned, r => r in wanted)
  {
    drop, kept := {}, [];
    for i := 0 to |owned|
      invariant drop == Dropped(owned[..i], wanted, at)
      invariant kept == Filter(owned[..i], r => r in wanted)
    {
      assert owned[..i + 1][..i] == owned[..i];
      if owned[i] in wanted {
        kept := kept + [owned[i]];
      } else if owned[i] in at {
        drop := drop + {at[owned[i]]};
      }
    }
    assert owned[..|owned|] == owned;
  }

  /** Third pass, over the wanted refs: add what is absent, rewrite what is owned. */
  method PlanWanted(refs: seq<string>, managed: seq<string>, wanted: map<string, string>, at: map<string, nat>)
    returns (rewrite: map<nat, string>, add: seq<string>, kept: seq<string>)
    requires forall r :: r in refs ==> r in wanted
    ensures rewrite == Rewritten(refs, managed, wanted, at)
    ensures add == Filter(refs, r => r !in at)
    ensures kept == Filter(refs, r => r !in at || r in managed)
  {
    rewrite, add, kept := map[], [], [];
    for i := 0 to |refs|
      invariant rewrite == Rewritten(refs[..i], managed, wanted, at)
      invariant add == Filter(refs[..i], r => r !in at)
      invariant kept == Filter(refs[..i], r => r !in at || r in managed)
    {
      assert refs[..i + 1][..i] == refs[..i];
      var ref := refs[i];
      if ref !in at {
        add := add + [ref];
        kept := kept + [ref];
      } else if ref in managed {
        rewrite := rewrite[at[ref] := RefLine(ref, wanted[ref])];
        kept := kept + [ref];
      }
    }
    assert refs[..|refs|] == refs;
  }

  method EmitLines(lines: seq<string>, drop: set<nat>, rewrite: map<nat, string>, ins: Insertion)
    returns (out: seq<string>)
    ensures out == Emitted(lines, drop, rewrite, ins, |lines|)
  {
    out := [];
    for i := 0 to |lines|
      invariant out == Emitted(lines, drop, rewrite, ins, i)
    {
      if i !in drop {
        out := out + [if i in rewrite then rewrite[i] else lines[i]];
      }
      if ins.anchor == Some(i) {
        out := out + ins.body;
      }
    }
  }

  method ReconcileCredentials(text: string, desired: seq<Desired>, managed: seq<string>) returns (res: Result)
    ensures res == Reconcile(text, desired, managed)
  {
    if Trim(text) == "" {
      return if desired == [] then Result(text, []) else Result(FreshText(desired), Refs(desired));
    }
    var owned, wanted, refs := Distinct(managed), Wanted(desired), WantedRefs(desired);
    var lines := Split(text);
    var refsAt, versionAt, at := ScanLayout(lines);
    var drop, keptOwned := PlanOwned(owned, wanted, at);
    var rewrite, add, keptWanted := PlanWanted(refs, managed, wanted, at);
    assert add == Additions(desired, at);
    var ins := Insertion(None, []);
    if add != [] {
      var anchor := if refsAt.Some? then refsAt else versionAt;
      if anchor.None? {
        return Result(text, owned);
      }
      ins := Insertion(anchor, if refsAt.Some? then RefLines(add, wanted) else ["refs:"] + RefLines(add, wanted));
    }
    var out := EmitLines(lines, drop, rewrite, ins);
    res := Result(Join(out), Distinct(keptOwned + keptWanted));
  }

  // ----- what the result means

  /** No two lines of the refs sections define the same ref. */
  ghost predicate UniqueRefs(lines: seq<string>) {
    forall i, j :: 0 <= i < j < |lines| && EntryAt(lines, i) && EntryAt(lines, j) && RefName(lines[i]).Some? ==>
      RefName(lines[i]) != RefName(lines[j])
  }

  /** What the run does with one entry line, by its name alone. */
  function Rewrite(owned: seq<string>, wanted: map<string, string>, line: string): seq<string> {
    match RefName(line)
    case Some(r) => if r in owned then (if r in wanted then [RefLine(r, wanted[r])] else []) else [line]
    case None => [line]
  }

  /** A rewriting of entry lines. */
  type Rewriting = string -> seq<string>

  function Rewriter(owned: seq<string>, wanted: map<string, string>): Rewriting {
    line => Rewrite(owned, wanted, line)
  }

  function ByName(rw: Rewriting, lines: seq<string>, inside: bool): seq<string> {
    if lines == [] then []
    else
      var init, last := lines[..|lines| - 1], lines[|lines| - 1];
      ByName(rw, init, inside)
      + if Indented(last) && InsideAfter(init, inside) then rw(last) else [last]
  }

  function EachRewritten(rw: Rewriting, entries: seq<string>): seq<string> {
    if entries == [] then []
    else EachRewritten(rw, entries[..|entries| - 1]) + rw(entries[|entries| - 1])
  }

  lemma EntryInPrefix(lines: seq<string>, n: nat, i: nat)
    requires i < n <= |lines|
    ensures EntryAt(lines[..n], i) <==> EntryAt(lines, i)
  {
    assert lines[..n][..i] == lines[..i];
  }

  lemma {:induction false} RefAtSound(lines: seq<string>, r: string)
    requires r in RefAt(lines)
    ensures EntryAt(lines, RefAt(lines)[r]) && RefName(lines[RefAt(lines)[r]]) == Some(r)
  {
    var n := |lines| - 1;
    if RefAt(lines)[r] != n {
      RefAtSound(lines[..n], r);
      EntryInPrefix(lines, n, RefAt(lines)[r]);
    } else if r in RefAt(lines[..n]) {
      RefAtSound(lines[..n], r);
    }
  }

  lemma {:induction false} RefAtComplete(lines: seq<string>, i: nat)
    requires EntryAt(lines, i) && RefName(lines[i]).Some?
    ensures RefName(lines[i]).value in RefAt(lines) && RefAt(lines)[RefName(lines[i]).value] >= i
  {
    var n := |lines| - 1;
    if i < n {
      EntryInPrefix(lines, n, i);
      RefAtComplete(lines[..n], i);
    }
  }

  lemma {:induction false} DroppedIsExact(owned: seq<string>, wanted: map<string, string>, at: map<string, nat>, i: nat)
    ensures i in Dropped(owned, wanted, at) <==> exists r :: r in owned && r !in wanted && r in at && at[r] == i
  {
    if owned != [] {
      DroppedIsExact(owned[..|owned| - 1], wanted, at, i);
      assert owned == owned[..|owned| - 1] + [owned[|owned| - 1]];
    }
  }

  lemma {:induction false} RewrittenIsExact(refs: seq<string>, owned: seq<string>, wanted: map<string, string>,
                                            at: map<string, nat>, i: nat)
    requires forall r :: r in refs ==> r in wanted
    requires forall q, r :: q in at && r in at && at[q] == at[r] ==> q == r
    ensures var m := Rewritten(refs, owned, wanted, at);
            && (i in m <==> exists r :: r in refs && r in owned && r in at && at[r] == i)
            && (forall r :: r in refs && r in owned && r in at && at[r] == i ==> m[i] == RefLine(r, wanted[r]))
  {
    if refs != [] {
      RewrittenIsExact(refs[..|refs| - 1], owned, wanted, at, i);
      assert refs == refs[..|refs| - 1] + [refs[|refs| - 1]];
    }
  }

  /** What a run emits for one line. */
  function LineOut(lines: seq<string>, drop: set<nat>, rewrite: map<nat, string>, i: nat): seq<string>
    requires i < |lines|
  {
    if i in drop then [] else if i in rewrite then [rewrite[i]] else [lines[i]]
  }

  function LineByName(lines: seq<string>, rw: Rewriting, i: nat): seq<string>
    requires i < |lines|
  {
    if EntryAt(lines, i) then rw(lines[i]) else [lines[i]]
  }

  /** Under unique refs, the planned line numbers hit exactly the lines that define the refs. */
  lemma {:induction false} PlanIsByName(lines: seq<string>, desired: seq<Desired>, managed: seq<string>, i: nat)
    requires UniqueRefs(lines) && i < |lines|
    ensures LineOut(lines, Dropped(Distinct(managed), Wanted(desired), RefAt(lines)),
                    Rewritten(WantedRefs(desired), managed, Wanted(desired), RefAt(lines)), i)
            == LineByName(lines, Rewriter(managed, Wanted(desired)), i)
  {
    var at, wanted := RefAt(lines), Wanted(desired);
    forall q | q in at
      ensures EntryAt(lines, at[q]) && RefName(lines[at[q]]) == Some(q)
    {
      RefAtSound(lines, q);
    }
    DroppedIsExact(Distinct(managed), wanted, at, i);
    RewrittenIsExact(WantedRefs(desired), managed, wanted, at, i);
    if EntryAt(lines, i) && RefName(lines[i]).Some? {
      RefAtComplete(lines, i);
      var r := RefName(lines[i]).value;
      assert at[r] == i;
    }
  }

  lemma ByNameStep(rw: Rewriting, lines: seq<string>, k: nat, n: nat)
    requires k <= n < |lines|
    ensures ByName(rw, lines[k..n + 1], InsideAfter(lines[..k], false))
            == ByName(rw, lines[k..n], InsideAfter(lines[..k], false)) + LineByName(lines, rw, n)
  {
    var part := lines[k..n + 1];
    assert part[..|part| - 1] == lines[k..n] && part[|part| - 1] == lines[n];
    assert lines[..n] == lines[..k] + lines[k..n];
    EntriesSplit(lines[..k], lines[k..n], false);
  }

  lemma ByNamePrefix(rw: Rewriting, lines: seq<string>, n: nat)
    requires n < |lines|
    ensures ByName(rw, lines[..n + 1], false) == ByName(rw, lines[..n], false) + LineByName(lines, rw, n)
  {
    assert lines[..n + 1][..n] == lines[..n] && lines[..n + 1][n] == lines[n];
  }

  ghost predicate PlannedByName(lines: seq<string>, rw: Rewriting, drop: set<nat>, rewrite: map<nat, string>) {
    forall i: nat :: i < |lines| ==> LineOut(lines, drop, rewrite, i) == LineByName(lines, rw, i)
  }

  lemma EmittedStep(lines: seq<string>, rw: Rewriting, drop: set<nat>, rewrite: map<nat, string>, ins: Insertion,
                    n: nat)
    requires n < |lines| && PlannedByName(lines, rw, drop, rewrite)
    ensures Emitted(lines, drop, rewrite, ins, n + 1)
            == Emitted(lines, drop, rewrite, ins, n) + LineByName(lines, rw, n)
               + if ins.anchor == Some(n) then ins.body else []
  {
    assert LineOut(lines, drop, rewrite, n) == LineByName(lines, rw, n);
  }

  lemma {:induction false} PlannedIsByName(lines: seq<string>, desired: seq<Desired>, managed: seq<string>)
    requires UniqueRefs(lines)
    ensures PlannedByName(lines, Rewriter(managed, Wanted(desired)),
                          Dropped(Distinct(managed), Wanted(desired), RefAt(lines)),
                          Rewritten(WantedRefs(desired), managed, Wanted(desired), RefAt(lines)))
  {
    forall i: nat | i < |lines|
      ensures LineOut(lines, Dropped(Distinct(managed), Wanted(desired), RefAt(lines)),
                      Rewritten(WantedRefs(desired), managed, Wanted(desired), RefAt(lines)), i)
              == LineByName(lines, Rewriter(managed, Wanted(desired)), i)
    {
      PlanIsByName(lines, desired, managed, i);
    }
  }

  lemma {:induction false} EmittedBefore(lines: seq<string>, rw: Rewriting, drop: set<nat>, rewrite: map<nat, string>,
                                         ins: Insertion, n: nat)
    requires n <= |lines| && PlannedByName(lines, rw, drop, rewrite)
    requires ins.anchor.Some? ==> n <= ins.anchor.value
    ensures Emitted(lines, drop, rewrite, ins, n) == ByName(rw, lines[..n], false)
  {
    if n > 0 {
      EmittedBefore(lines, rw, drop, rewrite, ins, n - 1);
      EmittedStep(lines, rw, drop, rewrite, ins, n - 1);
      ByNamePrefix(rw, lines, n - 1);
    }
  }

  /** From line `k` on the emitted lines are the old ones rewritten by name. */
  ghost predicate ByNameFrom(lines: seq<string>, rw: Rewriting, drop: set<nat>, rewrite: map<nat, string>,
                             ins: Insertion, k: nat, n: nat)
    requires k <= n <= |lines|
  {
    Emitted(lines, drop, rewrite, ins, n)
    == Emitted(lines, drop, rewrite, ins, k) + ByName(rw, lines[k..n], InsideAfter(lines[..k], false))
  }

  lemma NoneByName(lines: seq<string>, rw: Rewriting, drop: set<nat>, rewrite: map<nat, string>, ins: Insertion, k: nat)
    requires k <= |lines|
    ensures ByNameFrom(lines, rw, drop, rewrite, ins, k, k)
  {
    assert lines[k..k] == [];
  }

  lemma {:induction false} EmittedMore(lines: seq<string>, rw: Rewriting, drop: set<nat>, rewrite: map<nat, string>,
                                       ins: Insertion, k: nat, n: nat)
    requires k <= n < |lines| && PlannedByName(lines, rw, drop, rewrite) && ins.anchor != Some(n)
    requires ByNameFrom(lines, rw, drop, rewrite, ins, k, n)
    ensures ByNameFrom(lines, rw, drop, rewrite, ins, k, n + 1)
  {
    EmittedStep(lines, rw, drop, rewrite, ins, n);
    ByNameStep(rw, lines, k, n);
  }

  lemma {:induction false} EmittedAfter(lines: seq<string>, rw: Rewriting, drop: set<nat>, rewrite: map<nat, string>,
                                        ins: Insertion, k: nat, n: nat)
    requires k <= n <= |lines| && PlannedByName(lines, rw, drop, rewrite)
    requires ins.anchor.Some? ==> ins.anchor.value < k
    ensures ByNameFrom(lines, rw, drop, rewrite, ins, k, n)
  {
    if n == k {
      NoneByName(lines, rw, drop, rewrite, ins, k);
    } else {
      EmittedAfter(lines, rw, drop, rewrite, ins, k, n - 1);
      EmittedMore(lines, rw, drop, rewrite, ins, k, n - 1);
    }
  }

  /** The emitted lines are the old ones rewritten by name, with the insertion after its anchor. */
  lemma EmittedByName(lines: seq<string>, rw: Rewriting, drop: set<nat>, rewrite: map<nat, string>, ins: Insertion,
                      k: nat)
    requires k < |lines| && PlannedByName(lines, rw, drop, rewrite)
    requires ins.anchor == Some(k)
    ensures Emitted(lines, drop, rewrite, ins, |lines|)
            == ByName(rw, lines[..k + 1], false) + ins.body
              + ByName(rw, lines[k + 1..], InsideAfter(lines[..k + 1], false))
  {
    EmittedAfter(lines, rw, drop, rewrite, ins, k + 1, |lines|);
    assert lines[k + 1..|lines|] == lines[k + 1..];
    EmittedStep(lines, rw, drop, rewrite, ins, k);
    EmittedBefore(lines, rw, drop, rewrite, ins, k);
    ByNamePrefix(rw, lines, k);
  }

  lemma SingleEntry(line: string, inside: bool)
    ensures Entries([line], inside) == if Indented(line) && inside then [line] else []
    ensures InsideAfter([line], inside) == if Indented(line) then inside else RefsHead(line)
  {
    assert [line][..0] == [];
  }

  /** Rewritten entry lines are entry lines. */
  ghost predicate StaysInside(rw: Rewriting) {
    forall line :: Indented(line) ==> InsideAfter(rw(line), true) && Entries(rw(line), true) == rw(line)
  }

  lemma RewriterStaysInside(owned: seq<string>, wanted: map<string, string>)
    requires forall r :: r in wanted ==> IsRefName(r)
    ensures StaysInside(Rewriter(owned, wanted))
  {
    forall line | Indented(line)
      ensures var out := Rewrite(owned, wanted, line); InsideAfter(out, true) && Entries(out, true) == out
    {
      var out := Rewrite(owned, wanted, line);
      if out != [] {
        SingleEntry(out[0], true);
      }
    }
  }

  lemma {:induction false} ByNameEntries(rw: Rewriting, lines: seq<string>, inside: bool)
    requires StaysInside(rw)
    ensures InsideAfter(ByName(rw, lines, inside), inside) == InsideAfter(lines, inside)
    ensures Entries(ByName(rw, lines, inside), inside) == EachRewritten(rw, Entries(lines, inside))
  {
    if lines != [] {
      var init, last := lines[..|lines| - 1], lines[|lines| - 1];
      ByNameEntries(rw, init, inside);
      if Indented(last) && InsideAfter(init, inside) {
        EntriesSplit(ByName(rw, init, inside), rw(last), inside);
        var es := Entries(lines, inside);
        assert es[..|es| - 1] == Entries(init, inside) && es[|es| - 1] == last;
      } else {
        SingleEntry(last, InsideAfter(init, inside));
        EntriesSplit(ByName(rw, init, inside), [last], inside);
        assert Entries(lines, inside) == Entries(init, inside);
        assert Entries([last], InsideAfter(init, inside)) == [];
      }
    }
  }

  lemma {:induction false} ReadRewritten(owned: seq<string>, wanted: map<string, string>, entries: seq<string>,
                                         ref: string)
    requires forall r :: r in wanted ==> IsRefName(r) && NoneOf(wanted[r], LineBreak)
    ensures FirstValue(EachRewritten(Rewriter(owned, wanted), entries), ref)
            == if ref !in owned then FirstValue(entries, ref)
               else if ref in wanted && exists e :: e in entries && RefName(e) == Some(ref) then Some(wanted[ref])
               else None
  {
    if entries != [] {
      var init, last := entries[..|entries| - 1], entries[|entries| - 1];
      assert entries == init + [last];
      ReadRewritten(owned, wanted, init, ref);
      FirstValueSplit(EachRewritten(Rewriter(owned, wanted), init), Rewrite(owned, wanted, last), ref);
      ReadOne(owned, wanted, last, ref);
      assert (exists e :: e in entries && RefName(e) == Some(ref)) <==>
             (exists e :: e in init && RefName(e) == Some(ref)) || RefName(last) == Some(ref);
    }
  }

  lemma ReadOne(owned: seq<string>, wanted: map<string, string>, line: string, ref: string)
    requires forall r :: r in wanted ==> IsRefName(r) && NoneOf(wanted[r], LineBreak)
    ensures FirstValue(Rewrite(owned, wanted, line), ref)
            == if ref !in owned then ReadLine(line, ref)
               else if ref in wanted && RefName(line) == Some(ref) then Some(wanted[ref]) else None
  {
    var out := Rewrite(owned, wanted, line);
    if out != [] {
      assert out == [out[0]] && out[..0] == [];
      assert FirstValue(out, ref) == ReadLine(out[0], ref);
    }
    if RefName(line).Some? && RefName(line).value in owned && RefName(line).value in wanted {
      PrintedReads(RefName(line).value, wanted[RefName(line).value]);
    }
  }

  lemma {:induction false} ReadAdded(refs: seq<string>, wanted: map<string, string>, ref: string)
    requires forall r :: r in refs ==> r in wanted && IsRefName(r) && NoneOf(wanted[r], LineBreak)
    ensures FirstValue(RefLines(refs, wanted), ref) == if ref in refs then Some(wanted[ref]) else None
  {
    if refs != [] {
      var init, last := refs[..|refs| - 1], refs[|refs| - 1];
      assert refs == init + [last];
      ReadAdded(init, wanted, ref);
      PrintedReads(last, wanted[last]);
      var line := RefLine(last, wanted[last]);
      FirstValueSplit(RefLines(init, wanted), [line], ref);
      assert [line][..0] == [];
      assert FirstValue([line], ref) == ReadLine(line, ref);
    }
  }

  // ----- entries and lines

  lemma {:induction false} InEntries(lines: seq<string>, e: string)
    ensures e in Entries(lines, false) <==> exists i: nat :: EntryAt(lines, i) && lines[i] == e
  {
    if lines != [] {
      var n := |lines| - 1;
      InEntries(lines[..n], e);
      if EntryAt(lines, n) && lines[n] == e {
        assert e in Entries(lines, false);
      }
      if i: nat :| EntryAt(lines[..n], i) && lines[..n][i] == e {
        EntryInPrefix(lines, n, i);
        assert EntryAt(lines, i) && lines[i] == e;
      }
      if i: nat :| EntryAt(lines, i) && lines[i] == e {
        if i < n {
          EntryInPrefix(lines, n, i);
          assert EntryAt(lines[..n], i) && lines[..n][i] == e;
        }
      }
    }
  }

  /** A ref is defined exactly when some entry has its name. */
  lemma DefinedByEntry(lines: seq<string>, r: string)
    ensures r in RefAt(lines) <==> exists e :: e in Entries(lines, false) && RefName(e) == Some(r)
  {
    if r in RefAt(lines) {
      RefAtSound(lines, r);
      InEntries(lines, lines[RefAt(lines)[r]]);
    }
    if e :| e in Entries(lines, false) && RefName(e) == Some(r) {
      InEntries(lines, e);
      var i: nat :| EntryAt(lines, i) && lines[i] == e;
      RefAtComplete(lines, i);
    }
  }

  lemma {:induction false} InRewritten(rw: Rewriting, entries: seq<string>, e: string)
    ensures e in EachRewritten(rw, entries) <==> exists d :: d in entries && e in rw(d)
  {
    if entries != [] {
      InRewritten(rw, entries[..|entries| - 1], e);
      assert entries == entries[..|entries| - 1] + [entries[|entries| - 1]];
    }
  }

  lemma {:induction false} InRefLines(refs: seq<string>, wanted: map<string, string>, e: string)
    requires forall r :: r in refs ==> r in wanted
    ensures e in RefLines(refs, wanted) <==> exists r :: r in refs && e == RefLine(r, wanted[r])
  {
    if refs != [] {
      InRefLines(refs[..|refs| - 1], wanted, e);
      assert refs == refs[..|refs| - 1] + [refs[|refs| - 1]];
    }
  }

  lemma {:induction false} RefLinesAreEntries(refs: seq<string>, wanted: map<string, string>)
    requires forall r :: r in refs ==> r in wanted
    ensures Entries(RefLines(refs, wanted), true) == RefLines(refs, wanted) && InsideAfter(RefLines(refs, wanted), true)
  {
    if refs != [] {
      var init, last := refs[..|refs| - 1], refs[|refs| - 1];
      RefLinesAreEntries(init, wanted);
      SingleEntry(RefLine(last, wanted[last]), true);
      EntriesSplit(RefLines(init, wanted), [RefLine(last, wanted[last])], true);
    }
  }

  // ----- the entries of the result

  ghost predicate GoodDesired(desired: seq<Desired>) {
    && NoRepeats(Refs(desired))
    && forall i :: 0 <= i < |desired| ==> IsRefName(desired[i].ref) && NoneOf(desired[i].value, LineBreak)
  }

  lemma {:induction false} GoodWanted(desired: seq<Desired>)
    requires GoodDesired(desired)
    ensures forall r :: r in Wanted(desired) ==> IsRefName(r) && NoneOf(Wanted(desired)[r], LineBreak)
    ensures forall i :: 0 <= i < |desired| ==>
            desired[i].ref in Wanted(desired) && Wanted(desired)[desired[i].ref] == desired[i].value
  {
    if desired != [] {
      var init := desired[..|desired| - 1];
      assert forall i :: 0 <= i < |init| ==> Refs(init)[i] == Refs(desired)[i];
      GoodWanted(init);
      forall i | 0 <= i < |desired| - 1
        ensures desired[i].ref != desired[|desired| - 1].ref
      {
        assert Refs(desired)[i] != Refs(desired)[|desired| - 1];
      }
    }
  }

  /** There is a `refs:` line, or a `version: 1` line that no indented line follows, or nothing to add. */
  predicate Placeable(lines: seq<string>, add: seq<string>) {
    || add == []
    || FirstIndex(lines, RefsHead).Some?
    || (var v := FirstIndex(lines, VersionHead);
        v.Some? && (v.value + 1 == |lines| || !Indented(lines[v.value + 1])))
  }

  lemma {:induction false} StartDoesNotMatter(lines: seq<string>, inside: bool)
    requires lines == [] || !Indented(lines[0])
    ensures Entries(lines, inside) == Entries(lines, false)
    ensures lines != [] ==> InsideAfter(lines, inside) == InsideAfter(lines, false)
  {
    if |lines| == 1 {
      SingleEntry(lines[0], inside);
      SingleEntry(lines[0], false);
      assert lines == [lines[0]];
    } else if lines != [] {
      StartDoesNotMatter(lines[..|lines| - 1], inside);
    }
  }

  lemma HeadOpensSection(lines: seq<string>, k: nat)
    requires k < |lines| && RefsHead(lines[k])
    ensures InsideAfter(lines[..k + 1], false)
  {
    assert lines[..k + 1][..k] == lines[..k];
  }

  lemma {:induction false} EntriesWithoutInsertion(lines: seq<string>, rw: Rewriting, drop: set<nat>,
                                                   rewrite: map<nat, string>, ins: Insertion)
    requires StaysInside(rw) && PlannedByName(lines, rw, drop, rewrite) && ins.anchor.None?
    ensures Entries(Emitted(lines, drop, rewrite, ins, |lines|), false) == EachRewritten(rw, Entries(lines, false))
  {
    EmittedBefore(lines, rw, drop, rewrite, ins, |lines|);
    assert lines[..|lines|] == lines;
    ByNameEntries(rw, lines, false);
  }

  /** The entries after a run: the old ones rewritten by name, with the added refs at one place between. */
  lemma {:induction false} EntriesOfResult(lines: seq<string>, desired: seq<Desired>, managed: seq<string>)
    returns (front: seq<string>, back: seq<string>)
    requires UniqueRefs(lines) && GoodDesired(desired)
    requires Placeable(lines, Additions(desired, RefAt(lines)))
    ensures front + back == Entries(lines, false)
    ensures ReconcileLines(lines, desired, managed).Some?
    ensures var rw := Rewriter(managed, Wanted(desired));
            Entries(ReconcileLines(lines, desired, managed).value, false)
            == EachRewritten(rw, front) + RefLines(Additions(desired, RefAt(lines)), Wanted(desired))
              + EachRewritten(rw, back)
  {
    var at, wanted := RefAt(lines), Wanted(desired);
    var rw := Rewriter(managed, wanted);
    var add := Additions(desired, at);
    var ins := PlanInsertion(lines, add, wanted);
    var drop := Dropped(Distinct(managed), wanted, at);
    var rewrite := Rewritten(WantedRefs(desired), managed, wanted, at);
    GoodWanted(desired);
    RewriterStaysInside(managed, wanted);
    PlannedIsByName(lines, desired, managed);
    if add == [] {
      front, back := Entries(lines, false), [];
      EntriesWithoutInsertion(lines, rw, drop, rewrite, ins);
    } else {
      front, back := EntriesAroundInsertion(lines, rw, wanted, add, drop, rewrite);
    }
  }

  /** Inserting after a `refs:` line: the added lines join that section. */
  lemma InsertedIntoSection(pre: seq<string>, post: seq<string>, rw: Rewriting, body: seq<string>)
    requires StaysInside(rw) && InsideAfter(pre, false)
    requires Entries(body, true) == body && InsideAfter(body, true)
    ensures Entries(ByName(rw, pre, false) + body + ByName(rw, post, true), false)
            == EachRewritten(rw, Entries(pre, false)) + body + EachRewritten(rw, Entries(post, true))
  {
    ByNameEntries(rw, pre, false);
    ByNameEntries(rw, post, true);
    EntriesSplit(ByName(rw, pre, false), body, false);
    EntriesSplit(ByName(rw, pre, false) + body, ByName(rw, post, true), false);
  }

  lemma SectionEntries(body: seq<string>)
    requires Entries(body, true) == body && InsideAfter(body, true)
    ensures Entries(["refs:"] + body, false) == body && InsideAfter(["refs:"] + body, false)
  {
    HeadLine();
    EntriesSplit(["refs:"], body, false);
  }

  lemma {:induction false} TailEntries(post: seq<string>, rw: Rewriting)
    requires StaysInside(rw) && (post == [] || !Indented(post[0]))
    ensures Entries(ByName(rw, post, false), true) == EachRewritten(rw, Entries(post, false))
  {
    ByNameEntries(rw, post, false);
    UnindentedByName(rw, post, false);
    StartDoesNotMatter(ByName(rw, post, false), true);
  }

  /** Inserting a new section where no section is open and no indented line follows. */
  lemma {:induction false} InsertedAsSection(pre: seq<string>, post: seq<string>, rw: Rewriting, body: seq<string>)
    requires StaysInside(rw) && !InsideAfter(pre, false)
    requires post == [] || !Indented(post[0])
    requires Entries(body, true) == body && InsideAfter(body, true)
    ensures Entries(ByName(rw, pre, false) + (["refs:"] + body) + ByName(rw, post, false), false)
            == EachRewritten(rw, Entries(pre, false)) + body + EachRewritten(rw, Entries(post, false))
  {
    var first, section, last := ByName(rw, pre, false), ["refs:"] + body, ByName(rw, post, false);
    ByNameEntries(rw, pre, false);
    SectionEntries(body);
    TailEntries(post, rw);
    EntriesSplit(first, section, false);
    EntriesSplit(first + section, last, false);
  }

  lemma {:induction false} EntriesAroundInsertion(lines: seq<string>, rw: Rewriting, wanted: map<string, string>,
                                                  add: seq<string>, drop: set<nat>, rewrite: map<nat, string>)
    returns (front: seq<string>, back: seq<string>)
    requires StaysInside(rw) && PlannedByName(lines, rw, drop, rewrite)
    requires add != [] && (forall r :: r in add ==> r in wanted) && Placeable(lines, add)
    ensures front + back == Entries(lines, false)
    ensures var ins := PlanInsertion(lines, add, wanted);
            ins.anchor.Some? && Entries(Emitted(lines, drop, rewrite, ins, |lines|), false)
            == EachRewritten(rw, front) + RefLines(add, wanted) + EachRewritten(rw, back)
  {
    var ins := PlanInsertion(lines, add, wanted);
    var k := ins.anchor.value;
    var pre, post := lines[..k + 1], lines[k + 1..];
    assert lines == pre + post;
    EntriesSplit(pre, post, false);
    front, back := Entries(pre, false), Entries(post, InsideAfter(pre, false));
    EmittedByName(lines, rw, drop, rewrite, ins, k);
    RefLinesAreEntries(add, wanted);
    InsertionOpens(lines, k, add, wanted);
    if FirstIndex(lines, RefsHead).Some? {
      InsertedIntoSection(pre, post, rw, RefLines(add, wanted));
    } else {
      InsertedAsSection(pre, post, rw, RefLines(add, wanted));
    }
  }

  /** After its anchor an insertion is inside a section, or opens one where none is open. */
  lemma {:induction false} InsertionOpens(lines: seq<string>, k: nat, add: seq<string>, wanted: map<string, string>)
    requires add != [] && (forall r :: r in add ==> r in wanted) && Placeable(lines, add)
    requires k < |lines| && PlanInsertion(lines, add, wanted).anchor == Some(k)
    ensures InsideAfter(lines[..k + 1], false) == FirstIndex(lines, RefsHead).Some?
    ensures FirstIndex(lines, RefsHead).None? ==> lines[k + 1..] == [] || !Indented(lines[k + 1..][0])
  {
    var pre := lines[..k + 1];
    if FirstIndex(lines, RefsHead).Some? {
      HeadOpensSection(lines, k);
    } else {
      NoIndex(lines, RefsHead, k);
      assert pre[..k] == lines[..k] && pre[k] == lines[k];
    }
  }

  lemma HeadLine()
    ensures RefsHead("refs:") && Entries(["refs:"], true) == [] && Entries(["refs:"], false) == []
    ensures InsideAfter(["refs:"], true) && InsideAfter(["refs:"], false)
  {
    assert DropLeft("refs:", Space) == "refs:";
    assert DropRight("refs:", Space) == "refs:";
    SingleEntry("refs:", true);
    SingleEntry("refs:", false);
  }

  lemma {:induction false} UnindentedByName(rw: Rewriting, lines: seq<string>, inside: bool)
    requires lines == [] || !Indented(lines[0])
    ensures var out := ByName(rw, lines, inside);
            (lines == [] ==> out == []) && (lines != [] ==> out != [] && out[0] == lines[0])
  {
    if |lines| > 1 {
      UnindentedByName(rw, lines[..|lines| - 1], inside);
    }
  }

  // ----- the promise

  /** What a ref must read as afterwards. */
  function Expected(lines: seq<string>, desired: seq<Desired>, managed: seq<string>, ref: string): Option<string> {
    if ref in Wanted(desired) && (ref in managed || ref !in RefAt(lines)) then Some(Wanted(desired)[ref])
    else if ref in managed && ref !in Wanted(desired) then None
    else FirstValue(Entries(lines, false), ref)
  }

  lemma ResultReads(lines: seq<string>, desired: seq<Desired>, managed: seq<string>, ref: string)
    requires UniqueRefs(lines) && GoodDesired(desired)
    requires Placeable(lines, Additions(desired, RefAt(lines)))
    ensures ReconcileLines(lines, desired, managed).Some?
    ensures FirstValue(Entries(ReconcileLines(lines, desired, managed).value, false), ref)
            == Expected(lines, desired, managed, ref)
  {
    var wanted, add := Wanted(desired), Additions(desired, RefAt(lines));
    var rw := Rewriter(managed, wanted);
    var front, back := EntriesOfResult(lines, desired, managed);
    GoodWanted(desired);
    ReadRewritten(managed, wanted, front, ref);
    ReadRewritten(managed, wanted, back, ref);
    ReadAdded(add, wanted, ref);
    FirstValueSplit(EachRewritten(rw, front), RefLines(add, wanted), ref);
    FirstValueSplit(EachRewritten(rw, front) + RefLines(add, wanted), EachRewritten(rw, back), ref);
    FirstValueSplit(front, back, ref);
    DefinedByEntry(lines, ref);
    assert forall e :: e in Entries(lines, false) <==> e in front || e in back;
    if ref !in RefAt(lines) {
      Undefined(front, ref);
      Undefined(back, ref);
    }
  }

  lemma {:induction false} Undefined(entries: seq<string>, ref: string)
    requires forall e :: e in entries ==> RefName(e) != Some(ref)
    ensures FirstValue(entries, ref) == None
  {
    if entries != [] {
      Undefined(entries[..|entries| - 1], ref);
      assert entries[|entries| - 1] in entries;
    }
  }

  // ----- a second run changes nothing

  /** Nothing is left to do: every wanted ref is there, and every owned line is as it would be printed. */
  ghost predicate Settled(lines: seq<string>, desired: seq<Desired>, managed: seq<string>) {
    && NoRepeats(managed)
    && (forall r :: r in managed ==> r in Wanted(desired))
    && (forall r :: r in Wanted(desired) ==> r in RefAt(lines))
    && (forall e :: e in Entries(lines, false) && RefName(e).Some? && RefName(e).value in managed ==>
          RefName(e).value in Wanted(desired) && e == RefLine(RefName(e).value, Wanted(desired)[RefName(e).value]))
  }

  /** The last entry that defines a ref. */
  function LastDefining(entries: seq<string>, ref: string): Option<string> {
    if entries == [] then None
    else
      var last := entries[|entries| - 1];
      if RefName(last) == Some(ref) then Some(last) else LastDefining(entries[..|entries| - 1], ref)
  }

  lemma {:induction false} LastSplit(a: seq<string>, b: seq<string>, ref: string)
    ensures LastDefining(a + b, ref)
            == if LastDefining(b, ref).Some? then LastDefining(b, ref) else LastDefining(a, ref)
  {
    if b == [] {
      assert a + b == a;
    } else {
      assert (a + b)[..|a + b| - 1] == a + b[..|b| - 1];
      LastSplit(a, b[..|b| - 1], ref);
    }
  }

  lemma {:induction false} LastIsEntry(entries: seq<string>, ref: string)
    ensures LastDefining(entries, ref).Some? ==>
              LastDefining(entries, ref).value in entries && RefName(LastDefining(entries, ref).value) == Some(ref)
  {
    if entries != [] {
      LastIsEntry(entries[..|entries| - 1], ref);
    }
  }

  /** A run looks at a ref where it is defined last. */
  lemma {:induction false} LastIsAt(lines: seq<string>, ref: string)
    ensures ref in RefAt(lines) ==> RefAt(lines)[ref] < |lines|
    ensures LastDefining(Entries(lines, false), ref)
            == if ref in RefAt(lines) then Some(lines[RefAt(lines)[ref]]) else None
  {
    if lines != [] {
      var n := |lines| - 1;
      LastIsAt(lines[..n], ref);
      LastSplit(Entries(lines[..n], false), if EntryAt(lines, n) then [lines[n]] else [], ref);
    }
  }

  /** Nothing is to be added or dropped: what the platform owns is wanted, and what is wanted is there. */
  ghost predicate Complete(lines: seq<string>, desired: seq<Desired>, managed: seq<string>) {
    && NoRepeats(managed)
    && (forall r :: r in managed ==> r in Wanted(desired))
    && (forall r :: r in Wanted(desired) ==> r in RefAt(lines))
  }

  /** Every owned ref is last defined by the line a run would print for it. */
  ghost predicate AsPrinted(entries: seq<string>, managed: seq<string>, wanted: map<string, string>) {
    forall r :: r in managed && r in wanted && LastDefining(entries, r).Some? ==>
      LastDefining(entries, r).value == RefLine(r, wanted[r])
  }

  lemma {:induction false} EmittedEach(lines: seq<string>, rewrite: map<nat, string>, n: nat)
    requires n <= |lines|
    ensures var out := Emitted(lines, {}, rewrite, Insertion(None, []), n);
            |out| == n && forall i: nat :: i < n ==> out[i] == if i in rewrite then rewrite[i] else lines[i]
  {
    if n > 0 {
      EmittedEach(lines, rewrite, n - 1);
    }
  }

  lemma NothingDropped(lines: seq<string>, desired: seq<Desired>, managed: seq<string>)
    requires Complete(lines, desired, managed)
    ensures Dropped(Distinct(managed), Wanted(desired), RefAt(lines)) == {}
    ensures Additions(desired, RefAt(lines)) == [] && NowManaged(desired, managed, RefAt(lines)) == managed
  {
    var at := RefAt(lines);
    forall i | i in Dropped(Distinct(managed), Wanted(desired), at) ensures false {
      DroppedIsExact(Distinct(managed), Wanted(desired), at, i);
    }
    FilterNone(WantedRefs(desired), r => r !in at);
    DistinctOfDistinct(managed);
    FilterAll(managed, r => r in Wanted(desired));
    DistinctAbsorbs(managed, Filter(WantedRefs(desired), r => r !in at || r in managed));
  }

  /** Each ref has its own line. */
  lemma RefAtIsInjective(lines: seq<string>)
    ensures forall q, r :: q in RefAt(lines) && r in RefAt(lines) && RefAt(lines)[q] == RefAt(lines)[r] ==> q == r
  {
    forall q | q in RefAt(lines)
      ensures EntryAt(lines, RefAt(lines)[q]) && RefName(lines[RefAt(lines)[q]]) == Some(q)
    {
      RefAtSound(lines, q);
    }
  }

  lemma PrintedIsKept(lines: seq<string>, desired: seq<Desired>, managed: seq<string>, i: nat)
    requires AsPrinted(Entries(lines, false), managed, Wanted(desired)) && i < |lines|
    ensures var rewrite := Rewritten(WantedRefs(desired), managed, Wanted(desired), RefAt(lines));
            i in rewrite ==> rewrite[i] == lines[i]
  {
    var at, wanted := RefAt(lines), Wanted(desired);
    RefAtIsInjective(lines);
    RewrittenIsExact(WantedRefs(desired), managed, wanted, at, i);
    if i in Rewritten(WantedRefs(desired), managed, wanted, at) {
      var r :| r in WantedRefs(desired) && r in managed && r in at && at[r] == i;
      LastIsAt(lines, r);
    }
  }

  lemma OtherIsRewritten(lines: seq<string>, desired: seq<Desired>, managed: seq<string>, r: string)
    requires r in managed && r in Wanted(desired) && LastDefining(Entries(lines, false), r).Some?
    requires LastDefining(Entries(lines, false), r).value != RefLine(r, Wanted(desired)[r])
    ensures var rewrite := Rewritten(WantedRefs(desired), managed, Wanted(desired), RefAt(lines));
            exists i :: 0 <= i < |lines| && i in rewrite && rewrite[i] != lines[i]
  {
    var at, wanted := RefAt(lines), Wanted(desired);
    LastIsAt(lines, r);
    RefAtIsInjective(lines);
    RewrittenIsExact(WantedRefs(desired), managed, wanted, at, at[r]);
  }

  /** A complete file stays as it is exactly if every owned ref is last defined as it would be printed. */
  lemma {:induction false} StaysExactly(lines: seq<string>, desired: seq<Desired>, managed: seq<string>)
    requires Complete(lines, desired, managed)
    ensures ReconcileLines(lines, desired, managed).Some? && NowManaged(desired, managed, RefAt(lines)) == managed
    ensures ReconcileLines(lines, desired, managed).value == lines
            <==> AsPrinted(Entries(lines, false), managed, Wanted(desired))
  {
    NothingDropped(lines, desired, managed);
    EmittedEach(lines, Rewritten(WantedRefs(desired), managed, Wanted(desired), RefAt(lines)), |lines|);
    if AsPrinted(Entries(lines, false), managed, Wanted(desired)) {
      forall i: nat | i < |lines| ensures ReconcileLines(lines, desired, managed).value[i] == lines[i] {
        PrintedIsKept(lines, desired, managed, i);
      }
    } else {
      var r :| r in managed && r in Wanted(desired) && LastDefining(Entries(lines, false), r).Some?
               && LastDefining(Entries(lines, false), r).value != RefLine(r, Wanted(desired)[r]);
      OtherIsRewritten(lines, desired, managed, r);
    }
  }

  lemma {:induction false} SettledStays(lines: seq<string>, desired: seq<Desired>, managed: seq<string>)
    requires Settled(lines, desired, managed)
    ensures ReconcileLines(lines, desired, managed) == Some(lines)
    ensures NowManaged(desired, managed, RefAt(lines)) == managed
  {
    forall r ensures LastDefining(Entries(lines, false), r).Some? ==>
                       LastDefining(Entries(lines, false), r).value in Entries(lines, false)
                       && RefName(LastDefining(Entries(lines, false), r).value) == Some(r)
    {
      LastIsEntry(Entries(lines, false), r);
    }
    StaysExactly(lines, desired, managed);
  }

  lemma NowManagedIs(desired: seq<Desired>, managed: seq<string>, at: map<string, nat>)
    ensures NoRepeats(NowManaged(desired, managed, at))
    ensures forall r :: r in NowManaged(desired, managed, at) <==> r in Wanted(desired) && (r in managed || r !in at)
  {
    DistinctHasNoRepeats(Filter(Distinct(managed), r => r in Wanted(desired))
                         + Filter(WantedRefs(desired), r => r !in at || r in managed));
  }

  lemma OwnedEntryIsPrinted(lines: seq<string>, managed: seq<string>, add: seq<string>, wanted: map<string, string>,
                            front: seq<string>, back: seq<string>, e: string)
    requires front + back == Entries(lines, false)
    requires forall r :: r in wanted ==> IsRefName(r)
    requires forall r :: r in add ==> r in wanted
    requires e in EachRewritten(Rewriter(managed, wanted), front) + RefLines(add, wanted)
                  + EachRewritten(Rewriter(managed, wanted), back)
    requires RefName(e).Some? && RefName(e).value in wanted
    requires RefName(e).value in managed || RefName(e).value !in RefAt(lines)
    ensures e == RefLine(RefName(e).value, wanted[RefName(e).value])
  {
    var rw := Rewriter(managed, wanted);
    EntryOrigin(front, back, rw, add, wanted, e);
    if e in RefLines(add, wanted) {
      var r :| r in add && e == RefLine(r, wanted[r]);
      PrintedReads(r, wanted[r]);
    } else {
      var d :| (d in front || d in back) && e in rw(d);
      assert d in Entries(lines, false);
      OwnedIsPrinted(managed, wanted, d, e);
      DefinedByEntry(lines, RefName(e).value);
    }
  }

  lemma {:induction false} WantedIsDefined(lines: seq<string>, managed: seq<string>, add: seq<string>,
                                           wanted: map<string, string>, front: seq<string>, back: seq<string>,
                                           out: seq<string>, r: string)
    requires front + back == Entries(lines, false)
    requires r in wanted && IsRefName(r) && (r !in RefAt(lines) ==> r in add)
    requires forall q :: q in add ==> q in wanted
    requires Entries(out, false) == EachRewritten(Rewriter(managed, wanted), front) + RefLines(add, wanted)
                                    + EachRewritten(Rewriter(managed, wanted), back)
    ensures r in RefAt(out)
  {
    var rw := Rewriter(managed, wanted);
    DefinedByEntry(out, r);
    DefinedByEntry(lines, r);
    PrintedReads(r, wanted[r]);
    if r in RefAt(lines) {
      var d :| d in Entries(lines, false) && RefName(d) == Some(r);
      assert d in front || d in back;
      var e := if r in managed then RefLine(r, wanted[r]) else d;
      assert e in rw(d);
      EntryOrigin(front, back, rw, add, wanted, e);
    } else {
      EntryOrigin(front, back, rw, add, wanted, RefLine(r, wanted[r]));
    }
  }

  lemma ResultIsSettled(lines: seq<string>, desired: seq<Desired>, managed: seq<string>)
    requires UniqueRefs(lines) && GoodDesired(desired)
    requires Placeable(lines, Additions(desired, RefAt(lines)))
    ensures ReconcileLines(lines, desired, managed).Some?
    ensures Settled(ReconcileLines(lines, desired, managed).value, desired, NowManaged(desired, managed, RefAt(lines)))
  {
    var at, wanted := RefAt(lines), Wanted(desired);
    var add := Additions(desired, at);
    var front, back := EntriesOfResult(lines, desired, managed);
    var out := ReconcileLines(lines, desired, managed).value;
    var now := NowManaged(desired, managed, at);
    GoodWanted(desired);
    NowManagedIs(desired, managed, at);
    forall e | e in Entries(out, false) && RefName(e).Some? && RefName(e).value in now
      ensures e == RefLine(RefName(e).value, wanted[RefName(e).value])
    {
      OwnedEntryIsPrinted(lines, managed, add, wanted, front, back, e);
    }
    forall r | r in wanted
      ensures r in RefAt(out)
    {
      WantedIsDefined(lines, managed, add, wanted, front, back, out, r);
    }
  }

  lemma EntryOrigin(front: seq<string>, back: seq<string>, rw: Rewriting, add: seq<string>, wanted: map<string, string>,
                    e: string)
    requires forall r :: r in add ==> r in wanted
    ensures e in EachRewritten(rw, front) + RefLines(add, wanted) + EachRewritten(rw, back)
            <==> e in RefLines(add, wanted) || exists d :: (d in front || d in back) && e in rw(d)
    ensures e in RefLines(add, wanted) <==> exists r :: r in add && e == RefLine(r, wanted[r])
  {
    InRewritten(rw, front, e);
    InRewritten(rw, back, e);
    InRefLines(add, wanted, e);
  }

  lemma OwnedIsPrinted(owned: seq<string>, wanted: map<string, string>, d: string, e: string)
    requires forall r :: r in wanted ==> IsRefName(r)
    requires e in Rewrite(owned, wanted, d)
    ensures (e == d && (RefName(d).None? || RefName(d).value !in owned))
            || (RefName(d).Some? && RefName(d) == RefName(e) && RefName(d).value in wanted &&
                e == RefLine(RefName(d).value, wanted[RefName(d).value]))
  {
    if RefName(d).Some? && RefName(d).value in owned {
      PrintedReads(RefName(d).value, wanted[RefName(d).value]);
    }
  }

  // ----- from lines to text

  lemma {:induction false} DropLeftBlank(s: string, p: char -> bool)
    ensures DropLeft(s, p) == "" <==> AllOf(s, p)
    ensures DropLeft(s, p) != "" ==> !p(DropLeft(s, p)[0])
  {
    if s != "" && p(s[0]) {
      DropLeftBlank(s[1..], p);
      assert s == [s[0]] + s[1..];
    }
  }

  lemma {:induction false} DropRightBlank(s: string, p: char -> bool)
    ensures DropRight(s, p) == "" <==> AllOf(s, p)
  {
    if s != "" && p(s[|s| - 1]) {
      DropRightBlank(s[..|s| - 1], p);
      assert s == s[..|s| - 1] + [s[|s| - 1]];
    }
  }

  lemma TrimBlank(s: string)
    ensures Trim(s) == "" <==> AllOf(s, Space)
  {
    DropLeftBlank(s, Space);
    DropRightBlank(DropLeft(s, Space), Space);
  }

  predicate BlankLines(lines: seq<string>) {
    forall l :: l in lines ==> AllOf(l, Space)
  }

  lemma {:induction false} JoinBlank(lines: seq<string>)
    ensures AllOf(Join(lines), Space) <==> BlankLines(lines)
  {
    if |lines| == 1 {
      assert lines[0] in lines;
    } else if lines != [] {
      JoinBlank(lines[1..]);
      var tail := Join(lines[1..]);
      assert Join(lines) == lines[0] + ("\n" + tail);
      AllOfConcat(lines[0], "\n" + tail);
      AllOfConcat("\n", tail);
      assert lines[0] in lines;
      assert forall l :: l in lines <==> l == lines[0] || l in lines[1..];
    }
  }

  lemma AllOfConcat(a: string, b: string)
    ensures AllOf(a + b, Space) <==> AllOf(a, Space) && AllOf(b, Space)
  {
    if AllOf(a + b, Space) {
      forall i | 0 <= i < |a| ensures Space(a[i]) { assert (a + b)[i] == a[i]; }
      forall i | 0 <= i < |b| ensures Space(b[i]) { assert (a + b)[|a| + i] == b[i]; }
    }
  }

  lemma {:induction false} BlankHasNoEntries(lines: seq<string>)
    requires BlankLines(lines)
    ensures Entries(lines, false) == [] && !InsideAfter(lines, false)
  {
    if lines != [] {
      var last := lines[|lines| - 1];
      assert lines == lines[..|lines| - 1] + [last];
      BlankHasNoEntries(lines[..|lines| - 1]);
      TrimBlank(last);
    }
  }

  lemma {:induction false} EmittedLines(lines: seq<string>, drop: set<nat>, rewrite: map<nat, string>, ins: Insertion,
                                        n: nat)
    requires n <= |lines| && AreLines(lines) && AreLines(ins.body)
    requires forall i :: i in rewrite ==> IsLine(rewrite[i])
    ensures AreLines(Emitted(lines, drop, rewrite, ins, n))
  {
    if n > 0 {
      EmittedLines(lines, drop, rewrite, ins, n - 1);
      assert lines[n - 1] in lines;
    }
  }

  /**
   An entry is preceded by its section's head, which no run drops: a text that says something keeps
   saying something.
   */
  lemma {:induction false} EmittedNotBlank(lines: seq<string>, drop: set<nat>, rewrite: map<nat, string>,
                                           ins: Insertion, i: nat, n: nat)
    requires i < n <= |lines| && i !in drop && i !in rewrite
    ensures lines[i] in Emitted(lines, drop, rewrite, ins, n)
  {
    if i < n - 1 {
      EmittedNotBlank(lines, drop, rewrite, ins, i, n - 1);
    }
  }

  lemma {:induction false} SectionHasHead(lines: seq<string>) returns (k: nat)
    requires InsideAfter(lines, false)
    ensures k < |lines| && RefsHead(lines[k])
  {
    var last := lines[|lines| - 1];
    if Indented(last) {
      k := SectionHasHead(lines[..|lines| - 1]);
    } else {
      k := |lines| - 1;
    }
  }

  lemma {:induction false} RefLinesAreLines(refs: seq<string>, wanted: map<string, string>)
    requires forall r :: r in refs ==> r in wanted && IsRefName(r) && NoneOf(wanted[r], LineBreak)
    ensures AreLines(RefLines(refs, wanted))
  {
    if refs != [] {
      RefLinesAreLines(refs[..|refs| - 1], wanted);
      assert refs[|refs| - 1] in refs;
      PrintedIsLine(refs[|refs| - 1], wanted[refs[|refs| - 1]]);
    }
  }

  lemma {:induction false} RewrittenAreLines(refs: seq<string>, owned: seq<string>, wanted: map<string, string>,
                                             at: map<string, nat>)
    requires forall r :: r in refs ==> r in wanted && IsRefName(r) && NoneOf(wanted[r], LineBreak)
    ensures forall i :: i in Rewritten(refs, owned, wanted, at) ==> IsLine(Rewritten(refs, owned, wanted, at)[i])
  {
    if refs != [] {
      RewrittenAreLines(refs[..|refs| - 1], owned, wanted, at);
      assert refs[|refs| - 1] in refs;
      PrintedIsLine(refs[|refs| - 1], wanted[refs[|refs| - 1]]);
    }
  }

  /** The emitted lines survive joining and splitting, and a text that is not blank stays so. */
  lemma ResultText(lines: seq<string>, desired: seq<Desired>, managed: seq<string>)
    requires AreLines(lines) && !BlankLines(lines) && GoodDesired(desired) && UniqueRefs(lines)
    requires ReconcileLines(lines, desired, managed).Some?
    ensures var out := ReconcileLines(lines, desired, managed).value;
            Split(Join(out)) == out && Trim(Join(out)) != ""
  {
    var at, wanted := RefAt(lines), Wanted(desired);
    var add := Additions(desired, at);
    var ins := PlanInsertion(lines, add, wanted);
    var drop, rewrite := Dropped(Distinct(managed), wanted, at), Rewritten(WantedRefs(desired), managed, wanted, at);
    var out := ReconcileLines(lines, desired, managed).value;
    GoodWanted(desired);
    RefLinesAreLines(add, wanted);
    RewrittenAreLines(WantedRefs(desired), managed, wanted, at);
    EmittedLines(lines, drop, rewrite, ins, |lines|);
    var i := KeptLine(lines, desired, managed);
    EmittedNotBlank(lines, drop, rewrite, ins, i, |lines|);
    SplitJoin(out);
    JoinBlank(out);
    TrimBlank(Join(out));
  }

  lemma {:induction false} KeptLine(lines: seq<string>, desired: seq<Desired>, managed: seq<string>) returns (i: nat)
    requires !BlankLines(lines) && UniqueRefs(lines)
    ensures i < |lines| && !AllOf(lines[i], Space)
    ensures i !in Dropped(Distinct(managed), Wanted(desired), RefAt(lines))
    ensures i !in Rewritten(WantedRefs(desired), managed, Wanted(desired), RefAt(lines))
  {
    var l :| l in lines && !AllOf(l, Space);
    i :| i < |lines| && lines[i] == l;
    if EntryAt(lines, i) {
      i := SectionHasHead(lines[..i]);
      TrimBlank(lines[i]);
    }
    forall q | q in RefAt(lines)
      ensures EntryAt(lines, RefAt(lines)[q]) && RefName(lines[RefAt(lines)[q]]) == Some(q)
    {
      RefAtSound(lines, q);
    }
    DroppedIsExact(Distinct(managed), Wanted(desired), RefAt(lines), i);
    RewrittenIsExact(WantedRefs(desired), managed, Wanted(desired), RefAt(lines), i);
  }

  // ----- a file made from nothing

  function FreshLines(desired: seq<Desired>): seq<string> {
    WantedKeys(desired);
    ["version: 1", "refs:"] + RefLines(Refs(desired), Wanted(desired)) + [""]
  }

  lemma {:induction false} RefLinesIndexed(refs: seq<string>, wanted: map<string, string>)
    requires forall r :: r in refs ==> r in wanted
    ensures |RefLines(refs, wanted)| == |refs|
    ensures forall i :: 0 <= i < |refs| ==> RefLines(refs, wanted)[i] == RefLine(refs[i], wanted[refs[i]])
  {
    if refs != [] {
      RefLinesIndexed(refs[..|refs| - 1], wanted);
    }
  }

  lemma {:induction false} JoinWithEnd(lines: seq<string>)
    requires lines != []
    ensures Join(lines + [""]) == Join(lines) + "\n"
  {
    assert (lines + [""])[1..] == lines[1..] + [""];
    if |lines| > 1 {
      JoinWithEnd(lines[1..]);
    }
  }

  lemma FreshJoin(body: seq<string>)
    requires body != []
    ensures Join(["version: 1", "refs:"] + body + [""]) == "version: 1\nrefs:\n" + Join(body) + "\n"
  {
    JoinWithEnd(body);
    var tail := body + [""];
    var section, lines := ["refs:"] + tail, ["version: 1", "refs:"] + body + [""];
    assert lines[0] == "version: 1" && lines[1..] == section && section[0] == "refs:" && section[1..] == tail;
    assert Join(section) == "refs:" + "\n" + Join(tail);
    assert Join(lines) == "version: 1" + "\n" + Join(section);
    assert Join(lines) == "version: 1" + "\n" + ("refs:" + "\n" + (Join(body) + "\n"));
    assert "version: 1\nrefs:\n" == "version: 1" + "\n" + "refs:" + "\n";
  }

  lemma {:induction false} FreshBody(desired: seq<Desired>)
    requires GoodDesired(desired)
    ensures forall r :: r in Refs(desired) ==> r in Wanted(desired)
    ensures RefLines(Refs(desired), Wanted(desired))
            == seq(|desired|, i requires 0 <= i < |desired| => RefLine(desired[i].ref, desired[i].value))
    ensures AreLines(RefLines(Refs(desired), Wanted(desired)))
  {
    GoodWanted(desired);
    WantedKeys(desired);
    RefLinesAreLines(Refs(desired), Wanted(desired));
    BodyIsListed(desired, Wanted(desired));
  }

  lemma BodyIsListed(desired: seq<Desired>, wanted: map<string, string>)
    requires forall i :: 0 <= i < |desired| ==> desired[i].ref in wanted && wanted[desired[i].ref] == desired[i].value
    requires forall r :: r in Refs(desired) ==> r in wanted
    ensures RefLines(Refs(desired), wanted)
            == seq(|desired|, i requires 0 <= i < |desired| => RefLine(desired[i].ref, desired[i].value))
  {
    RefLinesIndexed(Refs(desired), wanted);
  }

  lemma FreshFrame(body: seq<string>)
    requires AreLines(body) && body != []
    ensures var lines := ["version: 1", "refs:"] + body + [""];
            Split(Join(lines)) == lines && Trim(Join(lines)) != ""
  {
    var lines := ["version: 1", "refs:"] + body + [""];
    forall l | l in lines ensures IsLine(l) {
      assert l == "version: 1" || l == "refs:" || l == "" || l in body;
    }
    SplitJoin(lines);
    JoinBlank(lines);
    assert lines[1] == "refs:" && !Space("refs:"[0]);
    TrimBlank(Join(lines));
  }

  lemma FreshIsLines(desired: seq<Desired>)
    requires GoodDesired(desired) && desired != []
    ensures Split(FreshText(desired)) == FreshLines(desired) && Trim(FreshText(desired)) != ""
  {
    FreshBody(desired);
    var body := RefLines(Refs(desired), Wanted(desired));
    FreshJoin(body);
    FreshFrame(body);
  }

  lemma VersionIsNoHead()
    ensures !Indented("version: 1") && !RefsHead("version: 1")
  {
    assert DropLeft("version: 1", Space) == "version: 1";
    assert DropRight("version: 1", Space) == "version: 1";
  }

  lemma FrameEntries(body: seq<string>)
    requires Entries(body, true) == body && InsideAfter(body, true)
    ensures Entries(["version: 1", "refs:"] + body + [""], false) == body
  {
    VersionIsNoHead();
    SingleEntry("version: 1", false);
    SectionEntries(body);
    SingleEntry("", true);
    EntriesSplit(["version: 1"], ["refs:"] + body, false);
    assert ["version: 1", "refs:"] + body == ["version: 1"] + (["refs:"] + body);
    EntriesSplit(["version: 1", "refs:"] + body, [""], false);
  }

  lemma FreshEntries(desired: seq<Desired>)
    requires GoodDesired(desired)
    ensures forall r :: r in Refs(desired) ==> r in Wanted(desired)
    ensures Entries(FreshLines(desired), false) == RefLines(Refs(desired), Wanted(desired))
  {
    FreshBody(desired);
    RefLinesAreEntries(Refs(desired), Wanted(desired));
    FrameEntries(RefLines(Refs(desired), Wanted(desired)));
  }

  lemma FreshIsSettled(desired: seq<Desired>)
    requires GoodDesired(desired)
    ensures Settled(FreshLines(desired), desired, Refs(desired))
  {
    var lines, wanted := FreshLines(desired), Wanted(desired);
    FreshEntries(desired);
    WantedKeys(desired);
    GoodWanted(desired);
    forall e | e in Entries(lines, false) && RefName(e).Some?
      ensures RefName(e).value in wanted && e == RefLine(RefName(e).value, wanted[RefName(e).value])
    {
      InRefLines(Refs(desired), wanted, e);
      var r :| r in Refs(desired) && e == RefLine(r, wanted[r]);
      PrintedReads(r, wanted[r]);
    }
    forall r | r in wanted
      ensures r in RefAt(lines)
    {
      InRefLines(Refs(desired), wanted, RefLine(r, wanted[r]));
      PrintedReads(r, wanted[r]);
      DefinedByEntry(lines, r);
    }
  }

  lemma {:induction false} NoHeadNoEntries(lines: seq<string>, rw: Rewriting)
    requires forall l :: l in lines ==> !RefsHead(l)
    ensures Entries(lines, false) == [] && !InsideAfter(lines, false) && ByName(rw, lines, false) == lines
  {
    if lines != [] {
      assert lines == lines[..|lines| - 1] + [lines[|lines| - 1]];
      NoHeadNoEntries(lines[..|lines| - 1], rw);
    }
  }

  lemma NoHeads(lines: seq<string>)
    requires FirstIndex(lines, RefsHead).None?
    ensures forall l :: l in lines ==> !RefsHead(l)
  {
    forall l | l in lines ensures !RefsHead(l) {
      var i :| 0 <= i < |lines| && lines[i] == l;
      NoIndex(lines, RefsHead, i);
    }
  }

  lemma SectionOpens(pre: seq<string>, section: seq<string>)
    requires section != [] && RefsHead(section[0])
    ensures Entries(pre + section, false) == Entries(pre, false) + Entries(section, false)
    ensures InsideAfter(pre + section, false) == InsideAfter(section, false)
  {
    EntriesSplit(pre, section, false);
    StartDoesNotMatter(section, InsideAfter(pre, false));
  }

  lemma SectionBetween(pre: seq<string>, body: seq<string>, post: seq<string>)
    requires Entries(pre, false) == [] && Entries(body, true) == body && InsideAfter(body, true)
    ensures Entries(pre + (["refs:"] + body) + post, false) == body + Entries(post, true)
  {
    var section := ["refs:"] + body;
    SectionAfter(pre, body, section);
    EntriesSplit(pre + section, post, false);
  }

  lemma SectionAfter(pre: seq<string>, body: seq<string>, section: seq<string>)
    requires Entries(pre, false) == [] && Entries(body, true) == body && InsideAfter(body, true)
    requires section == ["refs:"] + body
    ensures Entries(pre + section, false) == body && InsideAfter(pre + section, false)
  {
    SectionEntries(body);
    SectionOpens(pre, section);
    assert [] + body == body;
  }

  lemma EmittedNoHead(lines: seq<string>, desired: seq<Desired>, managed: seq<string>, k: nat)
    requires UniqueRefs(lines) && (forall l :: l in lines ==> !RefsHead(l)) && k < |lines|
    requires PlanInsertion(lines, Additions(desired, RefAt(lines)), Wanted(desired)).anchor == Some(k)
    ensures ReconcileLines(lines, desired, managed)
            == Some(lines[..k + 1] + PlanInsertion(lines, Additions(desired, RefAt(lines)), Wanted(desired)).body
                    + lines[k + 1..])
  {
    var at, wanted := RefAt(lines), Wanted(desired);
    var rw, pre := Rewriter(managed, wanted), lines[..k + 1];
    PlannedIsByName(lines, desired, managed);
    EmittedByName(lines, rw, Dropped(Distinct(managed), wanted, at),
                  Rewritten(WantedRefs(desired), managed, wanted, at),
                  PlanInsertion(lines, Additions(desired, at), wanted), k);
    NoHeadNoEntries(pre, rw);
    NoHeadNoEntries(lines[k + 1..], rw);
  }

  /** What a section opened after the `version: 1` line would take in. */
  function Below(lines: seq<string>): seq<string> {
    var v := FirstIndex(lines, VersionHead);
    if v.None? then [] else Entries(lines[v.value + 1..], true)
  }

  /** There is something to add, no section to add it to, and a place for one. */
  predicate NeedsSection(lines: seq<string>, desired: seq<Desired>) {
    FirstIndex(lines, RefsHead).None? && FirstIndex(lines, VersionHead).Some? && Additions(desired, RefAt(lines)) != []
  }

  /** Without a `refs:` line the new section takes in the indented lines that follow its anchor. */
  lemma {:induction false} NewSectionSwallows(lines: seq<string>, desired: seq<Desired>, managed: seq<string>)
    requires UniqueRefs(lines) && GoodDesired(desired) && NeedsSection(lines, desired)
    ensures ReconcileLines(lines, desired, managed).Some?
    ensures Entries(ReconcileLines(lines, desired, managed).value, false)
            == RefLines(Additions(desired, RefAt(lines)), Wanted(desired)) + Below(lines)
  {
    var add, k := Additions(desired, RefAt(lines)), FirstIndex(lines, VersionHead).value;
    NoHeads(lines);
    GoodWanted(desired);
    EmittedNoHead(lines, desired, managed, k);
    NoHeadNoEntries(lines[..k + 1], Rewriter(managed, Wanted(desired)));
    RefLinesAreEntries(add, Wanted(desired));
    SectionBetween(lines[..k + 1], RefLines(add, Wanted(desired)), lines[k + 1..]);
  }

  /** Added lines come first, so what is taken in counts only for other refs. */
  lemma ReadBefore(entries: seq<string>, add: seq<string>, wanted: map<string, string>, rest: seq<string>, ref: string)
    requires forall r :: r in add ==> r in wanted && IsRefName(r) && NoneOf(wanted[r], LineBreak)
    requires forall r :: r in wanted ==> r in add
    requires entries == RefLines(add, wanted) + rest
    ensures FirstValue(entries, ref) == if ref in wanted then Some(wanted[ref]) else FirstValue(rest, ref)
  {
    ReadAdded(add, wanted, ref);
    FirstValueSplit(RefLines(add, wanted), rest, ref);
  }

  lemma AllAreAdded(lines: seq<string>, desired: seq<Desired>)
    requires GoodDesired(desired) && FirstIndex(lines, RefsHead).None?
    ensures forall r :: r in Additions(desired, RefAt(lines)) ==>
                          r in Wanted(desired) && IsRefName(r) && NoneOf(Wanted(desired)[r], LineBreak)
    ensures forall r :: r in Wanted(desired) ==> r in Additions(desired, RefAt(lines))
  {
    NothingDefined(lines);
    GoodWanted(desired);
  }

  /** How a file with a new section differs from what it should read as. */
  lemma NoHeadReads(lines: seq<string>, desired: seq<Desired>, managed: seq<string>, ref: string)
    returns (out: seq<string>)
    requires UniqueRefs(lines) && GoodDesired(desired) && NeedsSection(lines, desired)
    ensures ReconcileLines(lines, desired, managed) == Some(out)
    ensures FirstValue(Entries(out, false), ref) == Expected(lines, desired, managed, ref)
            <==> ref in Wanted(desired) || FirstValue(Below(lines), ref).None?
  {
    AllAreAdded(lines, desired);
    NewSectionSwallows(lines, desired, managed);
    out := ReconcileLines(lines, desired, managed).value;
    ReadBefore(Entries(out, false), Additions(desired, RefAt(lines)), Wanted(desired), Below(lines), ref);
    NoHeadExpects(lines, desired, managed, ref);
  }

  lemma NoHeadExpects(lines: seq<string>, desired: seq<Desired>, managed: seq<string>, ref: string)
    requires FirstIndex(lines, RefsHead).None?
    ensures Expected(lines, desired, managed, ref)
            == if ref in Wanted(desired) then Some(Wanted(desired)[ref]) else None
  {
    NothingDefined(lines);
  }

  lemma NothingDefined(lines: seq<string>)
    requires FirstIndex(lines, RefsHead).None?
    ensures Entries(lines, false) == [] && RefAt(lines) == map[]
  {
    forall l | l in lines ensures !RefsHead(l) {
      var i :| 0 <= i < |lines| && lines[i] == l;
      NoIndex(lines, RefsHead, i);
    }
    NoHeadNoEntries(lines, e => [e]);
    forall r ensures r !in RefAt(lines) { DefinedByEntry(lines, r); }
  }

  // ----- the theorems

  /** The refs read from these entries are all wanted ones. */
  ghost predicate WantedOnly(entries: seq<string>, wanted: map<string, string>) {
    forall ref :: FirstValue(entries, ref).Some? ==> ref in wanted
  }

  /**
   The layouts on which a run does what it promises: a blank file, nothing to add, a `refs:` line,
   or a `version: 1` line after which a new section takes in no foreign ref.
   */
  ghost predicate Lands(text: string, desired: seq<Desired>) {
    var lines := Split(text);
    || Trim(text) == ""
    || Additions(desired, RefAt(lines)) == []
    || FirstIndex(lines, RefsHead).Some?
    || (FirstIndex(lines, VersionHead).Some? && WantedOnly(Below(lines), Wanted(desired)))
  }

  /** What a ref reads as after a run on a file that says something. */
  lemma {:induction false} ReadsOnText(text: string, desired: seq<Desired>, managed: seq<string>, ref: string,
                                       out: seq<string>)
    requires GoodDesired(desired) && UniqueRefs(Split(text)) && Trim(text) != ""
    requires var r := ReconcileLines(Split(text), desired, managed); out == if r.Some? then r.value else Split(text)
    ensures ReadRef(Reconcile(text, desired, managed).text, ref) == FirstValue(Entries(out, false), ref)
  {
    var lines := Split(text);
    SplitGivesLines(text);
    JoinSplit(text);
    JoinBlank(lines);
    TrimBlank(text);
    if ReconcileLines(lines, desired, managed).Some? {
      ResultText(lines, desired, managed);
    }
  }

  lemma {:induction false} ReadsOnBlank(text: string, desired: seq<Desired>, managed: seq<string>, ref: string)
    requires GoodDesired(desired) && Trim(text) == ""
    ensures ReadRef(Reconcile(text, desired, managed).text, ref) == Expected(Split(text), desired, managed, ref)
  {
    var lines := Split(text);
    JoinSplit(text);
    JoinBlank(lines);
    TrimBlank(text);
    BlankHasNoEntries(lines);
    DefinedByEntry(lines, ref);
    WantedKeys(desired);
    if desired != [] {
      FreshIsLines(desired);
      FreshEntries(desired);
      GoodWanted(desired);
      ReadAdded(Refs(desired), Wanted(desired), ref);
    }
  }

  lemma ReadsInPlace(text: string, desired: seq<Desired>, managed: seq<string>, ref: string)
    requires GoodDesired(desired) && UniqueRefs(Split(text)) && Trim(text) != ""
    requires Additions(desired, RefAt(Split(text))) == [] || FirstIndex(Split(text), RefsHead).Some?
    ensures ReadRef(Reconcile(text, desired, managed).text, ref) == Expected(Split(text), desired, managed, ref)
  {
    ResultReads(Split(text), desired, managed, ref);
    ReadsOnText(text, desired, managed, ref, ReconcileLines(Split(text), desired, managed).value);
  }

  /** With a new section a ref reads as it should unless it is a foreign one the section takes in. */
  lemma ReadsInSection(text: string, desired: seq<Desired>, managed: seq<string>, ref: string)
    requires GoodDesired(desired) && UniqueRefs(Split(text)) && Trim(text) != "" && NeedsSection(Split(text), desired)
    ensures ReadRef(Reconcile(text, desired, managed).text, ref) == Expected(Split(text), desired, managed, ref)
            <==> ref in Wanted(desired) || FirstValue(Below(Split(text)), ref).None?
  {
    var out := NoHeadReads(Split(text), desired, managed, ref);
    ReadsOnText(text, desired, managed, ref, out);
  }

  /** Without a place for a section a wanted ref is missing. */
  lemma UnplacedReadsWrong(text: string, desired: seq<Desired>, managed: seq<string>) returns (ref: string)
    requires GoodDesired(desired) && UniqueRefs(Split(text)) && Trim(text) != "" &&
             Additions(desired, RefAt(Split(text))) != []
    requires FirstIndex(Split(text), RefsHead).None? && FirstIndex(Split(text), VersionHead).None?
    ensures ReadRef(Reconcile(text, desired, managed).text, ref) != Expected(Split(text), desired, managed, ref)
  {
    var lines := Split(text);
    ref := Additions(desired, RefAt(lines))[0];
    assert ref in Additions(desired, RefAt(lines));
    NoHeadExpects(lines, desired, managed, ref);
    NothingDefined(lines);
    ReadsOnText(text, desired, managed, ref, lines);
  }

  /**
   After a run every wanted ref that the platform owned or that was absent reads as its wanted
   value, every ref the platform owned and no longer wants reads as absent, and every other ref
   reads as before: exactly on the layouts that `Lands` names.
   */
  lemma {:induction false} CredentialsRead(text: string, desired: seq<Desired>, managed: seq<string>)
    requires GoodDesired(desired) && UniqueRefs(Split(text))
    ensures (forall ref ::
             ReadRef(Reconcile(text, desired, managed).text, ref) == Expected(Split(text), desired, managed, ref))
            <==> Lands(text, desired)
  {
    if Lands(text, desired) {
      forall ref
        ensures ReadRef(Reconcile(text, desired, managed).text, ref) == Expected(Split(text), desired, managed, ref)
      {
        ReadsOnLanding(text, desired, managed, ref);
      }
    } else {
      var ref := ReadsWrongElsewhere(text, desired, managed);
    }
  }

  lemma ReadsOnLanding(text: string, desired: seq<Desired>, managed: seq<string>, ref: string)
    requires GoodDesired(desired) && UniqueRefs(Split(text)) && Lands(text, desired)
    ensures ReadRef(Reconcile(text, desired, managed).text, ref) == Expected(Split(text), desired, managed, ref)
  {
    if Trim(text) == "" {
      ReadsOnBlank(text, desired, managed, ref);
    } else if Additions(desired, RefAt(Split(text))) == [] || FirstIndex(Split(text), RefsHead).Some? {
      ReadsInPlace(text, desired, managed, ref);
    } else {
      ReadsInSection(text, desired, managed, ref);
    }
  }

  lemma ReadsWrongElsewhere(text: string, desired: seq<Desired>, managed: seq<string>) returns (ref: string)
    requires GoodDesired(desired) && UniqueRefs(Split(text)) && !Lands(text, desired)
    ensures ReadRef(Reconcile(text, desired, managed).text, ref) != Expected(Split(text), desired, managed, ref)
  {
    if FirstIndex(Split(text), VersionHead).None? {
      ref := UnplacedReadsWrong(text, desired, managed);
    } else {
      ref := Foreign(Below(Split(text)), Wanted(desired));
      ReadsInSection(text, desired, managed, ref);
    }
  }

  lemma Foreign(entries: seq<string>, wanted: map<string, string>) returns (ref: string)
    requires !WantedOnly(entries, wanted)
    ensures FirstValue(entries, ref).Some? && ref !in wanted
  {
    ref :| FirstValue(entries, ref).Some? && ref !in wanted;
  }

  // ----- a second run

  lemma {:induction false} LastAdded(refs: seq<string>, wanted: map<string, string>, ref: string)
    requires forall r :: r in refs ==> r in wanted && IsRefName(r) && NoneOf(wanted[r], LineBreak)
    ensures LastDefining(RefLines(refs, wanted), ref) == if ref in refs then Some(RefLine(ref, wanted[ref])) else None
  {
    if refs != [] {
      var last := refs[|refs| - 1];
      assert last in refs && refs == refs[..|refs| - 1] + [last];
      LastAdded(refs[..|refs| - 1], wanted, ref);
      PrintedReads(last, wanted[last]);
    }
  }

  /** A file with a new section defines every wanted ref: last in what the section took in, or as it was printed. */
  lemma SectionIsComplete(lines: seq<string>, desired: seq<Desired>, managed: seq<string>, out: seq<string>)
    requires UniqueRefs(lines) && GoodDesired(desired) && NeedsSection(lines, desired)
    requires ReconcileLines(lines, desired, managed) == Some(out)
    ensures Complete(out, desired, NowManaged(desired, managed, RefAt(lines)))
    ensures AsPrinted(Entries(out, false), NowManaged(desired, managed, RefAt(lines)), Wanted(desired))
            <==> AsPrinted(Below(lines), NowManaged(desired, managed, RefAt(lines)), Wanted(desired))
  {
    var add, wanted := Additions(desired, RefAt(lines)), Wanted(desired);
    NewSectionSwallows(lines, desired, managed);
    NowManagedIs(desired, managed, RefAt(lines));
    AllAreAdded(lines, desired);
    forall r | r in wanted
      ensures r in RefAt(out)
      ensures LastDefining(Entries(out, false), r)
              == if LastDefining(Below(lines), r).Some? then LastDefining(Below(lines), r)
                 else Some(RefLine(r, wanted[r]))
    {
      LastAdded(add, wanted, r);
      LastSplit(RefLines(add, wanted), Below(lines), r);
      LastIsAt(out, r);
    }
  }

  /** The refs a new section took in are, for each wanted ref, last defined as a run would print it. */
  ghost predicate TakenInAsPrinted(text: string, desired: seq<Desired>) {
    Trim(text) != "" && NeedsSection(Split(text), desired) ==>
      AsPrinted(Below(Split(text)), Refs(desired), Wanted(desired))
  }

  /** What a run on a text makes of its lines. */
  lemma OnLines(text: string, lines: seq<string>, desired: seq<Desired>, managed: seq<string>)
    requires Trim(text) != "" && Split(text) == lines && ReconcileLines(lines, desired, managed).Some?
    ensures Reconcile(text, desired, managed)
            == Result(Join(ReconcileLines(lines, desired, managed).value), NowManaged(desired, managed, RefAt(lines)))
  {}

  lemma SectionText(text: string, desired: seq<Desired>, managed: seq<string>, out: seq<string>)
    requires GoodDesired(desired) && UniqueRefs(Split(text)) && Trim(text) != ""
    requires ReconcileLines(Split(text), desired, managed) == Some(out)
    ensures AreLines(out) && out != [] && Split(Join(out)) == out && Trim(Join(out)) != ""
    ensures Reconcile(text, desired, managed) == Result(Join(out), NowManaged(desired, managed, RefAt(Split(text))))
  {
    SplitGivesLines(text);
    JoinSplit(text);
    JoinBlank(Split(text));
    TrimBlank(text);
    ResultText(Split(text), desired, managed);
    SplitGivesLines(Join(out));
    OnLines(text, Split(text), desired, managed);
  }

  lemma SectionRunsAgain(text: string, desired: seq<Desired>, managed: seq<string>)
    requires GoodDesired(desired) && UniqueRefs(Split(text)) && Trim(text) != "" && NeedsSection(Split(text), desired)
    ensures var once := Reconcile(text, desired, managed);
            Reconcile(once.text, desired, once.managed) == once
            <==> AsPrinted(Below(Split(text)), Refs(desired), Wanted(desired))
  {
    var lines := Split(text);
    NewSectionSwallows(lines, desired, managed);
    var out, now := ReconcileLines(lines, desired, managed).value, NowManaged(desired, managed, RefAt(lines));
    SectionText(text, desired, managed, out);
    SectionIsComplete(lines, desired, managed, out);
    StaysExactly(out, desired, now);
    AgainText(out, desired, now);
    OnLines(Join(out), out, desired, now);
    AllAreOwned(lines, desired, managed);
    SamePrinted(Below(lines), now, Refs(desired), Wanted(desired));
  }

  lemma SamePrinted(entries: seq<string>, a: seq<string>, b: seq<string>, wanted: map<string, string>)
    requires forall r :: r in a <==> r in b
    ensures AsPrinted(entries, a, wanted) <==> AsPrinted(entries, b, wanted)
  {}

  lemma AllAreOwned(lines: seq<string>, desired: seq<Desired>, managed: seq<string>)
    requires FirstIndex(lines, RefsHead).None?
    ensures forall r :: r in NowManaged(desired, managed, RefAt(lines)) <==> r in Refs(desired)
  {
    NothingDefined(lines);
    NowManagedIs(desired, managed, RefAt(lines));
    WantedKeys(desired);
  }

  /** Of a complete file two texts are equal exactly if their lines are. */
  lemma AgainText(lines: seq<string>, desired: seq<Desired>, managed: seq<string>)
    requires AreLines(lines) && lines != [] && GoodDesired(desired) && Complete(lines, desired, managed)
    ensures ReconcileLines(lines, desired, managed).Some?
    ensures Join(ReconcileLines(lines, desired, managed).value) == Join(lines)
            <==> ReconcileLines(lines, desired, managed).value == lines
  {
    var at, wanted := RefAt(lines), Wanted(desired);
    var rewrite := Rewritten(WantedRefs(desired), managed, wanted, at);
    GoodWanted(desired);
    NothingDropped(lines, desired, managed);
    RewrittenAreLines(WantedRefs(desired), managed, wanted, at);
    EmittedLines(lines, {}, rewrite, Insertion(None, []), |lines|);
    EmittedEach(lines, rewrite, |lines|);
    SplitJoin(lines);
    SplitJoin(ReconcileLines(lines, desired, managed).value);
  }

  lemma RunsAgain(text: string, desired: seq<Desired>, managed: seq<string>)
    requires GoodDesired(desired) && UniqueRefs(Split(text)) &&
             (Trim(text) == "" || !NeedsSection(Split(text), desired))
    ensures var once := Reconcile(text, desired, managed);
            Reconcile(once.text, desired, once.managed) == once
  {
    var lines := Split(text);
    SplitGivesLines(text);
    JoinSplit(text);
    JoinBlank(lines);
    TrimBlank(text);
    DistinctHasNoRepeats(managed);
    DistinctOfDistinct(Distinct(managed));
    if BlankLines(lines) {
      if desired != [] {
        FreshIsLines(desired);
        JoinSplit(FreshText(desired));
        FreshIsSettled(desired);
        SettledStays(FreshLines(desired), desired, Refs(desired));
      }
    } else if ReconcileLines(lines, desired, managed).Some? {
      ResultIsSettled(lines, desired, managed);
      ResultText(lines, desired, managed);
      SettledStays(ReconcileLines(lines, desired, managed).value, desired, NowManaged(desired, managed, RefAt(lines)));
    }
  }

  /**
   A second run changes neither the text nor the list of owned refs, unless a new section took in
   another definition of a wanted ref: the last such line is then rewritten.
   */
  lemma {:induction false} CredentialsIdempotent(text: string, desired: seq<Desired>, managed: seq<string>)
    requires GoodDesired(desired) && UniqueRefs(Split(text))
    ensures var once := Reconcile(text, desired, managed);
            Reconcile(once.text, desired, once.managed) == once <==> TakenInAsPrinted(text, desired)
  {
    if Trim(text) != "" && NeedsSection(Split(text), desired) {
      SectionRunsAgain(text, desired, managed);
    } else {
      RunsAgain(text, desired, managed);
    }
  }
}
