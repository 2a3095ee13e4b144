/**
 Reconciling provider declarations into `settings.yaml`. What the platform wrote lies between a
 pair of marker lines, so a file is a sequence of items: ordinary lines and marker blocks. The
 reconciler drops the blocks it owns and no longer wants, then inserts the missing ones at one
 place. Whether a second run is quiet, and whether enabling can be undone, depends on that place.
 */
module Settings {
  import opened Basics
  import opened ConfigText

  // ----- marker lines and key lines

  const MARK := "# dsh_ai1net:model-route "
  const NAMESPACE := "llm-pi-ai:"
  const PROVIDERS := "  providers:"

  function MarkBegin(route: string): string { "    " + (MARK + route + " begin") }
  function MarkEnd(route: string): string { "    " + (MARK + route + " end") }

  /** The route a line begins a block of: `^[ \t]*# dsh_ai1net:model-route ([^\s]+) begin[ \t]*$`. */
  function BeginRoute(line: string): Option<string> {
    var t := Strip(line);
    var n := |t| - |MARK| - |" begin"|;
    if n > 0 && t[..|MARK|] == MARK && t[|MARK| + n..] == " begin" && NoneOf(t[|MARK|..|MARK| + n], Space)
    then Some(t[|MARK|..|MARK| + n]) else None
  }

  predicate IsEnd(line: string, route: string) {
    Strip(line) == MARK + route + " end"
  }

  predicate KeyChar(c: char) {
    !Space(c) && c != ':'
  }

  function KeyLen(s: string): (n: nat)
    ensures n <= |s|
  {
    if s == "" || !KeyChar(s[0]) then 0 else 1 + KeyLen(s[1..])
  }

  /** The key of a line that opens a mapping four blanks deep: `^[ \t]{4}([^\s:#][^\s:]*)[ \t]*:[ \t]*$`. */
  function KeyOf(line: string): Option<string> {
    if |line| < 4 || !AllOf(line[..4], Blank) then None
    else
      var body := line[4..];
      var n := KeyLen(body);
      var rest := DropLeft(body[n..], Blank);
      if n > 0 && body[0] != '#' && rest != "" && rest[0] == ':' && AllOf(rest[1..], Blank)
        then Some(body[..n]) else None
  }

  // ----- a file as items

  datatype Item = Plain(line: string) | Block(route: string, lines: seq<string>)

  function LinesOf(item: Item): seq<string> {
    if item.Plain? then [item.line] else item.lines
  }

  function Flat(items: seq<Item>): seq<string> {
    if items == [] then [] else LinesOf(items[0]) + Flat(items[1..])
  }

  predicate NoEnd(lines: seq<string>, route: string) {
    forall l :: l in lines ==> !IsEnd(l, route)
  }

  function EndAt(lines: seq<string>, route: string): (e: Option<nat>)
    ensures e.Some? ==> e.value < |lines| && IsEnd(lines[e.value], route) && NoEnd(lines[..e.value], route)
    ensures e.None? ==> NoEnd(lines, route)
  {
    if lines == [] then None
    else if IsEnd(lines[0], route) then Some(0)
    else
      var e := EndAt(lines[1..], route);
      assert lines == [lines[0]] + lines[1..];
      if e.Some? then
        assert lines[..e.value + 1] == [lines[0]] + lines[1..][..e.value];
        Some(e.value + 1)
      else None
  }

  /** How many lines the item at the front has: a begin marker without its end stands alone. */
  function ItemLen(lines: seq<string>): (n: nat)
    requires lines != []
    ensures 1 <= n <= |lines|
  {
    var r := BeginRoute(lines[0]);
    if r.None? then 1
    else
      var e := EndAt(lines[1..], r.value);
      if e.None? then 1 else e.value + 2
  }

  function FirstItem(lines: seq<string>): Item
    requires lines != []
  {
    var r := BeginRoute(lines[0]);
    if r.None? then Plain(lines[0]) else Block(r.value, lines[..ItemLen(lines)])
  }

  function Parse(lines: seq<string>): seq<Item>
    decreases |lines|
  {
    if lines == [] then [] else [FirstItem(lines)] + Parse(lines[ItemLen(lines)..])
  }

  /** The routes that count as already there: of blocks, and of key lines outside blocks. */
  function Names(item: Item): set<string> {
    if item.Block? then {item.route}
    else if KeyOf(item.line).Some? then {KeyOf(item.line).value} else {}
  }

  function Present(items: seq<Item>): set<string> {
    if items == [] then {} else Names(items[0]) + Present(items[1..])
  }

  /** Only the platform's own blocks are ever dropped. */
  predicate Obsolete(item: Item, owned: seq<string>, wanted: seq<string>) {
    item.Block? && item.route in owned && item.route !in wanted
  }

  function Keep(items: seq<Item>, owned: seq<string>, wanted: seq<string>): seq<Item> {
    if items == [] then []
    else (if Obsolete(items[0], owned, wanted) then [] else [items[0]]) + Keep(items[1..], owned, wanted)
  }

  // ----- the reconciler

  datatype Entry = Entry(route: string, apiKeyEnv: string, baseUrl: Option<string>, api: Option<string>,
                         models: Option<seq<string>>)

  function Routes(desired: seq<Entry>): seq<string> {
    seq(|desired|, i requires 0 <= i < |desired| => desired[i].route)
  }

  function ModelLines(models: seq<string>): seq<string> {
    seq(|models|, i requires 0 <= i < |models| => "        - id: " + models[i])
  }

  /** What stands between the markers: only the fields that were given. */
  function Fields(d: Entry): seq<string> {
    ["    " + (d.route + ":"), "      apiKeyEnv: " + d.apiKeyEnv]
    + (if d.baseUrl.Some? && d.baseUrl.value != "" then ["      baseURL: " + d.baseUrl.value] else [])
    + (if d.api.Some? then ["      api: " + d.api.value] else [])
    + (if d.models.Some? && d.models.value != [] then ["      models:"] + ModelLines(d.models.value) else [])
  }

  function BlockLines(d: Entry): seq<string> {
    [MarkBegin(d.route)] + Fields(d) + [MarkEnd(d.route)]
  }

  function BlockText(add: seq<Entry>): seq<string> {
    if add == [] then [] else BlockText(add[..|add| - 1]) + BlockLines(add[|add| - 1])
  }

  function Absent(desired: seq<Entry>, present: set<string>): (add: seq<Entry>)
    ensures forall d :: d in add <==> d in desired && d.route !in present
  {
    if desired == [] then []
    else
      assert desired == desired[..|desired| - 1] + [desired[|desired| - 1]];
      Absent(desired[..|desired| - 1], present)
      + if desired[|desired| - 1].route in present then [] else [desired[|desired| - 1]]
  }

  /** Where blocks go, and what has to go around them there. */
  datatype Spot = Spot(at: nat, head: seq<string>, tail: seq<string>)

  predicate NamespaceHead(line: string) {
    !Indented(line) && Trim(line) == NAMESPACE
  }

  /** The `providers:` line of the section that `lines` starts in: before its next top-level line. */
  function ProvidersIn(lines: seq<string>): (p: Option<nat>)
    ensures p.Some? ==> p.value < |lines|
  {
    if lines == [] then None
    else if Indented(lines[0]) && Trim(lines[0]) == "providers:" then Some(0)
    else if !Indented(lines[0]) && Trim(lines[0]) != "" then None
    else
      var p := ProvidersIn(lines[1..]);
      if p.Some? then Some(p.value + 1) else None
  }

  function PlaceIn(kept: seq<string>): (s: Spot)
    ensures s.at <= |kept|
  {
    var ns := FirstIndex(kept, NamespaceHead);
    if ns.None? then
      if kept != [] && kept[|kept| - 1] == "" then Spot(|kept| - 1, [NAMESPACE, PROVIDERS], [""])
      else Spot(|kept|, [NAMESPACE, PROVIDERS], [])
    else
      var p := ProvidersIn(kept[ns.value + 1..]);
      if p.Some? then Spot(ns.value + 1 + p.value + 1, [], []) else Spot(ns.value + 1, [PROVIDERS], [])
  }

  function Inserted(kept: seq<string>, s: Spot, blocks: seq<string>): seq<string>
    requires s.at <= |kept|
  {
    kept[..s.at] + (s.head + blocks + s.tail) + kept[s.at..]
  }

  function Output(items: seq<Item>, add: seq<Entry>): seq<string> {
    var kept := Flat(items);
    if add == [] then kept else Inserted(kept, PlaceIn(kept), BlockText(add))
  }

  function StillOwned(items: seq<Item>, desired: seq<Entry>, managed: seq<string>): seq<string> {
    Distinct(Filter(Distinct(managed), r => r in Routes(desired) || r in Present(items)))
  }

  function NowOwned(items: seq<Item>, desired: seq<Entry>, managed: seq<string>): seq<string> {
    var add := Absent(desired, Present(items));
    if add == [] then StillOwned(items, desired, managed)
    else Distinct(StillOwned(items, desired, managed) + Routes(add))
  }

  function Lines(text: string): seq<string> {
    if text == "" then [] else Split(text)
  }

  function KeptItems(text: string, desired: seq<Entry>, managed: seq<string>): seq<Item> {
    Keep(Parse(Lines(text)), managed, Routes(desired))
  }

  /** The declarations a run has to insert. */
  function Missing(text: string, desired: seq<Entry>, managed: seq<string>): seq<Entry> {
    Absent(desired, Present(KeptItems(text, desired, managed)))
  }

  function Reconcile(text: string, desired: seq<Entry>, managed: seq<string>): Result {
    var items := KeptItems(text, desired, managed);
    Result(Join(Output(items, Absent(desired, Present(items)))), NowOwned(items, desired, managed))
  }

  // ----- the code, pass by pass

  method FindEnd(lines: seq<string>, begin: nat, route: string) returns (end: Option<nat>)
    requires begin < |lines|
    ensures end == var e := EndAt(lines[begin + 1..], route); if e.Some? then Some(begin + 1 + e.value) else None
  {
    end := None;
    var j := begin + 1;
    while j < |lines|
      invariant begin < j <= |lines|
      invariant var e, rest := EndAt(lines[begin + 1..], route), EndAt(lines[j..], route);
                e == if rest.Some? then Some(j - begin - 1 + rest.value) else None
    {
      if IsEnd(lines[j], route) {
        end := Some(j);
        break;
      }
      assert lines[j..][1..] == lines[j + 1..];
      j := j + 1;
    }
  }

  /** The item that starts at line `i`, and the line after it. */
  method ReadItem(lines: seq<string>, i: nat) returns (item: Item, next: nat)
    requires i < |lines|
    ensures i < next <= |lines| && Parse(lines[i..]) == [item] + Parse(lines[next..])
  {
    var route := BeginRoute(lines[i]);
    if route.None? {
      item, next := Plain(lines[i]), i + 1;
    } else {
      var end := FindEnd(lines, i, route.value);
      BlockAt(lines, i, route.value, end);
      item := Block(route.value, if end.None? then [lines[i]] else lines[i..end.value + 1]);
      next := (if end.None? then i else end.value) + 1;
    }
    assert next == i + ItemLen(lines[i..]);
    assert lines[i..][ItemLen(lines[i..])..] == lines[next..];
  }

  /** Carries one item over, or drops it: only an owned block that is no longer wanted goes. */
  method TakeItem(item: Item, owned: seq<string>, wanted: seq<string>, before: seq<string>, known: set<string>)
    returns (kept: seq<string>, present: set<string>)
    ensures kept == before + if Obsolete(item, owned, wanted) then [] else LinesOf(item)
    ensures present == known + if Obsolete(item, owned, wanted) then {} else Names(item)
  {
    kept, present := before, known;
    if item.Plain? {
      var k := KeyOf(item.line);
      if k.Some? { present := present + {k.value}; }
      kept := kept + [item.line];
    } else if item.route in wanted || item.route !in owned {
      present := present + {item.route};
      kept := kept + item.lines;
    }
  }

  method FirstPass(lines: seq<string>, owned: seq<string>, wanted: seq<string>)
    returns (kept: seq<string>, present: set<string>)
    ensures kept == Flat(Keep(Parse(lines), owned, wanted)) && present == Present(Keep(Parse(lines), owned, wanted))
  {
    kept, present := [], {};
    var i := 0;
    ghost var all, done: seq<Item> := Parse(lines), [];
    assert lines[0..] == lines;
    while i < |lines|
      invariant i <= |lines| && done + Parse(lines[i..]) == all
      invariant kept == Flat(Keep(done, owned, wanted)) && present == Present(Keep(done, owned, wanted))
    {
      var item, next := ReadItem(lines, i);
      kept, present := TakeItem(item, owned, wanted, kept, present);
      TakenItem(done, item, owned, wanted);
      Regroup(done, [item], Parse(lines[next..]));
      done, i := done + [item], next;
    }
    assert lines[i..] == [] && done + [] == done;
  }

  lemma BlockAt(lines: seq<string>, i: nat, route: string, end: Option<nat>)
    requires i < |lines| && BeginRoute(lines[i]) == Some(route)
    requires end == var e := EndAt(lines[i + 1..], route); if e.Some? then Some(i + 1 + e.value) else None
    ensures FirstItem(lines[i..]) == Block(route, if end.None? then [lines[i]] else lines[i..end.value + 1])
    ensures ItemLen(lines[i..]) == if end.None? then 1 else end.value + 1 - i
  {
    assert lines[i..][1..] == lines[i + 1..];
    assert lines[i..][..1] == [lines[i]];
    if end.Some? {
      assert lines[i..][..end.value + 1 - i] == lines[i..end.value + 1];
    }
  }

  lemma {:induction false} KeepSplit(a: seq<Item>, b: seq<Item>, owned: seq<string>, wanted: seq<string>)
    ensures Keep(a + b, owned, wanted) == Keep(a, owned, wanted) + Keep(b, owned, wanted)
  {
    if a == [] {
      assert a + b == b;
    } else {
      assert (a + b)[0] == a[0] && (a + b)[1..] == a[1..] + b;
      KeepSplit(a[1..], b, owned, wanted);
    }
  }

  lemma {:induction false} FlatSplit(a: seq<Item>, b: seq<Item>)
    ensures Flat(a + b) == Flat(a) + Flat(b)
  {
    if a == [] {
      assert a + b == b;
    } else {
      assert (a + b)[0] == a[0] && (a + b)[1..] == a[1..] + b;
      FlatSplit(a[1..], b);
    }
  }

  lemma {:induction false} PresentSplit(a: seq<Item>, b: seq<Item>)
    ensures Present(a + b) == Present(a) + Present(b)
  {
    if a == [] {
      assert a + b == b;
    } else {
      assert (a + b)[0] == a[0] && (a + b)[1..] == a[1..] + b;
      PresentSplit(a[1..], b);
    }
  }

  lemma TakenItem(done: seq<Item>, item: Item, owned: seq<string>, wanted: seq<string>)
    ensures Flat(Keep(done + [item], owned, wanted))
            == Flat(Keep(done, owned, wanted)) + if Obsolete(item, owned, wanted) then [] else LinesOf(item)
    ensures Present(Keep(done + [item], owned, wanted))
            == Present(Keep(done, owned, wanted)) + if Obsolete(item, owned, wanted) then {} else Names(item)
  {
    KeepSplit(done, [item], owned, wanted);
    var one := Keep([item], owned, wanted);
    FlatSplit(Keep(done, owned, wanted), one);
    PresentSplit(Keep(done, owned, wanted), one);
    assert one == if Obsolete(item, owned, wanted) then [] else [item];
  }

  method FindNamespace(kept: seq<string>) returns (nsAt: Option<nat>)
    ensures nsAt == FirstIndex(kept, NamespaceHead)
  {
    nsAt := None;
    for i := 0 to |kept|
      invariant nsAt == FirstIndex(kept[..i], NamespaceHead) && nsAt.None?
    {
      assert kept[..i + 1][..i] == kept[..i];
      if Indented(kept[i]) { continue; }
      if Trim(kept[i]) == NAMESPACE {
        FirstIndexStays(kept, NamespaceHead, i + 1);
        return Some(i);
      }
    }
    assert kept[..|kept|] == kept;
  }

  method FindProviders(kept: seq<string>, nsAt: nat) returns (provAt: Option<nat>)
    requires nsAt < |kept|
    ensures provAt == var p := ProvidersIn(kept[nsAt + 1..]); if p.Some? then Some(nsAt + 1 + p.value) else None
  {
    provAt := None;
    var i := nsAt + 1;
    while i < |kept|
      invariant nsAt < i <= |kept| && provAt.None?
      invariant var p, rest := ProvidersIn(kept[nsAt + 1..]), ProvidersIn(kept[i..]);
                p == if rest.Some? then Some(i - nsAt - 1 + rest.value) else None
    {
      var raw := kept[i];
      assert kept[i..][1..] == kept[i + 1..];
      if !Indented(raw) {
        if Trim(raw) != "" { break; }
      } else if Trim(raw) == "providers:" {
        provAt := Some(i);
        break;
      }
      i := i + 1;
    }
  }

  method FindPlace(kept: seq<string>) returns (s: Spot)
    ensures s == PlaceIn(kept)
  {
    var nsAt := FindNamespace(kept);
    var provAt := None;
    if nsAt.Some? { provAt := FindProviders(kept, nsAt.value); }
    if provAt.Some? { return Spot(provAt.value + 1, [], []); }
    if nsAt.Some? { return Spot(nsAt.value + 1, [PROVIDERS], []); }
    if |kept| > 0 && kept[|kept| - 1] == "" { return Spot(|kept| - 1, [NAMESPACE, PROVIDERS], [""]); }
    return Spot(|kept|, [NAMESPACE, PROVIDERS], []);
  }

  lemma {:induction false} FirstIndexStays(s: seq<string>, p: string -> bool, n: nat)
    requires n <= |s| && FirstIndex(s[..n], p).Some?
    ensures FirstIndex(s, p) == FirstIndex(s[..n], p)
  {
    if n == |s| {
      assert s[..n] == s;
    } else {
      var init := s[..|s| - 1];
      assert init[..n] == s[..n];
      FirstIndexStays(init, p, n);
    }
  }

  method RenderModels(models: seq<string>) returns (lines: seq<string>)
    ensures lines == ModelLines(models)
  {
    lines := [];
    for m := 0 to |models|
      invariant lines == ModelLines(models)[..m]
    {
      lines := lines + ["        - id: " + models[m]];
    }
  }

  method RenderBlock(d: Entry) returns (lines: seq<string>)
    ensures lines == BlockLines(d)
  {
    lines := [MarkBegin(d.route), "    " + (d.route + ":"), "      apiKeyEnv: " + d.apiKeyEnv];
    if d.baseUrl.Some? && d.baseUrl.value != "" { lines := lines + ["      baseURL: " + d.baseUrl.value]; }
    if d.api.Some? { lines := lines + ["      api: " + d.api.value]; }
    if d.models.Some? && |d.models.value| > 0 {
      var ids := RenderModels(d.models.value);
      lines := lines + (["      models:"] + ids);
    }
    lines := lines + [MarkEnd(d.route)];
  }

  method RenderBlocks(add: seq<Entry>) returns (blocks: seq<string>)
    ensures blocks == BlockText(add)
  {
    blocks := [];
    for k := 0 to |add|
      invariant blocks == BlockText(add[..k])
    {
      assert add[..k + 1][..k] == add[..k];
      var lines := RenderBlock(add[k]);
      blocks := blocks + lines;
    }
    assert add[..|add|] == add;
  }

  method ReconcileSettings(text: string, desired: seq<Entry>, managed: seq<string>) returns (res: Result)
    ensures res == Reconcile(text, desired, managed)
  {
    var lines := if text == "" then [] else Split(text);
    var kept, present := FirstPass(lines, managed, Routes(desired));
    ghost var items := KeptItems(text, desired, managed);
    var add := Absent(desired, present);
    var newOwned := Distinct(Filter(Distinct(managed), r => r in Routes(desired) || r in present));
    if |add| == 0 { return Result(Join(kept), newOwned); }
    var spot := FindPlace(kept);
    var blocks := RenderBlocks(add);
    var out := kept[..spot.at] + (spot.head + blocks + spot.tail) + kept[spot.at..];
    return Result(Join(out), Distinct(newOwned + Routes(add)));
  }

  // ----- the promises

  /** Line `n` is the first that heads the section: not indented, and `llm-pi-ai:` without the space around it. */
  predicate SectionAt(lines: seq<string>, n: nat) {
    && n < |lines| && !Indented(lines[n]) && Trim(lines[n]) == "llm-pi-ai:"
    && forall i :: 0 <= i < n ==> Indented(lines[i]) || Trim(lines[i]) != "llm-pi-ai:"
  }

  /** Line `k` is the first indented `providers:` line below line `n`, with nothing at top level between. */
  predicate ProvidersAt(lines: seq<string>, n: nat, k: nat) {
    && n < k < |lines| && Indented(lines[k]) && Trim(lines[k]) == "providers:"
    && forall i :: n < i < k ==> if Indented(lines[i]) then Trim(lines[i]) != "providers:" else Trim(lines[i]) == ""
  }

  ghost predicate HasSection(lines: seq<string>) {
    exists n: nat :: SectionAt(lines, n)
  }

  ghost predicate HasProviders(lines: seq<string>) {
    exists n: nat, k: nat :: SectionAt(lines, n) && ProvidersAt(lines, n, k)
  }

  /** The blocks go below the `providers:` line, else below the head of the section, else to the end. */
  ghost predicate GoesTo(lines: seq<string>, at: nat) {
    && (forall n: nat, k: nat :: SectionAt(lines, n) && ProvidersAt(lines, n, k) ==> at == k + 1)
    && (!HasProviders(lines) ==> forall n: nat :: SectionAt(lines, n) ==> at == n + 1)
    && (!HasSection(lines) ==> at == |lines| - if lines != [] && lines[|lines| - 1] == "" then 1 else 0)
  }

  lemma SectionIsOne(lines: seq<string>, n: nat)
    requires SectionAt(lines, n)
    ensures FirstIndex(lines, NamespaceHead) == Some(n)
  {
    forall i | 0 <= i < n ensures !NamespaceHead(lines[i]) {}
    FirstIndexIs(lines, NamespaceHead, n);
  }

  lemma {:induction false} FirstIndexIs(lines: seq<string>, p: string -> bool, n: nat)
    requires n < |lines| && p(lines[n]) && forall i :: 0 <= i < n ==> !p(lines[i])
    ensures FirstIndex(lines, p) == Some(n)
  {
    if n < |lines| - 1 {
      FirstIndexIs(lines[..|lines| - 1], p, n);
    } else {
      forall i | 0 <= i < n ensures !p(lines[..n][i]) { assert lines[..n][i] == lines[i]; }
    }
  }

  lemma {:induction false} FirstIndexIsFirst(lines: seq<string>, p: string -> bool)
    ensures var f := FirstIndex(lines, p);
            forall i :: 0 <= i < (if f.Some? then f.value else |lines|) ==> !p(lines[i])
  {
    if lines != [] {
      var init := lines[..|lines| - 1];
      FirstIndexIsFirst(init, p);
      forall i | 0 <= i < |init| ensures lines[i] == init[i] {}
    }
  }

  lemma NamespaceIsSection(lines: seq<string>)
    ensures var f := FirstIndex(lines, NamespaceHead);
            if f.Some? then SectionAt(lines, f.value) else !HasSection(lines)
  {
    FirstIndexIsFirst(lines, NamespaceHead);
    var f := FirstIndex(lines, NamespaceHead);
    var last := if f.Some? then f.value else |lines|;
    forall i | 0 <= i < last ensures Indented(lines[i]) || Trim(lines[i]) != "llm-pi-ai:" {
      assert !NamespaceHead(lines[i]);
    }
  }

  /** What the scan below the head of a section stops at. */
  predicate FirstProviders(lines: seq<string>, p: nat) {
    && p < |lines| && Indented(lines[p]) && Trim(lines[p]) == "providers:"
    && forall i :: 0 <= i < p ==> if Indented(lines[i]) then Trim(lines[i]) != "providers:" else Trim(lines[i]) == ""
  }

  lemma {:induction false} ScanStops(lines: seq<string>)
    ensures var p := ProvidersIn(lines);
            if p.Some? then FirstProviders(lines, p.value) else forall q :: !FirstProviders(lines, q)
  {
    if lines != [] {
      ScanStops(lines[1..]);
      forall q: nat | q > 0 && FirstProviders(lines, q) ensures FirstProviders(lines[1..], q - 1) {
        forall i | 0 <= i < q - 1 ensures lines[1..][i] == lines[i + 1] {}
        assert lines[0] == lines[0];
      }
      var p := ProvidersIn(lines);
      if p.Some? && p.value > 0 {
        assert lines[p.value] == lines[1..][p.value - 1];
        forall i | 0 < i < p.value ensures lines[i] == lines[1..][i - 1] {}
      }
    }
  }

  lemma ScanIsBelow(lines: seq<string>, n: nat, p: nat)
    requires n < |lines|
    ensures FirstProviders(lines[n + 1..], p) <==> ProvidersAt(lines, n, n + 1 + p)
  {
    var below := lines[n + 1..];
    forall i | 0 <= i < |below| ensures below[i] == lines[n + 1 + i] {}
    forall i | n < i < |lines| ensures lines[i] == below[i - n - 1] {}
  }

  lemma ProvidersIsOne(lines: seq<string>, n: nat, k: nat, other: nat)
    requires ProvidersAt(lines, n, k) && ProvidersAt(lines, n, other)
    ensures k == other
  {}

  lemma SectionsAre(lines: seq<string>, n: nat)
    requires FirstIndex(lines, NamespaceHead) == Some(n)
    ensures forall m: nat :: SectionAt(lines, m) <==> m == n
  {
    NamespaceIsSection(lines);
    forall m: nat | SectionAt(lines, m) ensures m == n { SectionIsOne(lines, m); }
  }

  lemma ProvidersAre(lines: seq<string>, n: nat)
    requires n < |lines|
    ensures var p := ProvidersIn(lines[n + 1..]);
            forall k: nat :: ProvidersAt(lines, n, k) <==> p.Some? && k == n + 1 + p.value
  {
    var p := ProvidersIn(lines[n + 1..]);
    ScanStops(lines[n + 1..]);
    if p.Some? { ScanIsBelow(lines, n, p.value); }
    forall k: nat | ProvidersAt(lines, n, k) ensures p.Some? && k == n + 1 + p.value {
      ScanIsBelow(lines, n, k - n - 1);
      if p.Some? { ProvidersIsOne(lines, n, k, n + 1 + p.value); }
    }
  }

  /** The scan finds the place, and what has to go around the blocks there. */
  lemma PlaceIsFound(lines: seq<string>)
    ensures var s := PlaceIn(lines);
            && (HasProviders(lines) <==> s.head == [])
            && (HasSection(lines) && !HasProviders(lines) ==> s.head == ["  providers:"] && s.tail == [])
            && (HasProviders(lines) ==> s.tail == [])
            && (!HasSection(lines) ==>
                  && s.head == ["llm-pi-ai:", "  providers:"]
                  && s.tail == if lines != [] && lines[|lines| - 1] == "" then [""] else [])
            && forall at: nat :: GoesTo(lines, at) <==> at == s.at
  {
    var ns := FirstIndex(lines, NamespaceHead);
    NamespaceIsSection(lines);
    if ns.Some? {
      SectionsAre(lines, ns.value);
      ProvidersAre(lines, ns.value);
      var p := ProvidersIn(lines[ns.value + 1..]);
      assert p.Some? ==> ProvidersAt(lines, ns.value, ns.value + 1 + p.value);
    }
  }

  /** The kept lines with the blocks below line `k`. */
  function Below(kept: seq<string>, k: nat, blocks: seq<string>): seq<string>
    requires k < |kept|
  {
    kept[..k + 1] + blocks + kept[k + 1..]
  }

  /** The kept lines with a new section at the end, before and after a last line that is empty. */
  function AtEnd(kept: seq<string>, blocks: seq<string>): seq<string> {
    if kept != [] && kept[|kept| - 1] == ""
    then kept[..|kept| - 1] + (["llm-pi-ai:", "  providers:"] + blocks + [""]) + [""]
    else kept + (["llm-pi-ai:", "  providers:"] + blocks)
  }

  lemma LandBelow(kept: seq<string>, blocks: seq<string>, n: nat)
    requires SectionAt(kept, n)
    ensures forall k: nat :: ProvidersAt(kept, n, k) ==> Inserted(kept, PlaceIn(kept), blocks) == Below(kept, k, blocks)
    ensures (forall k: nat :: !ProvidersAt(kept, n, k)) ==>
              Inserted(kept, PlaceIn(kept), blocks) == Below(kept, n, ["  providers:"] + blocks)
  {
    PlaceIsFound(kept);
    SectionIsOne(kept, n);
    forall m: nat | SectionAt(kept, m) ensures m == n { SectionIsOne(kept, m); }
    assert GoesTo(kept, PlaceIn(kept).at);
    assert [] + blocks + [] == blocks && ["  providers:"] + blocks + [] == ["  providers:"] + blocks;
  }

  lemma LandAtEnd(kept: seq<string>, blocks: seq<string>)
    requires !HasSection(kept)
    ensures Inserted(kept, PlaceIn(kept), blocks) == AtEnd(kept, blocks)
  {
    var s := PlaceIn(kept);
    PlaceIsFound(kept);
    assert GoesTo(kept, s.at);
    if kept != [] && kept[|kept| - 1] == "" {
      assert kept[|kept| - 1..] == [""];
    } else {
      assert kept[|kept|..] == [] && kept[..|kept|] == kept && s.head + blocks + [] == s.head + blocks;
      assert kept + (s.head + blocks) + [] == kept + (s.head + blocks);
    }
  }

  /**
   What a run makes of the lines it keeps. With nothing missing it only drops the obsolete blocks;
   otherwise it puts the missing ones below the first indented `providers:` of the section if it has one,
   below the head of the section with a `providers:` line before them if not, and at the end of the
   file with both lines if there is no section.
   */
  lemma {:induction false} BlocksLand(text: string, desired: seq<Entry>, managed: seq<string>)
    ensures Missing(text, desired, managed) == [] ==>
              Reconcile(text, desired, managed).text == Join(Flat(KeptItems(text, desired, managed)))
    ensures Missing(text, desired, managed) != [] ==>
            var kept, blocks := Flat(KeptItems(text, desired, managed)), BlockText(Missing(text, desired, managed));
            var out := Reconcile(text, desired, managed).text;
            && (forall n: nat, k: nat :: SectionAt(kept, n) && ProvidersAt(kept, n, k) ==>
                  out == Join(Below(kept, k, blocks)))
            && (forall n: nat :: SectionAt(kept, n) && (forall k: nat :: !ProvidersAt(kept, n, k)) ==>
                  out == Join(Below(kept, n, ["  providers:"] + blocks)))
            && (!HasSection(kept) ==> out == Join(AtEnd(kept, blocks)))
  {
    var kept, blocks := Flat(KeptItems(text, desired, managed)), BlockText(Missing(text, desired, managed));
    forall n: nat | SectionAt(kept, n)
      ensures forall k: nat :: ProvidersAt(kept, n, k) ==>
              Inserted(kept, PlaceIn(kept), blocks) == Below(kept, k, blocks)
      ensures (forall k: nat :: !ProvidersAt(kept, n, k)) ==>
                Inserted(kept, PlaceIn(kept), blocks) == Below(kept, n, ["  providers:"] + blocks)
    {
      LandBelow(kept, blocks, n);
    }
    if !HasSection(kept) { LandAtEnd(kept, blocks); }
  }

  /** The place where this run would insert is between items, not inside a marker block. */
  ghost predicate PlacedBetween(text: string, desired: seq<Entry>, managed: seq<string>) {
    var items := KeptItems(text, desired, managed);
    forall at: nat :: GoesTo(Flat(items), at) ==> AtBoundary(items, at)
  }

  lemma PlacedIs(text: string, desired: seq<Entry>, managed: seq<string>)
    ensures var items := KeptItems(text, desired, managed);
            PlacedBetween(text, desired, managed) <==> AtBoundary(items, PlaceIn(Flat(items)).at)
  {
    PlaceIsFound(Flat(KeptItems(text, desired, managed)));
  }

  /**
   A second run changes nothing, text or owned routes, exactly when the first had nothing to
   insert or inserted between items. Blocks inserted inside someone's marker block are not
   seen again, and are inserted again by every run.
   */
  lemma {:induction false} SettingsIdempotent(text: string, desired: seq<Entry>, managed: seq<string>)
    requires GoodEntries(desired)
    ensures var once := Reconcile(text, desired, managed);
            Reconcile(once.text, desired, once.managed) == once
            <==> Missing(text, desired, managed) == [] || PlacedBetween(text, desired, managed)
  {
    var once, items := Reconcile(text, desired, managed), KeptItems(text, desired, managed);
    var add := Absent(desired, Present(items));
    var out := Output(items, add);
    PlacedIs(text, desired, managed);
    KeptFacts(text, desired, managed);
    OutputIsLines(items, add);
    TextOfLines(out);
    if out == [""] {
      EmptyResult(items, desired);
      FilterNone(Distinct(managed), r => r in Routes(desired) || r in Present(items));
    } else if add == [] || PlacedBetween(text, desired, managed) {
      QuietAgain(items, desired, managed);
    } else {
      LoudAgain(items, desired, managed);
      KeptFacts(once.text, desired, once.managed);
      var again := KeptItems(once.text, desired, once.managed);
      OutputIsLines(again, add);
      OutputLength(items, add);
      DifferentTexts(Output(again, add), out);
    }
  }

  /**
   Enabling routes that are neither wanted nor owned, and disabling them again, leaves the text
   of a run that never enabled them, exactly when enabling inserted nothing, or inserted
   between items where `providers:` exists or is needed anyway.
   */
  lemma {:induction false} DisablingUndoesEnabling(text: string, desired: seq<Entry>, extra: seq<Entry>,
                                                   managed: seq<string>)
    requires GoodEntries(desired) && GoodEntries(extra) && NewRoutes(extra, desired, managed)
    ensures var enabled := Reconcile(text, desired + extra, managed);
            var items := KeptItems(text, desired + extra, managed);
            Reconcile(enabled.text, desired, enabled.managed).text == Reconcile(text, desired, managed).text
            <==> (Missing(text, desired + extra, managed) == []
                  || (PlacedBetween(text, desired + extra, managed)
                      && (HasProviders(Flat(items)) || Missing(text, desired, managed) != [])))
  {
    var all := desired + extra;
    var enabled, items := Reconcile(text, all, managed), KeptItems(text, all, managed);
    SameKept(text, desired, extra, managed);
    PlacedIs(text, all, managed);
    PlaceIsFound(Flat(items));
    var add, direct := Absent(all, Present(items)), Output(items, Absent(desired, Present(items)));
    var out := Output(items, add);
    KeptFacts(text, desired, managed);
    OutputIsLines(items, add);
    OutputIsLines(items, Absent(desired, Present(items)));
    TextOfLines(out);
    UndoneItems(items, desired, extra, managed);
    if out == [""] {
      EmptyResult(items, all);
    } else {
      var left := KeptItems(enabled.text, desired, enabled.managed);
      var undone := Output(left, Absent(desired, Present(left)));
      KeptFacts(enabled.text, desired, enabled.managed);
      OutputIsLines(left, Absent(desired, Present(left)));
      if |undone| > |direct| {
        DifferentTexts(undone, direct);
      }
    }
  }

  lemma SameKept(text: string, desired: seq<Entry>, extra: seq<Entry>, managed: seq<string>)
    requires NewRoutes(extra, desired, managed)
    ensures KeptItems(text, desired + extra, managed) == KeptItems(text, desired, managed)
  {
    RoutesOf(desired + extra);
    RoutesOf(desired);
    KeepSame(Parse(Lines(text)), managed, Routes(desired), Routes(desired + extra));
  }

  /**
   What a run does to the file: only whole marker blocks of owned, no longer wanted routes go,
   and all that comes is inserted at one place; every other line keeps its content and order.
   */
  lemma {:induction false} OnlyOwnedBlocksGo(text: string, desired: seq<Entry>, managed: seq<string>)
    requires GoodEntries(desired)
    ensures var items, kept := Parse(Lines(text)), KeptItems(text, desired, managed);
            && Flat(items) == Lines(text)
            && (forall item :: item in items && item !in kept ==>
                  && item.Block? && item.route in managed && item.route !in Routes(desired)
                  && item.lines != [] && BeginRoute(item.lines[0]) == Some(item.route))
            && (forall item :: item in kept ==> item in items)
            && exists at: nat, mid :: at <= |Flat(kept)|
                 && Reconcile(text, desired, managed).text == Join(Flat(kept)[..at] + mid + Flat(kept)[at..])
  {
    var items, kept := Parse(Lines(text)), KeptItems(text, desired, managed);
    ParseIsFaithful(Lines(text));
    KeepTakes(items, managed, Routes(desired));
    forall item | item in items && item.Block?
      ensures item.lines != [] && BeginRoute(item.lines[0]) == Some(item.route)
    {
      GoodBlock(items, item);
    }
    var at, mid := OutputAround(kept, Missing(text, desired, managed));
  }

  lemma OutputAround(kept: seq<Item>, add: seq<Entry>) returns (at: nat, mid: seq<string>)
    ensures at <= |Flat(kept)| && Output(kept, add) == Flat(kept)[..at] + mid + Flat(kept)[at..]
  {
    var s := PlaceIn(Flat(kept));
    at, mid := s.at, if add == [] then [] else s.head + BlockText(add) + s.tail;
    assert add == [] ==> Flat(kept) == Flat(kept)[..at] + [] + Flat(kept)[at..];
  }

  lemma {:induction false} GoodBlock(items: seq<Item>, item: Item)
    requires Good(items) && item in items && item.Block?
    ensures item.lines != [] && BeginRoute(item.lines[0]) == Some(item.route)
  {
    if item != items[0] {
      assert items == [items[0]] + items[1..];
      GoodBlock(items[1..], item);
    }
  }

  /**
   After any run, read back from the text, no block is left of a route that was owned and is no
   longer wanted; and every wanted route is there exactly when the run had nothing to insert or
   inserted between items. What goes inside somebody else's marker block is not seen again.
   */
  lemma {:induction false} SettingsLanded(text: string, desired: seq<Entry>, managed: seq<string>)
    requires GoodEntries(desired)
    ensures var found := Parse(Lines(Reconcile(text, desired, managed).text));
            && ((forall r :: r in Routes(desired) ==> r in Present(found))
                <==> Missing(text, desired, managed) == [] || PlacedBetween(text, desired, managed))
            && (forall item :: item in found && item.Block? && item.route in managed ==> item.route in Routes(desired))
  {
    var items := KeptItems(text, desired, managed);
    var add := Absent(desired, Present(items));
    PlacedIs(text, desired, managed);
    KeptFacts(text, desired, managed);
    OutputIsLines(items, add);
    TextOfLines(Output(items, add));
    if Output(items, add) == [""] {
      EmptyResult(items, desired);
    } else if add == [] || AtBoundary(items, PlaceIn(Flat(items)).at) {
      SecondItems(items, desired, managed);
      RoutesOf(desired);
      RoutesOf(add);
      LandedBlocks(items, desired, managed);
    } else {
      InsideIsLost(items, desired, managed);
    }
  }

  /** Inserted inside a block, no missing route is found, and nothing else changes for the reader. */
  lemma InsideIsLost(items: seq<Item>, desired: seq<Entry>, managed: seq<string>)
    requires Good(items) && GoodEntries(desired) && Lasting(items, managed, Routes(desired))
    requires Absent(desired, Present(items)) != [] && !AtBoundary(items, PlaceIn(Flat(items)).at)
    ensures var add := Absent(desired, Present(items));
            var found := Parse(Output(items, add));
            && (forall d :: d in add ==> d.route in Routes(desired) && d.route !in Present(found))
            && (exists r :: r in Routes(desired) && r !in Present(found))
            && (forall item :: item in found && item.Block? && item.route in managed ==> item.route in Routes(desired))
  {
    var add := Absent(desired, Present(items));
    OutputInside(items, add);
    RoutesOf(desired);
    KeepTakes(Parse(Output(items, add)), managed, Routes(desired));
    assert add[0] in add;
  }

  /** Read back, a written block says exactly what the declaration says, and nothing for fields not given. */
  lemma {:induction false} BlockReadsBack(d: Entry)
    requires GoodRoute(d.route)
    ensures var lines := BlockLines(d);
            && ReadField(lines, KEY_FIELD) == Some(d.apiKeyEnv)
            && ReadField(lines, URL_FIELD) == (if d.baseUrl == Some("") then None else d.baseUrl)
            && ReadField(lines, API_FIELD) == d.api
            && ReadIds(lines) == if d.models.Some? then d.models.value else []
  {
    BlockParts(d);
    KeyReadsBack(d);
    UrlReadsBack(d);
    ApiReadsBack(d);
    IdsReadBack(d);
  }

  /**
   A missing declaration is found afterwards as the block written for it exactly when it was inserted
   between items.
   */
  lemma {:induction false} AddedBlocksAreFound(text: string, desired: seq<Entry>, managed: seq<string>, d: Entry)
    requires GoodEntries(desired) && d in Missing(text, desired, managed)
    ensures Block(d.route, BlockLines(d)) in Parse(Lines(Reconcile(text, desired, managed).text))
            <==> PlacedBetween(text, desired, managed)
  {
    var items := KeptItems(text, desired, managed);
    var add := Absent(desired, Present(items));
    KeptFacts(text, desired, managed);
    OutputIsLines(items, add);
    OutputLength(items, add);
    PlacedIs(text, desired, managed);
    TextOfLines(Output(items, add));
    if PlacedBetween(text, desired, managed) {
      BlockBetween(items, add, d);
    } else {
      InsideIsLost(items, desired, managed);
      var found, block := Parse(Output(items, add)), Block(d.route, BlockLines(d));
      if block in found {
        PresentIs(found, block);
      }
    }
  }

  lemma BlockBetween(items: seq<Item>, add: seq<Entry>, d: Entry)
    requires Good(items) && GoodEntries(add) && d in add && (forall e :: e in add ==> e.route !in Present(items))
    requires AtBoundary(items, PlaceIn(Flat(items)).at)
    ensures Block(d.route, BlockLines(d)) in Parse(Output(items, add))
  {
    var front, back := OutputBetween(items, add);
    var i :| 0 <= i < |add| && add[i] == d;
    assert Blocks(add)[i] == Block(d.route, BlockLines(d));
    assert Blocks(add)[i] in Inserts(PlaceIn(Flat(items)), add);
  }

  lemma LandedBlocks(items: seq<Item>, desired: seq<Entry>, managed: seq<string>)
    requires Good(items) && GoodEntries(desired) && Lasting(items, managed, Routes(desired))
    requires var add := Absent(desired, Present(items)); add == [] || AtBoundary(items, PlaceIn(Flat(items)).at)
    ensures var found := Parse(Output(items, Absent(desired, Present(items))));
            forall item :: item in found && item.Block? && item.route in managed ==> item.route in Routes(desired)
  {
    var add := Absent(desired, Present(items));
    RoutesOf(desired);
    if add == [] {
      ParseAgain(items);
    } else {
      var s := PlaceIn(Flat(items));
      var front, back := OutputBetween(items, add);
      SpotIsDull(Flat(items));
      InsertItems(s, add);
      RoutesOf(add);
      forall item | item in front + Inserts(s, add) + back && item.Block? && item.route in managed
        ensures item.route in Routes(desired)
      {
        if item in Inserts(s, add) {
          PresentIs(Inserts(s, add), item);
        } else {
          assert item in items && !Obsolete(item, managed, Routes(desired));
        }
      }
    }
  }

  lemma {:induction false} EndIsBoundary(items: seq<Item>, more: seq<Item>)
    ensures AtBoundary(items + more, |Flat(items)|)
  {
    if items != [] {
      assert items + more == [items[0]] + (items[1..] + more);
      EndIsBoundary(items[1..], more);
    }
  }

  lemma LastLine(items: seq<Item>)
    requires Good(items) && items != []
    ensures var last := items[|items| - 1];
            LinesOf(last) != [] && (last.Block? ==> LinesOf(last)[|LinesOf(last)| - 1] != "")
  {
    if |items| > 1 {
      LastLine(items[1..]);
    } else {
      HeadsAreDull();
      ShortLine("", if items[0].Block? then items[0].route else "");
    }
  }

  lemma EmptyLineIsPlain(items: seq<Item>)
    requires Good(items) && Flat(items) != [] && Flat(items)[|Flat(items)| - 1] == ""
    ensures AtBoundary(items, |Flat(items)| - 1)
  {
    var init, last := items[..|items| - 1], items[|items| - 1];
    LastOff(items);
    LastLine(items);
    FlatSplit(init, [last]);
    assert Flat([last]) == LinesOf(last);
    EndIsBoundary(init, [last]);
  }

  /** Without an `llm-pi-ai:` section the blocks go to the end of the file, which is never inside a block. */
  lemma {:induction false} EndIsBetween(items: seq<Item>)
    requires Good(items) && !HasSection(Flat(items))
    ensures forall at: nat :: GoesTo(Flat(items), at) ==> AtBoundary(items, at)
  {
    var kept := Flat(items);
    PlaceIsFound(kept);
    EndIsBoundary(items, []);
    assert items + [] == items;
    if kept != [] && kept[|kept| - 1] == "" {
      EmptyLineIsPlain(items);
    }
  }

  /** Concretely: in an empty file, enabling one route and disabling it leaves an empty section behind. */
  lemma {:induction false} EmptySectionStays(d: Entry)
    requires GoodEntry(d)
    ensures var enabled := Reconcile("", [d], []);
            Reconcile(enabled.text, [], enabled.managed).text != Reconcile("", [], []).text == ""
  {
    assert KeptItems("", [], []) == [] && KeptItems("", [] + [d], []) == [];
    assert [] + [d] == [d];
    assert d in Missing("", [d], []);
    DisablingUndoesEnabling("", [], [d], []);
  }

  /** Concretely: a section inside somebody else's marker block gets the same route again on every run. */
  lemma {:induction false} BlockInBlockRepeats(d: Entry, route: string)
    requires GoodEntry(d) && GoodRoute(route) && d.route != route
    ensures var text := Join([MarkBegin(route), NAMESPACE, MarkEnd(route)]);
            var once := Reconcile(text, [d], []);
            Reconcile(once.text, [d], once.managed) != once
  {
    var text := Join([MarkBegin(route), NAMESPACE, MarkEnd(route)]);
    ForeignKept(d, route);
    assert d in Missing(text, [d], []);
    SettingsIdempotent(text, [d], []);
  }

  lemma ForeignKept(d: Entry, route: string)
    requires GoodRoute(route) && d.route != route
    ensures var lines := [MarkBegin(route), NAMESPACE, MarkEnd(route)];
            && KeptItems(Join(lines), [d], []) == [Block(route, lines)]
            && Present([Block(route, lines)]) == {route} && !PlacedBetween(Join(lines), [d], [])
  {
    var lines := [MarkBegin(route), NAMESPACE, MarkEnd(route)];
    ForeignSection(route);
    OneBlock(Block(route, lines));
    ForeignLines(route);
    TextOfLines(lines);
    KeepAll([Block(route, lines)], [], Routes([d]));
    PlacedIs(Join(lines), [d], []);
  }

  lemma ForeignLines(route: string)
    requires GoodRoute(route)
    ensures AreLines([MarkBegin(route), NAMESPACE, MarkEnd(route)])
  {
    assert forall i :: 0 <= i < |route| ==> !Space(route[i]);
  }

  lemma OneBlock(item: Item)
    requires item.Block? && Whole(item)
    ensures Flat([item]) == item.lines && Parse(item.lines) == [item] && Present([item]) == {item.route}
  {
    ParseAgain([item]);
  }

  lemma ForeignSection(route: string)
    requires GoodRoute(route)
    ensures var lines := [MarkBegin(route), NAMESPACE, MarkEnd(route)];
            && Whole(Block(route, lines)) && PlaceIn(lines).at == 2
            && !AtBoundary([Block(route, lines)], 2)
  {
    var lines := [MarkBegin(route), NAMESPACE, MarkEnd(route)];
    MarksRecognised(route);
    HeadsAreDull();
    ShortLine(NAMESPACE, route);
    assert lines[1..2] == [NAMESPACE];
    assert DropLeft(NAMESPACE, Space) == NAMESPACE && DropRight(NAMESPACE, Space) == NAMESPACE;
    assert lines[..2][..1] == [MarkBegin(route)];
    assert FirstIndex([MarkBegin(route)], NamespaceHead).None? by {
      assert [MarkBegin(route)][..0] == [];
    }
    assert lines[..2] == lines[..3][..2];
    assert FirstIndex(lines[..2], NamespaceHead) == Some(1);
    assert lines[..3] == lines;
    FirstIndexStays(lines, NamespaceHead, 2);
    assert lines[2..] == [MarkEnd(route)];
    assert Indented(MarkEnd(route));
    TrimmedMark(route);
    assert [MarkEnd(route)][1..] == [];
  }

  lemma TrimmedMark(route: string)
    ensures Trim(MarkEnd(route)) != "providers:"
  {
    var t := MARK + route + " end";
    DropLeftPadding("    ", t, Space);
    assert DropRight(t, Space) == t && t[0] == '#';
  }

  // ----- printed markers are recognised, and nothing else printed is

  predicate GoodRoute(route: string) {
    route != "" && NoneOf(route, Space)
  }

  /** What the callers guarantee: routes without white space, fields without line breaks. */
  predicate GoodEntry(d: Entry) {
    && GoodRoute(d.route) && IsLine(d.apiKeyEnv)
    && (d.baseUrl.Some? ==> IsLine(d.baseUrl.value))
    && (d.api.Some? ==> IsLine(d.api.value))
    && (d.models.Some? ==> AreLines(d.models.value))
  }

  predicate GoodEntries(desired: seq<Entry>) {
    forall d :: d in desired ==> GoodEntry(d)
  }

  lemma {:induction false} DropRightPrefix(s: string, p: char -> bool)
    ensures DropRight(s, p) <= s
  {
    if s != "" && p(s[|s| - 1]) {
      DropRightPrefix(s[..|s| - 1], p);
    }
  }

  lemma {:induction false} DropLeftShorter(s: string, p: char -> bool)
    ensures |DropLeft(s, p)| <= |s|
  {
    if s != "" && p(s[0]) {
      DropLeftShorter(s[1..], p);
    }
  }

  lemma StripBody(body: string)
    requires body != "" && !Blank(body[0])
    ensures Strip("    " + body) == DropRight(body, Blank) <= body
    ensures !Blank(body[|body| - 1]) ==> Strip("    " + body) == body
  {
    DropLeftPadding("    ", body, Blank);
    DropRightPrefix(body, Blank);
  }

  lemma MarksRecognised(route: string)
    requires GoodRoute(route)
    ensures BeginRoute(MarkBegin(route)) == Some(route)
    ensures IsEnd(MarkEnd(route), route)
  {
    var t := MARK + route + " begin";
    StripBody(t);
    assert t[..|MARK|] == MARK && t[|MARK|..|MARK| + |route|] == route && t[|MARK| + |route|..] == " begin";
    StripBody(MARK + route + " end");
  }

  /** An end marker ends the block of its own route and no other. */
  lemma EndNamesRoute(route: string, r: string)
    requires IsEnd(MarkEnd(route), r)
    ensures r == route
  {
    var t, u := MARK + route + " end", MARK + r + " end";
    StripBody(t);
    assert t == u;
    assert t[|MARK|..|t| - 4] == route && u[|MARK|..|u| - 4] == r;
  }

  lemma BeginIsNoEnd(route: string, r: string)
    ensures !IsEnd(MarkBegin(route), r)
  {
    var t, u := MARK + route + " begin", MARK + r + " end";
    StripBody(t);
    assert t[|t| - 1] == 'n' && u[|u| - 1] == 'd';
  }

  lemma ShortLine(line: string, r: string)
    requires |line| < |MARK|
    ensures BeginRoute(line).None? && !IsEnd(line, r)
  {
    DropLeftShorter(line, Blank);
    DropRightPrefix(DropLeft(line, Blank), Blank);
  }

  lemma NotEnd(pad: string, body: string, r: string)
    requires AllOf(pad, Blank) && body != "" && !Blank(body[0])
    requires |body| >= 2 ==> body[0] != '#' || body[1] != ' '
    ensures !IsEnd(pad + body, r)
  {
    DropLeftPadding(pad, body, Blank);
    DropRightPrefix(body, Blank);
    var u := MARK + r + " end";
    assert u[0] == '#' && u[1] == ' ';
  }

  lemma FieldsAreNoEnds(d: Entry, r: string)
    requires GoodRoute(d.route)
    ensures NoEnd(Fields(d), r)
  {
    assert (d.route + ":")[1] == (if |d.route| == 1 then ':' else d.route[1]);
    NotEnd("    ", d.route + ":", r);
    NotEnd("      ", "apiKeyEnv: " + d.apiKeyEnv, r);
    if d.baseUrl.Some? { NotEnd("      ", "baseURL: " + d.baseUrl.value, r); }
    if d.api.Some? { NotEnd("      ", "api: " + d.api.value, r); }
    if d.models.Some? { ModelsAreNoEnds(d.models.value, r); }
    assert "      apiKeyEnv: " + d.apiKeyEnv == "      " + ("apiKeyEnv: " + d.apiKeyEnv);
    assert d.baseUrl.Some? ==> "      baseURL: " + d.baseUrl.value == "      " + ("baseURL: " + d.baseUrl.value);
    assert d.api.Some? ==> "      api: " + d.api.value == "      " + ("api: " + d.api.value);
  }

  lemma ModelsAreNoEnds(models: seq<string>, r: string)
    ensures NoEnd(["      models:"] + ModelLines(models), r)
  {
    NotEnd("      ", "models:", r);
    assert "      models:" == "      " + "models:";
    forall i | 0 <= i < |models|
      ensures !IsEnd(ModelLines(models)[i], r)
    {
      NotEnd("        ", "- id: " + models[i], r);
      assert ModelLines(models)[i] == "        " + ("- id: " + models[i]);
    }
  }

  // ----- what parsing gives, and when it gives the same items again

  /** An item that parses alike whatever follows. */
  predicate Whole(item: Item) {
    match item
    case Plain(line) => BeginRoute(line).None?
    case Block(route, lines) =>
      && |lines| >= 2 && BeginRoute(lines[0]) == Some(route)
      && IsEnd(lines[|lines| - 1], route) && NoEnd(lines[1..|lines| - 1], route)
  }

  /** A begin marker stands alone only if its end never comes. */
  predicate GoodHead(item: Item, after: seq<string>) {
    || Whole(item)
    || (item.Block? && |item.lines| == 1 && BeginRoute(item.lines[0]) == Some(item.route) && NoEnd(after, item.route))
  }

  predicate Good(items: seq<Item>) {
    items == [] || (GoodHead(items[0], Flat(items[1..])) && Good(items[1..]))
  }

  lemma FirstItemIsGood(lines: seq<string>)
    requires lines != []
    ensures LinesOf(FirstItem(lines)) == lines[..ItemLen(lines)]
    ensures GoodHead(FirstItem(lines), lines[ItemLen(lines)..])
  {
    var r := BeginRoute(lines[0]);
    if r.Some? {
      var rest, e := lines[1..], EndAt(lines[1..], r.value);
      if e.Some? {
        assert lines[..e.value + 2][1..e.value + 1] == rest[..e.value];
      } else {
        assert lines[..1] == [lines[0]];
      }
    }
  }

  lemma GoodCons(item: Item, later: seq<Item>)
    ensures Flat([item] + later) == LinesOf(item) + Flat(later)
    ensures Good([item] + later) <==> GoodHead(item, Flat(later)) && Good(later)
  {
    assert ([item] + later)[0] == item && ([item] + later)[1..] == later;
  }

  /** Parsing loses nothing: every line is in one item, in order. */
  lemma {:induction false} ParseIsFaithful(lines: seq<string>)
    ensures Good(Parse(lines)) && Flat(Parse(lines)) == lines
    decreases |lines|
  {
    if lines != [] {
      var n := ItemLen(lines);
      ParseIsFaithful(lines[n..]);
      FirstItemIsGood(lines);
      GoodCons(FirstItem(lines), Parse(lines[n..]));
      CutAt(lines, n);
    }
  }

  lemma EndAtIs(lines: seq<string>, r: string, e: nat)
    requires e < |lines| && IsEnd(lines[e], r) && NoEnd(lines[..e], r)
    ensures EndAt(lines, r) == Some(e)
  {
    var x := EndAt(lines, r);
    assert lines[e] in lines;
    assert forall i, k :: 0 <= i < k <= |lines| ==> lines[i] == lines[..k][i];
  }

  lemma HeadParses(item: Item, after: seq<string>)
    requires GoodHead(item, after)
    ensures FirstItem(LinesOf(item) + after) == item && ItemLen(LinesOf(item) + after) == |LinesOf(item)|
  {
    if item.Block? {
      var ls, lines := item.lines, item.lines + after;
      if Whole(item) {
        assert lines[1..][|ls| - 2] == ls[|ls| - 1];
        assert lines[1..][..|ls| - 2] == ls[1..|ls| - 1];
        EndAtIs(lines[1..], item.route, |ls| - 2);
      } else {
        assert lines[1..] == after;
      }
      assert lines[..|ls|] == ls;
    }
  }

  lemma {:induction false} ParseAgain(items: seq<Item>)
    requires Good(items)
    ensures Parse(Flat(items)) == items
  {
    if items != [] {
      var after := Flat(items[1..]);
      HeadParses(items[0], after);
      ParseAgain(items[1..]);
      assert Flat(items)[|LinesOf(items[0])|..] == after;
    }
  }

  lemma {:induction false} KeepTakes(items: seq<Item>, owned: seq<string>, wanted: seq<string>)
    ensures forall l :: l in Flat(Keep(items, owned, wanted)) ==> l in Flat(items)
    ensures forall item :: item in Keep(items, owned, wanted) <==> item in items && !Obsolete(item, owned, wanted)
  {
    if items != [] {
      KeepTakes(items[1..], owned, wanted);
      KeepSplit([items[0]], items[1..], owned, wanted);
      assert items == [items[0]] + items[1..];
      FlatSplit(Keep([items[0]], owned, wanted), Keep(items[1..], owned, wanted));
    }
  }

  lemma {:induction false} KeepIsGood(items: seq<Item>, owned: seq<string>, wanted: seq<string>)
    requires Good(items)
    ensures Good(Keep(items, owned, wanted))
  {
    if items != [] {
      KeepIsGood(items[1..], owned, wanted);
      KeepTakes(items[1..], owned, wanted);
      var kept := Keep(items, owned, wanted);
      if Obsolete(items[0], owned, wanted) {
        assert kept == Keep(items[1..], owned, wanted);
      } else {
        assert kept[0] == items[0] && kept[1..] == Keep(items[1..], owned, wanted);
      }
    }
  }

  lemma {:induction false} KeepAll(items: seq<Item>, owned: seq<string>, wanted: seq<string>)
    requires forall item :: item in items ==> !Obsolete(item, owned, wanted)
    ensures Keep(items, owned, wanted) == items
  {
    if items != [] {
      assert items == [items[0]] + items[1..];
      KeepAll(items[1..], owned, wanted);
    }
  }

  lemma {:induction false} PresentIs(items: seq<Item>, item: Item)
    requires item in items
    ensures Names(item) <= Present(items)
  {
    if item != items[0] {
      assert items == [items[0]] + items[1..];
      PresentIs(items[1..], item);
    }
  }

  // ----- inserting items between items

  lemma {:induction false} WholeAreGood(ins: seq<Item>, back: seq<Item>)
    requires Good(back) && forall item :: item in ins ==> Whole(item)
    ensures Good(ins + back)
  {
    if ins == [] {
      assert ins + back == back;
    } else {
      var first, rest := ins[0], ins[1..];
      WholeAreGood(rest, back);
      HeadOff(ins, [], back);
      GoodCons(first, rest + back);
    }
  }

  ghost predicate NoEndsFor(routes: set<string>, lines: seq<string>) {
    forall r :: r in routes ==> NoEnd(lines, r)
  }

  /** Whole items may go between items, unless they hold an end that an item before them lacks. */
  lemma {:induction false} InsertedAreGood(front: seq<Item>, ins: seq<Item>, back: seq<Item>)
    requires Good(front + back) && forall item :: item in ins ==> Whole(item)
    requires NoEndsFor(Present(front), Flat(ins))
    ensures Good(front + ins + back)
  {
    if front == [] {
      EmptyAround(ins, back);
      WholeAreGood(ins, back);
    } else {
      var first, rest := front[0], front[1..];
      HeadOff(front, ins, back);
      GoodCons(first, rest + back);
      assert Present(front) == Names(first) + Present(rest);
      InsertedAreGood(rest, ins, back);
      InsertedCons(first, rest, ins, back);
    }
  }

  lemma InsertedCons(first: Item, rest: seq<Item>, ins: seq<Item>, back: seq<Item>)
    requires GoodHead(first, Flat(rest + back)) && NoEndsFor(Names(first), Flat(ins)) && Good(rest + ins + back)
    ensures Good([first] + (rest + ins + back))
  {
    InsertedAfterHead(first, rest, ins, back);
    GoodCons(first, rest + ins + back);
  }

  lemma InsertedAfterHead(first: Item, rest: seq<Item>, ins: seq<Item>, back: seq<Item>)
    requires GoodHead(first, Flat(rest + back)) && NoEndsFor(Names(first), Flat(ins))
    ensures GoodHead(first, Flat(rest + ins + back))
  {
    FlatSplit(rest, back);
    FlatSplit(rest + ins, back);
    FlatSplit(rest, ins);
    if !Whole(first) {
      NoEndSum(Flat(rest), Flat(back), first.route);
      NoEndSum(Flat(rest), Flat(ins), first.route);
      NoEndSum(Flat(rest) + Flat(ins), Flat(back), first.route);
    }
  }

  /** Whether a position is between items, not inside a marker block. */
  predicate AtBoundary(items: seq<Item>, at: nat) {
    at == 0 || (items != [] && |LinesOf(items[0])| <= at && AtBoundary(items[1..], at - |LinesOf(items[0])|))
  }

  lemma {:induction false} SplitBetween(items: seq<Item>, at: nat) returns (front: seq<Item>, back: seq<Item>)
    requires AtBoundary(items, at)
    ensures items == front + back && |Flat(front)| == at
    decreases items
  {
    if at == 0 {
      front, back := [], items;
    } else {
      var f, b := SplitBetween(items[1..], at - |LinesOf(items[0])|);
      front, back := [items[0]] + f, b;
      FlatSplit([items[0]], f);
      assert Flat([items[0]]) == LinesOf(items[0]);
      assert items == [items[0]] + items[1..];
    }
  }

  lemma {:induction false} SplitInside(items: seq<Item>, at: nat)
    returns (before: seq<Item>, item: Item, after: seq<Item>, j: nat)
    requires !AtBoundary(items, at) && at <= |Flat(items)|
    ensures items == before + [item] + after && 0 < j < |LinesOf(item)| && at == |Flat(before)| + j
    decreases items
  {
    if at < |LinesOf(items[0])| {
      before, item, after, j := [], items[0], items[1..], at;
    } else {
      var b, i, a, k := SplitInside(items[1..], at - |LinesOf(items[0])|);
      before, item, after, j := [items[0]] + b, i, a, k;
      FlatSplit([items[0]], b);
      assert Flat([items[0]]) == LinesOf(items[0]);
      assert items == [items[0]] + items[1..];
    }
  }

  function Plains(lines: seq<string>): seq<Item> {
    seq(|lines|, i requires 0 <= i < |lines| => Plain(lines[i]))
  }

  function Blocks(add: seq<Entry>): seq<Item> {
    seq(|add|, i requires 0 <= i < |add| => Block(add[i].route, BlockLines(add[i])))
  }

  /** What a run inserts, as items. */
  function Inserts(s: Spot, add: seq<Entry>): seq<Item> {
    Plains(s.head) + Blocks(add) + Plains(s.tail)
  }

  /** A line that is no marker and no key, whatever the route. */
  predicate Dull(line: string) {
    |line| < |MARK| && KeyOf(line).None?
  }

  predicate DullLines(lines: seq<string>) {
    forall l :: l in lines ==> Dull(l)
  }

  lemma HeadsAreDull()
    ensures Dull(NAMESPACE) && Dull(PROVIDERS) && Dull("")
  {
    assert NAMESPACE[..4][0] == 'l' && PROVIDERS[..4][2] == 'p';
  }

  lemma {:induction false} SpotIsDull(kept: seq<string>)
    ensures DullLines(PlaceIn(kept).head) && DullLines(PlaceIn(kept).tail)
  {
    HeadsAreDull();
    forall l | l in PlaceIn(kept).head || l in PlaceIn(kept).tail
      ensures l == NAMESPACE || l == PROVIDERS || l == ""
    {}
  }

  lemma DullLine(line: string)
    requires Dull(line)
    ensures Whole(Plain(line)) && Names(Plain(line)) == {}
    ensures forall r :: !IsEnd(line, r)
  {
    ShortLine(line, "");
    forall r
      ensures !IsEnd(line, r)
    {
      ShortLine(line, r);
    }
  }

  lemma {:induction false} PlainItems(lines: seq<string>)
    requires DullLines(lines)
    ensures Flat(Plains(lines)) == lines && Present(Plains(lines)) == {}
    ensures forall item :: item in Plains(lines) ==> Whole(item)
    ensures forall r :: NoEnd(lines, r)
  {
    if lines != [] {
      assert lines == [lines[0]] + lines[1..];
      DullLine(lines[0]);
      PlainItems(lines[1..]);
      assert Plains(lines) == [Plain(lines[0])] + Plains(lines[1..]);
      GoodCons(Plain(lines[0]), Plains(lines[1..]));
      forall r ensures NoEnd(lines, r) {
        NoEndSum([lines[0]], lines[1..], r);
      }
    }
  }

  lemma NoEndSum(a: seq<string>, b: seq<string>, r: string)
    ensures NoEnd(a + b, r) <==> NoEnd(a, r) && NoEnd(b, r)
  {
    assert forall l :: l in a + b <==> l in a || l in b;
  }

  lemma {:induction false} PrintedBlock(d: Entry)
    requires GoodRoute(d.route)
    ensures Whole(Block(d.route, BlockLines(d)))
    ensures forall r :: r != d.route ==> NoEnd(BlockLines(d), r)
  {
    var lines := BlockLines(d);
    MarksRecognised(d.route);
    assert lines[1..|lines| - 1] == Fields(d);
    FieldsAreNoEnds(d, d.route);
    forall r | r != d.route
      ensures NoEnd(lines, r)
    {
      FieldsAreNoEnds(d, r);
      BeginIsNoEnd(d.route, r);
      if IsEnd(MarkEnd(d.route), r) {
        EndNamesRoute(d.route, r);
      }
    }
  }

  lemma {:induction false} BlockItems(add: seq<Entry>)
    requires GoodEntries(add)
    ensures Flat(Blocks(add)) == BlockText(add)
    ensures forall r :: r in Present(Blocks(add)) <==> r in Routes(add)
    ensures forall item :: item in Blocks(add) ==> Whole(item)
    ensures forall r :: r !in Routes(add) ==> NoEnd(BlockText(add), r)
  {
    if add != [] {
      var init, last := add[..|add| - 1], add[|add| - 1];
      assert last in add;
      BlockItems(init);
      PrintedBlock(last);
      LastOff(add);
      BlockSnoc(init, last);
      forall r | r !in Routes(add) ensures NoEnd(BlockText(add), r) {
        NoEndSum(BlockText(init), BlockLines(last), r);
      }
    }
  }

  lemma BlockSnoc(init: seq<Entry>, last: Entry)
    ensures var item := Block(last.route, BlockLines(last));
            && Blocks(init + [last]) == Blocks(init) + [item] && Routes(init + [last]) == Routes(init) + [last.route]
            && Flat(Blocks(init + [last])) == Flat(Blocks(init)) + BlockLines(last)
            && Present(Blocks(init + [last])) == Present(Blocks(init)) + {last.route}
  {
    var item := Block(last.route, BlockLines(last));
    assert Blocks(init + [last]) == Blocks(init) + [item];
    FlatSplit(Blocks(init), [item]);
    PresentSplit(Blocks(init), [item]);
    assert Flat([item]) == item.lines && Present([item]) == {last.route};
  }

  lemma InsertItems(s: Spot, add: seq<Entry>)
    requires GoodEntries(add) && DullLines(s.head) && DullLines(s.tail)
    ensures Flat(Inserts(s, add)) == s.head + BlockText(add) + s.tail
    ensures forall r :: r in Present(Inserts(s, add)) <==> r in Routes(add)
    ensures forall item :: item in Inserts(s, add) ==> Whole(item)
    ensures forall r :: r !in Routes(add) ==> NoEnd(Flat(Inserts(s, add)), r)
  {
    var head, blocks, tail := Plains(s.head), Blocks(add), Plains(s.tail);
    PlainItems(s.head);
    PlainItems(s.tail);
    BlockItems(add);
    FlatSplit(head, blocks);
    FlatSplit(head + blocks, tail);
    PresentSplit(head, blocks);
    PresentSplit(head + blocks, tail);
    forall item | item in Inserts(s, add)
      ensures item in head || item in blocks || item in tail
    {}
    forall r | r !in Routes(add)
      ensures NoEnd(Flat(Inserts(s, add)), r)
    {
      NoEndSum(s.head, BlockText(add), r);
      NoEndSum(s.head + BlockText(add), s.tail, r);
    }
  }

  /** Inserted between items, the blocks are read back as blocks. */
  lemma {:induction false} OutputBetween(items: seq<Item>, add: seq<Entry>) returns (front: seq<Item>, back: seq<Item>)
    requires Good(items) && GoodEntries(add) && add != []
    requires forall d :: d in add ==> d.route !in Present(items)
    requires AtBoundary(items, PlaceIn(Flat(items)).at)
    ensures items == front + back && |Flat(front)| == PlaceIn(Flat(items)).at
    ensures Parse(Output(items, add)) == front + Inserts(PlaceIn(Flat(items)), add) + back
  {
    var s := PlaceIn(Flat(items));
    front, back := SplitBetween(items, s.at);
    var ins := Inserts(s, add);
    SpotIsDull(Flat(items));
    InsertItems(s, add);
    PresentSplit(front, back);
    assert NoEndsFor(Present(front), Flat(ins)) by {
      forall r | r in Present(front) ensures r !in Routes(add) {}
    }
    InsertedAreGood(front, ins, back);
    ParseAgain(front + ins + back);
    FlatSplit(front, back);
    FlatSplit(front + ins, back);
    FlatSplit(front, ins);
    assert Flat(items)[..s.at] == Flat(front) && Flat(items)[s.at..] == Flat(back);
  }

  /** A whole item may be replaced by another that brings no end an item before it lacks. */
  lemma {:induction false} ReplacedIsGood(before: seq<Item>, item: Item, other: Item, after: seq<Item>)
    requires Good(before + [item] + after) && Whole(other)
    requires forall r, l :: r in Present(before) && l in LinesOf(other) && IsEnd(l, r) ==> l in LinesOf(item)
    ensures Good(before + [other] + after)
  {
    if before == [] {
      EmptyAround([item], after);
      EmptyAround([other], after);
      GoodCons(item, after);
      GoodCons(other, after);
    } else {
      var rest, first := before[1..], before[0];
      HeadOff(before, [item], after);
      HeadOff(before, [other], after);
      GoodCons(first, rest + [item] + after);
      GoodCons(first, rest + [other] + after);
      ReplacedIsGood(rest, item, other, after);
      FlatAround(rest, item, after);
      FlatAround(rest, other, after);
    }
  }

  lemma FlatAround(before: seq<Item>, item: Item, after: seq<Item>)
    ensures Flat(before + [item] + after) == Flat(before) + LinesOf(item) + Flat(after)
  {
    FlatSplit(before + [item], after);
    FlatSplit(before, [item]);
    assert Flat([item]) == LinesOf(item);
  }

  /** A block that got lines inserted between its markers is still that one block. */
  lemma WidenedBlock(route: string, lines: seq<string>, j: nat, mid: seq<string>)
    requires Whole(Block(route, lines)) && 0 < j < |lines| && NoEnd(mid, route)
    ensures Whole(Block(route, lines[..j] + mid + lines[j..]))
  {
    var wide, n := lines[..j] + mid + lines[j..], |lines|;
    assert wide[1..|wide| - 1] == lines[1..j] + mid + lines[j..n - 1];
    assert lines[1..n - 1] == lines[1..j] + lines[j..n - 1];
    NoEndSum(lines[1..j], lines[j..n - 1], route);
    NoEndSum(lines[1..j], mid, route);
    NoEndSum(lines[1..j] + mid, lines[j..n - 1], route);
  }

  lemma WholeAmongGood(before: seq<Item>, item: Item, after: seq<Item>)
    requires Good(before + [item] + after) && |LinesOf(item)| >= 2
    ensures Whole(item)
  {
    if before == [] {
      assert before + [item] + after == [item] + after;
      GoodCons(item, after);
    } else {
      assert before + [item] + after == [before[0]] + (before[1..] + [item] + after);
      GoodCons(before[0], before[1..] + [item] + after);
      WholeAmongGood(before[1..], item, after);
    }
  }

  /** Inserted inside a block, everything inserted is swallowed by that block. */
  lemma {:induction false} OutputWidens(items: seq<Item>, add: seq<Entry>)
    returns (before: seq<Item>, item: Item, wide: Item, after: seq<Item>)
    requires Good(items) && GoodEntries(add) && add != []
    requires forall d :: d in add ==> d.route !in Present(items)
    requires !AtBoundary(items, PlaceIn(Flat(items)).at)
    ensures items == before + [item] + after && item.Block? && wide.Block? && wide.route == item.route
    ensures Parse(Output(items, add)) == before + [wide] + after
    ensures Flat(before + [wide] + after) == Output(items, add)
  {
    var j;
    before, item, after, j := SplitInside(items, PlaceIn(Flat(items)).at);
    WholeAmongGood(before, item, after);
    SpotIsDull(Flat(items));
    wide := InsertedWidens(items, add, PlaceIn(Flat(items)), before, item, after, j);
  }

  lemma {:induction false} InsertedWidens(items: seq<Item>, add: seq<Entry>, s: Spot, before: seq<Item>, item: Item,
                                          after: seq<Item>, j: nat)
    returns (wide: Item)
    requires Good(items) && GoodEntries(add) && DullLines(s.head) && DullLines(s.tail)
    requires forall d :: d in add ==> d.route !in Present(items)
    requires items == before + [item] + after && item.Block? && Whole(item)
    requires 0 < j < |item.lines| && s.at == |Flat(before)| + j <= |Flat(items)|
    ensures wide.Block? && wide.route == item.route
    ensures Parse(Inserted(Flat(items), s, BlockText(add))) == before + [wide] + after
    ensures Flat(before + [wide] + after) == Inserted(Flat(items), s, BlockText(add))
  {
    var mid := s.head + BlockText(add) + s.tail;
    MiddleHasNoEnd(items, add, s, mid);
    wide := Block(item.route, item.lines[..j] + mid + item.lines[j..]);
    MiddleFits(items, before, item, after, mid);
    WidenedParses(before, item, after, j, mid, wide);
  }

  lemma WidenedParses(before: seq<Item>, item: Item, after: seq<Item>, j: nat, mid: seq<string>, wide: Item)
    requires Good(before + [item] + after) && item.Block? && Whole(item) && 0 < j < |item.lines|
    requires NoEndsFor(Present(before), mid) && NoEnd(mid, item.route)
    requires wide == Block(item.route, item.lines[..j] + mid + item.lines[j..])
    ensures Parse(Flat(before + [wide] + after)) == before + [wide] + after
    ensures var all, at := Flat(before + [item] + after), |Flat(before)| + j;
            at <= |all| && Flat(before + [wide] + after) == all[..at] + mid + all[at..]
  {
    WidenedIsGood(before, item, after, j, mid);
    WidenedFlat(before, item, wide, after, j, mid);
    ParseAgain(before + [wide] + after);
  }

  lemma MiddleFits(items: seq<Item>, before: seq<Item>, item: Item, after: seq<Item>, mid: seq<string>)
    requires items == before + [item] + after && item.Block? && NoEndsFor(Present(items), mid)
    ensures NoEndsFor(Present(before), mid) && NoEnd(mid, item.route)
  {
    PresentAround(before, item, after);
  }

  lemma WidenedFlat(before: seq<Item>, item: Item, wide: Item, after: seq<Item>, j: nat, mid: seq<string>)
    requires item.Block? && wide.Block? && j <= |item.lines| && wide.lines == item.lines[..j] + mid + item.lines[j..]
    ensures var all, at := Flat(before + [item] + after), |Flat(before)| + j;
            at <= |all| && Flat(before + [wide] + after) == all[..at] + mid + all[at..]
  {
    FlatAround(before, item, after);
    FlatAround(before, wide, after);
    var lines, b, a := item.lines, Flat(before), Flat(after);
    InsertedInside(b, lines, a, j, mid);
    assert Flat(before + [item] + after) == b + lines + a;
    assert Flat(before + [wide] + after) == b + (lines[..j] + mid + lines[j..]) + a;
  }

  lemma InsertedInside(before: seq<string>, lines: seq<string>, after: seq<string>, j: nat, mid: seq<string>)
    requires j <= |lines|
    ensures var all := before + lines + after;
            all[..|before| + j] + mid + all[|before| + j..] == before + (lines[..j] + mid + lines[j..]) + after
  {
    var all := before + lines + after;
    assert all[..|before| + j] == before + lines[..j] && all[|before| + j..] == lines[j..] + after;
  }

  lemma WidenedIsGood(before: seq<Item>, item: Item, after: seq<Item>, j: nat, mid: seq<string>)
    requires Good(before + [item] + after) && item.Block? && Whole(item) && 0 < j < |item.lines|
    requires NoEndsFor(Present(before), mid) && NoEnd(mid, item.route)
    ensures Good(before + [Block(item.route, item.lines[..j] + mid + item.lines[j..])] + after)
  {
    var wide := Block(item.route, item.lines[..j] + mid + item.lines[j..]);
    WidenedBlock(item.route, item.lines, j, mid);
    forall r, l | r in Present(before) && l in wide.lines && IsEnd(l, r)
      ensures l in item.lines
    {
      assert l !in mid;
    }
    ReplacedIsGood(before, item, wide, after);
  }

  lemma {:induction false} OutputInside(items: seq<Item>, add: seq<Entry>)
    requires Good(items) && GoodEntries(add) && add != []
    requires forall d :: d in add ==> d.route !in Present(items)
    requires !AtBoundary(items, PlaceIn(Flat(items)).at)
    ensures Present(Parse(Output(items, add))) == Present(items)
    ensures Flat(Parse(Output(items, add))) == Output(items, add)
    ensures forall owned, wanted :: (forall item :: item in items ==> !Obsolete(item, owned, wanted)) ==>
              Keep(Parse(Output(items, add)), owned, wanted) == Parse(Output(items, add))
  {
    var before, item, wide, after := OutputWidens(items, add);
    PresentAround(before, item, after);
    PresentAround(before, wide, after);
    forall owned, wanted | forall x :: x in items ==> !Obsolete(x, owned, wanted)
      ensures Keep(before + [wide] + after, owned, wanted) == before + [wide] + after
    {
      assert item in items;
      KeepAll(before + [wide] + after, owned, wanted);
    }
  }

  lemma MiddleHasNoEnd(items: seq<Item>, add: seq<Entry>, s: Spot, mid: seq<string>)
    requires GoodEntries(add) && DullLines(s.head) && DullLines(s.tail) && mid == s.head + BlockText(add) + s.tail
    requires forall d :: d in add ==> d.route !in Present(items)
    ensures NoEndsFor(Present(items), mid)
  {
    InsertItems(s, add);
    forall r | r in Present(items) ensures r !in Routes(add) {}
  }

  lemma PresentAround(before: seq<Item>, item: Item, after: seq<Item>)
    ensures Present(before + [item] + after) == Present(before) + Names(item) + Present(after)
  {
    PresentSplit(before + [item], after);
    PresentSplit(before, [item]);
    assert Present([item]) == Names(item);
  }

  // ----- the second run

  /** Nothing in the kept items is due to go. */
  ghost predicate Lasting(items: seq<Item>, owned: seq<string>, wanted: seq<string>) {
    forall item :: item in items ==> !Obsolete(item, owned, wanted)
  }

  lemma {:induction false} AbsentNone(desired: seq<Entry>, present: set<string>)
    requires forall d :: d in desired ==> d.route in present
    ensures Absent(desired, present) == []
  {
    if desired != [] {
      assert desired == desired[..|desired| - 1] + [desired[|desired| - 1]];
      AbsentNone(desired[..|desired| - 1], present);
    }
  }

  lemma RoutesOf(desired: seq<Entry>)
    ensures forall r :: r in Routes(desired) <==> exists d :: d in desired && d.route == r
  {
    forall r | r in Routes(desired)
      ensures exists d :: d in desired && d.route == r
    {
      var i :| 0 <= i < |desired| && Routes(desired)[i] == r;
      assert desired[i] in desired;
    }
    forall d | d in desired
      ensures d.route in Routes(desired)
    {
      var i :| 0 <= i < |desired| && desired[i] == d;
      assert Routes(desired)[i] == d.route;
    }
  }

  /** What the platform owns after a run: what it owned and still matters, and what it just wrote. */
  lemma NowOwnedIs(items: seq<Item>, desired: seq<Entry>, managed: seq<string>)
    ensures NoRepeats(NowOwned(items, desired, managed))
    ensures forall r :: r in NowOwned(items, desired, managed) <==>
              || (r in managed && (r in Routes(desired) || r in Present(items)))
              || (r in Routes(desired) && r !in Present(items))
  {
    var add := Absent(desired, Present(items));
    RoutesOf(desired);
    RoutesOf(add);
    DistinctHasNoRepeats(Filter(Distinct(managed), r => r in Routes(desired) || r in Present(items)));
    DistinctHasNoRepeats(StillOwned(items, desired, managed) + Routes(add));
  }

  lemma OwnedStays(items: seq<Item>, desired: seq<Entry>, managed: seq<string>)
    requires NoRepeats(managed) && Absent(desired, Present(items)) == []
    requires forall r :: r in managed ==> r in Routes(desired) || r in Present(items)
    ensures NowOwned(items, desired, managed) == managed
  {
    DistinctOfDistinct(managed);
    FilterAll(managed, r => r in Routes(desired) || r in Present(items));
  }

  /** The items that a second run starts from, and what they hold. */
  lemma SecondItems(items: seq<Item>, desired: seq<Entry>, managed: seq<string>)
    requires Good(items) && GoodEntries(desired) && Lasting(items, managed, Routes(desired))
    requires var add := Absent(desired, Present(items)); add == [] || AtBoundary(items, PlaceIn(Flat(items)).at)
    ensures var add := Absent(desired, Present(items));
            var again := Parse(Output(items, add));
            && Lasting(again, NowOwned(items, desired, managed), Routes(desired))
            && Flat(again) == Output(items, add)
            && forall r :: r in Present(again) <==> r in Present(items) || r in Routes(add)
  {
    var add := Absent(desired, Present(items));
    ParseIsFaithful(Output(items, add));
    NowOwnedIs(items, desired, managed);
    RoutesOf(desired);
    if add == [] {
      ParseAgain(items);
    } else {
      var s := PlaceIn(Flat(items));
      var front, back := OutputBetween(items, add);
      SpotIsDull(Flat(items));
      InsertItems(s, add);
      PresentSplit(front, back);
      PresentSplit(front + Inserts(s, add), back);
      PresentSplit(front, Inserts(s, add));
      RoutesOf(add);
      forall item | item in front + Inserts(s, add) + back
        ensures !Obsolete(item, NowOwned(items, desired, managed), Routes(desired))
      {
        if item in Inserts(s, add) {
          PresentIs(Inserts(s, add), item);
        } else {
          assert item in items;
        }
      }
    }
  }

  /** On items: a second run is quiet if it has nothing to add or adds between items. */
  lemma QuietAgain(items: seq<Item>, desired: seq<Entry>, managed: seq<string>)
    requires Good(items) && GoodEntries(desired) && Lasting(items, managed, Routes(desired))
    requires var add := Absent(desired, Present(items)); add == [] || AtBoundary(items, PlaceIn(Flat(items)).at)
    ensures var out := Output(items, Absent(desired, Present(items)));
            var owned := NowOwned(items, desired, managed);
            var again := Keep(Parse(out), owned, Routes(desired));
            && Absent(desired, Present(again)) == [] && Output(again, []) == out
            && NowOwned(again, desired, owned) == owned
  {
    var add := Absent(desired, Present(items));
    var owned := NowOwned(items, desired, managed);
    var again := Parse(Output(items, add));
    SecondItems(items, desired, managed);
    KeepAll(again, owned, Routes(desired));
    RoutesOf(add);
    forall d | d in desired
      ensures d.route in Present(again)
    {
      assert d.route in Present(items) || d in add;
    }
    AbsentNone(desired, Present(again));
    NowOwnedIs(items, desired, managed);
    OwnedStays(again, desired, owned);
  }

  /** On items: if blocks went inside a block, a second run does not see them and adds them again. */
  lemma LoudAgain(items: seq<Item>, desired: seq<Entry>, managed: seq<string>)
    requires Good(items) && GoodEntries(desired) && Lasting(items, managed, Routes(desired))
    requires var add := Absent(desired, Present(items)); add != [] && !AtBoundary(items, PlaceIn(Flat(items)).at)
    ensures var add := Absent(desired, Present(items));
            var out := Output(items, add);
            var again := Keep(Parse(out), NowOwned(items, desired, managed), Routes(desired));
            Absent(desired, Present(again)) == add && |Output(again, add)| > |out|
  {
    var add := Absent(desired, Present(items));
    var out := Output(items, add);
    OutputInside(items, add);
    NowOwnedIs(items, desired, managed);
    assert Lasting(items, NowOwned(items, desired, managed), Routes(desired)) by {
      forall item | item in items && item.Block?
        ensures item.route in Present(items)
      {
        PresentIs(items, item);
      }
    }
    var again := Keep(Parse(out), NowOwned(items, desired, managed), Routes(desired));
    assert again == Parse(out) && Flat(again) == out;
    BlockTextGrows(add);
  }

  lemma BlockTextGrows(add: seq<Entry>)
    requires add != []
    ensures |BlockText(add)| >= 4
  {}

  // ----- enabling and disabling again

  lemma {:induction false} AbsentSplit(a: seq<Entry>, b: seq<Entry>, present: set<string>)
    ensures Absent(a + b, present) == Absent(a, present) + Absent(b, present)
  {
    if b == [] {
      assert a + b == a;
    } else {
      assert (a + b)[..|a + b| - 1] == a + b[..|b| - 1];
      AbsentSplit(a, b[..|b| - 1], present);
    }
  }

  lemma BlockTextSnoc(add: seq<Entry>, d: Entry)
    ensures BlockText(add + [d]) == BlockText(add) + BlockLines(d)
  {
    assert (add + [d])[..|add + [d]| - 1] == add;
  }

  lemma {:induction false} BlockTextSplit(a: seq<Entry>, b: seq<Entry>)
    ensures BlockText(a + b) == BlockText(a) + BlockText(b)
  {
    if b == [] {
      assert a + b == a;
    } else {
      var init, last := b[..|b| - 1], b[|b| - 1];
      assert b == init + [last] && a + b == (a + init) + [last];
      BlockTextSplit(a, init);
      BlockTextSnoc(a + init, last);
      BlockTextSnoc(init, last);
    }
  }

  lemma {:induction false} KeepNone(items: seq<Item>, owned: seq<string>, wanted: seq<string>)
    requires forall item :: item in items ==> Obsolete(item, owned, wanted)
    ensures Keep(items, owned, wanted) == []
  {
    if items != [] {
      assert items == [items[0]] + items[1..];
      KeepNone(items[1..], owned, wanted);
    }
  }

  lemma {:induction false} KeepSame(items: seq<Item>, owned: seq<string>, wanted: seq<string>, others: seq<string>)
    requires forall r :: r in owned ==> (r in wanted <==> r in others)
    ensures Keep(items, owned, wanted) == Keep(items, owned, others)
  {
    if items != [] {
      KeepSame(items[1..], owned, wanted, others);
    }
  }

  /** The routes of `extra` are new: neither wanted so far nor owned. */
  ghost predicate NewRoutes(extra: seq<Entry>, desired: seq<Entry>, managed: seq<string>) {
    forall d :: d in extra ==> d.route !in Routes(desired) && d.route !in managed
  }

  /** After enabling, the platform owns exactly the new blocks and what it kept. */
  lemma OwnedAfterEnabling(items: seq<Item>, desired: seq<Entry>, extra: seq<Entry>, managed: seq<string>)
    requires Lasting(items, managed, Routes(desired)) && NewRoutes(extra, desired, managed)
    ensures Lasting(items, NowOwned(items, desired + extra, managed), Routes(desired))
    ensures forall d :: d in Absent(extra, Present(items)) ==>
              d.route in NowOwned(items, desired + extra, managed) && d.route !in Routes(desired)
  {
    NowOwnedIs(items, desired + extra, managed);
    RoutesOf(desired + extra);
    RoutesOf(desired);
    forall item | item in items && item.Block?
      ensures item.route in Present(items)
    {
      PresentIs(items, item);
    }
    forall d | d in Absent(extra, Present(items))
      ensures d.route in Routes(desired + extra)
    {
      assert d in desired + extra;
    }
  }

  /** Of the inserted items, disabling keeps all but the blocks of the extra routes. */
  lemma KeepInserts(s: Spot, due: seq<Entry>, extra: seq<Entry>, owned: seq<string>, wanted: seq<string>)
    requires forall d :: d in due ==> d.route in wanted
    requires forall d :: d in extra ==> d.route in owned && d.route !in wanted
    ensures Keep(Inserts(s, due + extra), owned, wanted) == Inserts(s, due)
  {
    KeepSplit(Plains(s.head) + Blocks(due + extra), Plains(s.tail), owned, wanted);
    KeepSplit(Plains(s.head), Blocks(due + extra), owned, wanted);
    KeepAll(Plains(s.head), owned, wanted);
    KeepAll(Plains(s.tail), owned, wanted);
    KeepBlocks(due, extra, owned, wanted);
  }

  lemma KeepBlocks(due: seq<Entry>, extra: seq<Entry>, owned: seq<string>, wanted: seq<string>)
    requires forall d :: d in due ==> d.route in wanted
    requires forall d :: d in extra ==> d.route in owned && d.route !in wanted
    ensures Keep(Blocks(due + extra), owned, wanted) == Blocks(due)
  {
    assert Blocks(due + extra) == Blocks(due) + Blocks(extra);
    KeepSplit(Blocks(due), Blocks(extra), owned, wanted);
    forall item | item in Blocks(due) ensures !Obsolete(item, owned, wanted) {
      var i :| 0 <= i < |due| && Blocks(due)[i] == item;
      assert due[i] in due;
    }
    forall item | item in Blocks(extra) ensures Obsolete(item, owned, wanted) {
      var i :| 0 <= i < |extra| && Blocks(extra)[i] == item;
      assert extra[i] in extra;
    }
    KeepAll(Blocks(due), owned, wanted);
    KeepNone(Blocks(extra), owned, wanted);
  }

  lemma KeepAround(front: seq<Item>, ins: seq<Item>, back: seq<Item>, owned: seq<string>, wanted: seq<string>)
    requires Lasting(front + back, owned, wanted)
    ensures Keep(front + ins + back, owned, wanted) == front + Keep(ins, owned, wanted) + back
  {
    KeepSplit(front + ins, back, owned, wanted);
    KeepSplit(front, ins, owned, wanted);
    forall item | item in front || item in back
      ensures !Obsolete(item, owned, wanted)
    {
      assert item in front + back;
    }
    KeepAll(front, owned, wanted);
    KeepAll(back, owned, wanted);
  }

  /** What disabling leaves when the blocks stood between items. */
  lemma DisabledBetween(items: seq<Item>, desired: seq<Entry>, extra: seq<Entry>, managed: seq<string>)
    requires Good(items) && GoodEntries(desired) && GoodEntries(extra)
    requires Lasting(items, managed, Routes(desired)) && NewRoutes(extra, desired, managed)
    requires Absent(desired + extra, Present(items)) != [] && AtBoundary(items, PlaceIn(Flat(items)).at)
    ensures var out := Output(items, Absent(desired + extra, Present(items)));
            var left := Keep(Parse(out), NowOwned(items, desired + extra, managed), Routes(desired));
            && Absent(desired, Present(left)) == []
            && Flat(left) == Inserted(Flat(items), PlaceIn(Flat(items)), BlockText(Absent(desired, Present(items))))
  {
    var due, added := Absent(desired, Present(items)), Absent(extra, Present(items));
    var s, owned := PlaceIn(Flat(items)), NowOwned(items, desired + extra, managed);
    AbsentSplit(desired, extra, Present(items));
    OwnedAfterEnabling(items, desired, extra, managed);
    var front, back := OutputBetween(items, due + added);
    KeepAround(front, Inserts(s, due + added), back, owned, Routes(desired));
    RoutesOf(desired);
    KeepInserts(s, due, added, owned, Routes(desired));
    LeftBetween(items, front, back, s, desired);
  }

  lemma LeftBetween(items: seq<Item>, front: seq<Item>, back: seq<Item>, s: Spot, desired: seq<Entry>)
    requires items == front + back && s == PlaceIn(Flat(items)) && |Flat(front)| == s.at && GoodEntries(desired)
    ensures var due := Absent(desired, Present(items)); var left := front + Inserts(s, due) + back;
            Absent(desired, Present(left)) == [] && Flat(left) == Inserted(Flat(items), s, BlockText(due))
  {
    var due := Absent(desired, Present(items));
    SpotIsDull(Flat(items));
    InsertItems(s, due);
    FlatSplit(front, back);
    FlatSplit(front + Inserts(s, due), back);
    FlatSplit(front, Inserts(s, due));
    assert Flat(items)[..s.at] == Flat(front) && Flat(items)[s.at..] == Flat(back);
    PresentSplit(front, back);
    PresentSplit(front + Inserts(s, due), back);
    PresentSplit(front, Inserts(s, due));
    RoutesOf(due);
    AbsentNone(desired, Present(front + Inserts(s, due) + back));
  }

  lemma OutputLength(items: seq<Item>, add: seq<Entry>)
    ensures add != [] ==> |Output(items, add)| >= |Flat(items)| + 4
    ensures add != [] ==>
              |Output(items, add)|
              == |Flat(items)| + |PlaceIn(Flat(items)).head| + |BlockText(add)| + |PlaceIn(Flat(items)).tail|
  {
    if add != [] {
      BlockTextGrows(add);
    }
  }

  /** Blocks that stood inside a block are not found again: what disabling leaves is longer. */
  lemma DisabledInside(items: seq<Item>, desired: seq<Entry>, extra: seq<Entry>, managed: seq<string>)
    requires Good(items) && GoodEntries(desired) && GoodEntries(extra)
    requires Lasting(items, managed, Routes(desired)) && NewRoutes(extra, desired, managed)
    requires Absent(desired + extra, Present(items)) != [] && !AtBoundary(items, PlaceIn(Flat(items)).at)
    ensures var out := Output(items, Absent(desired + extra, Present(items)));
            var left := Keep(Parse(out), NowOwned(items, desired + extra, managed), Routes(desired));
            && |Output(left, Absent(desired, Present(left)))| > |Output(items, Absent(desired, Present(items)))|
            && |Output(left, Absent(desired, Present(left)))| >= 2
  {
    var due, added := Absent(desired, Present(items)), Absent(extra, Present(items));
    AbsentSplit(desired, extra, Present(items));
    OwnedAfterEnabling(items, desired, extra, managed);
    OutputInside(items, due + added);
    InsideGrows(items, Parse(Output(items, due + added)), due, added);
  }

  lemma InsideGrows(items: seq<Item>, again: seq<Item>, due: seq<Entry>, added: seq<Entry>)
    requires due + added != [] && Flat(again) == Output(items, due + added)
    ensures |Output(again, due)| > |Output(items, due)| && |Output(again, due)| >= 2
  {
    BlockTextSplit(due, added);
    OutputLength(items, due + added);
    OutputLength(items, due);
    OutputLength(again, due);
  }

  lemma UndoneNothing(items: seq<Item>, desired: seq<Entry>, extra: seq<Entry>, managed: seq<string>)
    requires Good(items) && Lasting(items, managed, Routes(desired)) && NewRoutes(extra, desired, managed)
    requires Absent(desired + extra, Present(items)) == []
    ensures Absent(desired, Present(items)) == []
    ensures Keep(Parse(Output(items, [])), NowOwned(items, desired + extra, managed), Routes(desired)) == items
  {
    AbsentSplit(desired, extra, Present(items));
    ParseAgain(items);
    OwnedAfterEnabling(items, desired, extra, managed);
    KeepAll(items, NowOwned(items, desired + extra, managed), Routes(desired));
  }

  lemma InsertedNothing(kept: seq<string>)
    ensures PlaceIn(kept).head == [] ==> Inserted(kept, PlaceIn(kept), []) == kept
    ensures PlaceIn(kept).head != [] ==>
              |Inserted(kept, PlaceIn(kept), [])| > |kept| && |Inserted(kept, PlaceIn(kept), [])| >= 2
  {}

  /**
   On items: disabling undoes enabling exactly when it added nothing, or added between items under a
   `providers:` that stays.
   */
  lemma UndoneItems(items: seq<Item>, desired: seq<Entry>, extra: seq<Entry>, managed: seq<string>)
    requires Good(items) && GoodEntries(desired) && GoodEntries(extra)
    requires Lasting(items, managed, Routes(desired)) && NewRoutes(extra, desired, managed)
    ensures var place := PlaceIn(Flat(items));
            var direct := Output(items, Absent(desired, Present(items)));
            var out := Output(items, Absent(desired + extra, Present(items)));
            var left := Keep(Parse(out), NowOwned(items, desired + extra, managed), Routes(desired));
            var undone := Output(left, Absent(desired, Present(left)));
            if Absent(desired + extra, Present(items)) == []
               || (AtBoundary(items, place.at) && (place.head == [] || Absent(desired, Present(items)) != []))
            then undone == direct else |undone| > |direct| && |undone| >= 2
  {
    if Absent(desired + extra, Present(items)) == [] {
      UndoneNothing(items, desired, extra, managed);
    } else if AtBoundary(items, PlaceIn(Flat(items)).at) {
      DisabledBetween(items, desired, extra, managed);
      InsertedNothing(Flat(items));
    } else {
      DisabledInside(items, desired, extra, managed);
    }
  }

  // ----- from lines to text

  lemma TextOfLines(lines: seq<string>)
    requires AreLines(lines)
    ensures Lines(Join(lines)) == if lines == [""] then [] else lines
  {
    if |lines| >= 2 {
      assert '\n' in Join(lines);
    }
    if lines != [] {
      SplitJoin(lines);
    }
  }

  lemma LinesAreLines(text: string)
    ensures AreLines(Lines(text)) && Join(Lines(text)) == text
  {
    SplitGivesLines(text);
    JoinSplit(text);
  }

  lemma {:induction false} BlockTextLines(add: seq<Entry>)
    requires GoodEntries(add)
    ensures AreLines(BlockText(add))
  {
    if add != [] {
      assert add == add[..|add| - 1] + [add[|add| - 1]];
      BlockTextLines(add[..|add| - 1]);
      BlockLinesAreLines(add[|add| - 1]);
    }
  }

  lemma BlockLinesAreLines(d: Entry)
    requires GoodEntry(d)
    ensures AreLines(BlockLines(d))
  {
    assert IsLine(d.route) by {
      assert forall i :: 0 <= i < |d.route| ==> !Space(d.route[i]);
    }
    if d.models.Some? {
      forall i | 0 <= i < |d.models.value|
        ensures IsLine(ModelLines(d.models.value)[i])
      {
        assert d.models.value[i] in d.models.value;
      }
    }
  }

  lemma OutputIsLines(items: seq<Item>, add: seq<Entry>)
    requires AreLines(Flat(items)) && GoodEntries(add)
    ensures AreLines(Output(items, add))
  {
    BlockTextLines(add);
    HeadsAreLines(Flat(items));
    InsertedIsLines(Flat(items), PlaceIn(Flat(items)), BlockText(add));
  }

  lemma InsertedIsLines(kept: seq<string>, s: Spot, blocks: seq<string>)
    requires s.at <= |kept| && AreLines(kept) && AreLines(s.head) && AreLines(blocks) && AreLines(s.tail)
    ensures AreLines(Inserted(kept, s, blocks))
  {
    forall l | l in Inserted(kept, s, blocks)
      ensures l in kept || l in s.head || l in blocks || l in s.tail
    {}
  }

  lemma HeadsAreLines(kept: seq<string>)
    ensures AreLines(PlaceIn(kept).head) && AreLines(PlaceIn(kept).tail)
  {
    forall l | l in PlaceIn(kept).head || l in PlaceIn(kept).tail
      ensures l == NAMESPACE || l == PROVIDERS || l == ""
    {}
  }

  /** The items a run keeps: well formed, lasting, and made of lines of the text. */
  lemma KeptFacts(text: string, desired: seq<Entry>, managed: seq<string>)
    ensures var items := KeptItems(text, desired, managed);
            Good(items) && Lasting(items, managed, Routes(desired)) && AreLines(Flat(items))
  {
    LinesAreLines(text);
    ParseIsFaithful(Lines(text));
    KeepIsGood(Parse(Lines(text)), managed, Routes(desired));
    KeepTakes(Parse(Lines(text)), managed, Routes(desired));
  }

  lemma DifferentTexts(a: seq<string>, b: seq<string>)
    requires AreLines(a) && AreLines(b) && |a| > |b| && |a| >= 2
    ensures Join(a) != Join(b)
  {
    TextOfLines(a);
    TextOfLines(b);
  }

  lemma {:induction false} AbsentFromNothing(desired: seq<Entry>)
    ensures Absent(desired, {}) == desired
  {
    if desired != [] {
      var init, last := desired[..|desired| - 1], desired[|desired| - 1];
      AbsentFromNothing(init);
      LastOff(desired);
    }
  }

  /** A run whose result is the single empty line had nothing wanted. */
  lemma EmptyResult(items: seq<Item>, desired: seq<Entry>)
    requires Good(items) && Output(items, Absent(desired, Present(items))) == [""]
    ensures desired == [] && Present(items) == {}
  {
    OutputLength(items, Absent(desired, Present(items)));
    ParseAgain(items);
    HeadsAreDull();
    DullLine("");
    assert [""][1..] == [];
    HeadParses(Plain(""), []);
    assert LinesOf(Plain("")) + [] == [""];
    assert items == [Plain("")];
    AbsentFromNothing(desired);
  }

  // ----- what a written block says

  /** The first value a field has among the lines of a block. */
  function ReadField(lines: seq<string>, prefix: string): Option<string> {
    if lines == [] then None
    else if prefix <= lines[0] then Some(lines[0][|prefix|..])
    else ReadField(lines[1..], prefix)
  }

  function ReadIds(lines: seq<string>): seq<string> {
    if lines == [] then []
    else
      var last := lines[|lines| - 1];
      ReadIds(lines[..|lines| - 1]) + if ID_FIELD <= last then [last[|ID_FIELD|..]] else []
  }

  const KEY_FIELD := "      apiKeyEnv: "
  const URL_FIELD := "      baseURL: "
  const API_FIELD := "      api: "
  const ID_FIELD := "        - id: "

  lemma {:induction false} ReadFieldSkips(before: seq<string>, after: seq<string>, prefix: string)
    requires Foreign(before, prefix)
    ensures ReadField(before + after, prefix) == ReadField(after, prefix)
  {
    if before == [] {
      assert before + after == after;
    } else {
      assert (before + after)[0] == before[0] && (before + after)[1..] == before[1..] + after;
      ReadFieldSkips(before[1..], after, prefix);
    }
  }

  lemma ReadFieldHere(prefix: string, value: string, after: seq<string>)
    ensures ReadField([prefix + value] + after, prefix) == Some(value)
  {}

  lemma {:induction false} ReadIdsSplit(a: seq<string>, b: seq<string>)
    ensures ReadIds(a + b) == ReadIds(a) + ReadIds(b)
  {
    if b == [] {
      assert a + b == a;
    } else {
      assert (a + b)[..|a + b| - 1] == a + b[..|b| - 1];
      ReadIdsSplit(a, b[..|b| - 1]);
    }
  }

  lemma {:induction false} ReadIdsNone(lines: seq<string>)
    requires Foreign(lines, ID_FIELD)
    ensures ReadIds(lines) == []
  {
    if lines != [] {
      LastOff(lines);
      ReadIdsNone(lines[..|lines| - 1]);
    }
  }

  lemma {:induction false} ReadIdsModels(models: seq<string>)
    ensures ReadIds(ModelLines(models)) == models
  {
    if models != [] {
      var init, last := models[..|models| - 1], models[|models| - 1];
      ReadIdsModels(init);
      var lines := ModelLines(models);
      assert lines[..|lines| - 1] == ModelLines(init) && lines[|lines| - 1] == ID_FIELD + last;
    }
  }

  /** The parts of a block, in order. */
  function Header(d: Entry): seq<string> {
    [MarkBegin(d.route), "    " + (d.route + ":")]
  }

  function UrlLine(d: Entry): seq<string> {
    if d.baseUrl.Some? && d.baseUrl.value != "" then [URL_FIELD + d.baseUrl.value] else []
  }

  function ApiLine(d: Entry): seq<string> {
    if d.api.Some? then [API_FIELD + d.api.value] else []
  }

  function ModelPart(d: Entry): seq<string> {
    if d.models.Some? && d.models.value != [] then ["      models:"] + ModelLines(d.models.value) else []
  }

  lemma BlockParts(d: Entry)
    ensures BlockLines(d) == Header(d)
            + ([KEY_FIELD + d.apiKeyEnv] + (UrlLine(d) + (ApiLine(d) + (ModelPart(d) + [MarkEnd(d.route)]))))
  {
    PartsInOrder(MarkBegin(d.route), "    " + (d.route + ":"), KEY_FIELD + d.apiKeyEnv, UrlLine(d), ApiLine(d),
                 ModelPart(d), MarkEnd(d.route));
  }

  lemma PartsInOrder(begin: string, head: string, key: string, url: seq<string>, api: seq<string>,
                     models: seq<string>, end: string)
    ensures [begin] + ([head, key] + url + api + models) + [end]
            == [begin, head] + ([key] + (url + (api + (models + [end]))))
  {}

  /** No line starts with a field's prefix that was written for something else. */
  predicate Foreign(lines: seq<string>, prefix: string) {
    forall i :: 0 <= i < |lines| ==> !(prefix <= lines[i])
  }

  lemma HeaderIsForeign(d: Entry, prefix: string)
    requires GoodRoute(d.route) && |prefix| > 4 && prefix[4] == ' '
    ensures Foreign(Header(d), prefix) && Foreign([MarkEnd(d.route)], prefix)
  {
    assert MarkBegin(d.route)[4] == '#' && MarkEnd(d.route)[4] == '#' && ("    " + (d.route + ":"))[4] == d.route[0];
  }

  lemma ModelsAreForeign(d: Entry, prefix: string)
    requires |prefix| > 6 && (prefix[6] == 'a' || prefix[6] == 'b')
    ensures Foreign(ModelPart(d), prefix)
  {
    if d.models.Some? && d.models.value != [] {
      var part := ModelPart(d);
      forall i | 0 <= i < |part|
        ensures part[i][6] == 'm' || part[i][6] == ' '
      {
        if i > 0 {
          assert part[i] == ModelLines(d.models.value)[i - 1];
        }
      }
    }
  }

  /** No field starts like another. */
  lemma FieldsDiffer(value: string)
    ensures !(URL_FIELD <= KEY_FIELD + value) && !(API_FIELD <= KEY_FIELD + value)
    ensures !(API_FIELD <= URL_FIELD + value) && !(URL_FIELD <= API_FIELD + value)
  {
    assert (KEY_FIELD + value)[6] == 'a' && (KEY_FIELD + value)[9] == 'K' && (URL_FIELD + value)[6] == 'b' &&
      (API_FIELD + value)[6] == 'a';
    assert URL_FIELD[6] == 'b' && API_FIELD[6] == 'a' && API_FIELD[9] == ':';
  }

  lemma KeyReadsBack(d: Entry)
    requires GoodRoute(d.route)
    ensures ReadField(BlockLines(d), KEY_FIELD) == Some(d.apiKeyEnv)
  {
    BlockParts(d);
    HeaderIsForeign(d, KEY_FIELD);
    var rest := UrlLine(d) + (ApiLine(d) + (ModelPart(d) + [MarkEnd(d.route)]));
    ReadFieldSkips(Header(d), [KEY_FIELD + d.apiKeyEnv] + rest, KEY_FIELD);
    ReadFieldHere(KEY_FIELD, d.apiKeyEnv, rest);
  }

  lemma EndReadsNothing(d: Entry, prefix: string)
    requires GoodRoute(d.route) && |prefix| > 6 && prefix[4] == ' ' && (prefix[6] == 'a' || prefix[6] == 'b')
    ensures ReadField(ModelPart(d) + [MarkEnd(d.route)], prefix) == None
  {
    HeaderIsForeign(d, prefix);
    ModelsAreForeign(d, prefix);
    ReadFieldSkips(ModelPart(d), [MarkEnd(d.route)], prefix);
    ReadFieldSkips([MarkEnd(d.route)], [], prefix);
    assert [MarkEnd(d.route)] + [] == [MarkEnd(d.route)];
  }

  lemma UrlReadsBack(d: Entry)
    requires GoodRoute(d.route)
    ensures ReadField(BlockLines(d), URL_FIELD) == if d.baseUrl == Some("") then None else d.baseUrl
  {
    BlockParts(d);
    HeaderIsForeign(d, URL_FIELD);
    var tail := ModelPart(d) + [MarkEnd(d.route)];
    var rest := UrlLine(d) + (ApiLine(d) + tail);
    FieldsDiffer(d.apiKeyEnv);
    if d.api.Some? { FieldsDiffer(d.api.value); }
    ReadFieldSkips(Header(d), [KEY_FIELD + d.apiKeyEnv] + rest, URL_FIELD);
    ReadFieldSkips([KEY_FIELD + d.apiKeyEnv], rest, URL_FIELD);
    if UrlLine(d) != [] {
      ReadFieldHere(URL_FIELD, d.baseUrl.value, ApiLine(d) + tail);
    } else {
      assert rest == ApiLine(d) + tail;
      ReadFieldSkips(ApiLine(d), tail, URL_FIELD);
      EndReadsNothing(d, URL_FIELD);
    }
  }

  lemma ApiReadsBack(d: Entry)
    requires GoodRoute(d.route)
    ensures ReadField(BlockLines(d), API_FIELD) == d.api
  {
    BlockParts(d);
    HeaderIsForeign(d, API_FIELD);
    var tail := ModelPart(d) + [MarkEnd(d.route)];
    var rest := UrlLine(d) + (ApiLine(d) + tail);
    FieldsDiffer(d.apiKeyEnv);
    if d.baseUrl.Some? { FieldsDiffer(d.baseUrl.value); }
    ReadFieldSkips(Header(d), [KEY_FIELD + d.apiKeyEnv] + rest, API_FIELD);
    ReadFieldSkips([KEY_FIELD + d.apiKeyEnv], rest, API_FIELD);
    ReadFieldSkips(UrlLine(d), ApiLine(d) + tail, API_FIELD);
    if d.api.Some? {
      ReadFieldHere(API_FIELD, d.api.value, tail);
    } else {
      assert ApiLine(d) + tail == tail;
      EndReadsNothing(d, API_FIELD);
    }
  }

  lemma IdsReadBack(d: Entry)
    requires GoodRoute(d.route)
    ensures ReadIds(BlockLines(d)) == if d.models.Some? then d.models.value else []
  {
    BlockParts(d);
    HeaderIsForeign(d, ID_FIELD);
    var front := Header(d) + [KEY_FIELD + d.apiKeyEnv] + UrlLine(d) + ApiLine(d);
    assert BlockLines(d) == front + (ModelPart(d) + [MarkEnd(d.route)]);
    forall i | 0 <= i < |front|
      ensures !(ID_FIELD <= front[i])
    {
      assert i < 2 ==> front[i] == Header(d)[i];
      assert i >= 2 ==> front[i][6] == 'a' || front[i][6] == 'b';
    }
    ReadIdsSplit(front, ModelPart(d) + [MarkEnd(d.route)]);
    ReadIdsSplit(ModelPart(d), [MarkEnd(d.route)]);
    ReadIdsNone(front);
    ReadIdsNone([MarkEnd(d.route)]);
    if ModelPart(d) != [] {
      ReadIdsSplit(["      models:"], ModelLines(d.models.value));
      ReadIdsNone(["      models:"]);
      ReadIdsModels(d.models.value);
    }
  }
}
