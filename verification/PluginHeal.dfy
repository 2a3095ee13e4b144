/**
 What a crash says about a plugin, and taking the plugin out of a profile: the package an error
 names, and the profile's patch without the entries of that package.
 */
module PluginHeal {
  import opened Basics
  import opened ConfigText

  // ----- the package an error names

  const MARK := "failed to import loader entry "

  function WordRun(s: string): (n: nat)
    ensures n <= |s| && (n < |s| ==> Space(s[n]))
  {
    if s == "" || Space(s[0]) then 0 else 1 + WordRun(s[1..])
  }

  function OpenRun(s: string): (n: nat)
    ensures n <= |s| && (n < |s| ==> s[n] == ')')
  {
    if s == "" || s[0] == ')' then 0 else 1 + OpenRun(s[1..])
  }

  /** `\S+ \(([^)]+)\)` at the start of the text; both runs end where the next character says so. */
  function NamedHere(s: string): Option<string> {
    var n := WordRun(s);
    if n == 0 || |s| < n + 2 || s[n] != ' ' || s[n + 1] != '(' then None
    else
      var rest := s[n + 2..];
      var m := OpenRun(rest);
      if m == 0 || m == |rest| then None else Some(rest[..m])
  }

  /** The first place where the whole pattern matches. */
  function Named(error: string): Option<string>
    decreases |error|
  {
    if MARK <= error && NamedHere(error[|MARK|..]).Some? then NamedHere(error[|MARK|..])
    else if error == "" then None
    else Named(error[1..])
  }

  predicate NameHead(c: char) { 'a' <= c <= 'z' || 'A' <= c <= 'Z' || '0' <= c <= '9' }
  predicate NameTail(c: char) { NameHead(c) || c == '.' || c == '_' || c == '-' }

  predicate NamePart(s: string) {
    s != "" && NameHead(s[0]) && AllOf(s, NameTail)
  }

  /** A package name, with a scope or without. */
  predicate PackageName(s: string) {
    || NamePart(s)
    || (s != "" && s[0] == '@' && exists k :: 1 <= k < |s| && s[k] == '/' && NamePart(s[1..k]) && NamePart(s[k + 1..]))
  }

  function Culprit(error: string): Option<string> {
    var pkg := Named(error);
    if pkg.Some? && PackageName(pkg.value) then pkg else None
  }

  lemma {:induction false} WordRunOf(word: string, rest: string)
    requires NoneOf(word, Space) && rest != "" && Space(rest[0])
    ensures WordRun(word + rest) == |word|
  {
    if word == "" {
      assert word + rest == rest;
    } else {
      assert (word + rest)[1..] == word[1..] + rest;
      WordRunOf(word[1..], rest);
    }
  }

  lemma {:induction false} OpenRunOf(name: string, rest: string)
    requires NoneOf(name, c => c == ')') && rest != "" && rest[0] == ')'
    ensures OpenRun(name + rest) == |name|
  {
    if name == "" {
      assert name + rest == rest;
    } else {
      assert (name + rest)[1..] == name[1..] + rest;
      assert forall i :: 0 <= i < |name[1..]| ==> name[1..][i] == name[i + 1];
      OpenRunOf(name[1..], rest);
    }
  }

  lemma NamedAtStart(entry: string, pkg: string, after: string)
    requires entry != "" && NoneOf(entry, Space) && pkg != "" && NoneOf(pkg, c => c == ')')
    ensures NamedHere(entry + (" (" + (pkg + (")" + after)))) == Some(pkg)
  {
    var tail := pkg + (")" + after);
    var s := entry + (" (" + tail);
    WordRunOf(entry, " (" + tail);
    assert s[|entry|] == ' ' && s[|entry| + 1] == '(' && s[|entry| + 2..] == tail;
    OpenRunOf(pkg, ")" + after);
    assert tail[..|pkg|] == pkg;
  }

  /** No earlier place of the text reports a plugin. */
  predicate Quiet(before: string, rest: string) {
    forall k :: 0 <= k < |before| ==> !(MARK <= (before + rest)[k..])
  }

  lemma {:induction false} NamedSkips(before: string, rest: string)
    requires Quiet(before, rest)
    ensures Named(before + rest) == Named(rest)
  {
    if before == "" {
      assert before + rest == rest;
    } else {
      var all := before + rest;
      assert all[0..] == all && all[1..] == before[1..] + rest;
      forall k | 0 <= k < |before| - 1 ensures !(MARK <= (before[1..] + rest)[k..]) {
        assert (before[1..] + rest)[k..] == all[k + 1..];
      }
      NamedSkips(before[1..], rest);
    }
  }

  lemma {:induction false} PackageHasNoParen(pkg: string)
    requires PackageName(pkg)
    ensures pkg != "" && NoneOf(pkg, c => c == ')')
  {
    if !NamePart(pkg) {
      var k :| 1 <= k < |pkg| && pkg[k] == '/' && NamePart(pkg[1..k]) && NamePart(pkg[k + 1..]);
      forall i | 0 <= i < |pkg| ensures pkg[i] != ')' {
        if 1 <= i < k {
          assert pkg[i] == pkg[1..k][i - 1];
        } else if i > k {
          assert pkg[i] == pkg[k + 1..][i - k - 1];
        }
      }
    }
  }

  /** What the loader writes when an entry of a package fails is read back as that package. */
  lemma ReportIsUnderstood(before: string, entry: string, pkg: string, after: string)
    requires entry != "" && NoneOf(entry, Space) && PackageName(pkg)
    requires Quiet(before, MARK + (entry + (" (" + (pkg + (")" + after)))))
    ensures Culprit(before + (MARK + (entry + (" (" + (pkg + (")" + after)))))) == Some(pkg)
  {
    var rest := entry + (" (" + (pkg + (")" + after)));
    PackageHasNoParen(pkg);
    NamedAtStart(entry, pkg, after);
    NamedSkips(before, MARK + rest);
    assert (MARK + rest)[|MARK|..] == rest;
  }

  // ----- the profile's patch

  /** The line names the package, quoted in one way or another. */
  predicate Names(line: string, pkg: string) {
    var t := Trim(line);
    t == "name: \"" + pkg + "\"" || t == "name: '" + pkg + "'" || t == "name: " + pkg
  }

  /** `^\s*-\s*id:` */
  predicate IdLine(line: string) {
    var t := DropLeft(line, Space);
    t != "" && t[0] == '-' && "id:" <= DropLeft(t[1..], Space)
  }

  /** The lines without those naming the package, and without the `- id:` line that then is the last. */
  function Patched(lines: seq<string>, pkg: string): seq<string> {
    if lines == [] then []
    else
      WithLine(Patched(lines[..|lines| - 1], pkg), lines[|lines| - 1], pkg)
  }

  function WithLine(out: seq<string>, line: string, pkg: string): seq<string> {
    if !Names(line, pkg) then out + [line]
    else if out != [] && IdLine(out[|out| - 1]) then out[..|out| - 1]
    else out
  }

  method CleanPatch(lines: seq<string>, pkg: string) returns (out: seq<string>)
    ensures out == Patched(lines, pkg)
  {
    out := [];
    for i := 0 to |lines|
      invariant out == Patched(lines[..i], pkg)
    {
      assert lines[..i + 1][..i] == lines[..i];
      var line := lines[i];
      if Names(line, pkg) {
        if |out| > 0 && IdLine(out[|out| - 1]) { out := out[..|out| - 1]; }
        continue;
      }
      out := out + [line];
    }
    assert lines[..|lines|] == lines;
  }

  function CountNaming(lines: seq<string>, pkg: string): nat {
    if lines == [] then 0 else CountNaming(lines[..|lines| - 1], pkg) + if Names(lines[|lines| - 1], pkg) then 1 else 0
  }

  lemma FilterSnoc(s: seq<string>, x: string, p: string -> bool)
    ensures Filter(s + [x], p) == Filter(s, p) + if p(x) then [x] else []
  {
    assert (s + [x])[..|s + [x]| - 1] == s;
  }

  /** Afterwards every line is an old one, and none names the package. */
  lemma {:induction false} PatchedForgets(lines: seq<string>, pkg: string)
    ensures forall l :: l in Patched(lines, pkg) ==> l in lines && !Names(l, pkg)
  {
    if lines != [] {
      PatchedForgets(lines[..|lines| - 1], pkg);
      assert lines == lines[..|lines| - 1] + [lines[|lines| - 1]];
    }
  }

  /** A line that has nothing to do with an entry of the package. */
  predicate Other(line: string, pkg: string) {
    !Names(line, pkg) && !IdLine(line)
  }

  /** The other lines are all there in their order. */
  lemma {:induction false} PatchedKeepsOthers(lines: seq<string>, pkg: string)
    ensures Filter(Patched(lines, pkg), l => Other(l, pkg)) == Filter(lines, l => Other(l, pkg))
  {
    if lines != [] {
      var init, line := lines[..|lines| - 1], lines[|lines| - 1];
      PatchedKeepsOthers(init, pkg);
      assert lines == init + [line];
      Others(init, line, pkg);
      WithLineKeepsOthers(Patched(init, pkg), line, pkg);
    }
  }

  lemma Others(s: seq<string>, line: string, pkg: string)
    ensures Filter(s + [line], l => Other(l, pkg))
            == Filter(s, l => Other(l, pkg)) + if Other(line, pkg) then [line] else []
  {
    FilterSnoc(s, line, l => Other(l, pkg));
  }

  lemma WithLineKeepsOthers(out: seq<string>, line: string, pkg: string)
    ensures Filter(WithLine(out, line, pkg), l => Other(l, pkg))
            == Filter(out, l => Other(l, pkg)) + if Other(line, pkg) then [line] else []
  {
    Others(out, line, pkg);
    if out != [] {
      assert out == out[..|out| - 1] + [out[|out| - 1]];
      Others(out[..|out| - 1], out[|out| - 1], pkg);
    }
  }

  /** With each line that names the package goes itself and at most one `- id:` line. */
  lemma {:induction false} PatchedCounts(lines: seq<string>, pkg: string)
    ensures |lines| - 2 * CountNaming(lines, pkg) <= |Patched(lines, pkg)| <= |lines| - CountNaming(lines, pkg)
  {
    if lines != [] {
      PatchedCounts(lines[..|lines| - 1], pkg);
    }
  }

  /** A profile that does not mention the package is left as it is. */
  lemma {:induction false} PatchedKeeps(lines: seq<string>, pkg: string)
    requires forall l :: l in lines ==> !Names(l, pkg)
    ensures Patched(lines, pkg) == lines
  {
    if lines != [] {
      assert lines == lines[..|lines| - 1] + [lines[|lines| - 1]];
      PatchedKeeps(lines[..|lines| - 1], pkg);
    }
  }

  /** Healing the same package again changes nothing. */
  lemma PatchedTwice(lines: seq<string>, pkg: string)
    ensures Patched(Patched(lines, pkg), pkg) == Patched(lines, pkg)
  {
    PatchedForgets(lines, pkg);
    PatchedKeeps(Patched(lines, pkg), pkg);
  }
}
