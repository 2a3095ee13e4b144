/**
 The texts a heal reads, letter by letter: which package an error names, what counts as a package name,
 which lines of a profile name a package, and which `- id:` lines go with them.
 */
module PluginForm {
  import opened Basics
  import opened ConfigText
  import opened PluginHeal

  // ----- the package an error names

  /** A letter or a digit, by its code. */
  predicate Alnum(c: char) {
    48 <= c as int <= 57 || 65 <= c as int <= 90 || 97 <= c as int <= 122
  }

  /** The text begins with an entry without white space and a package in parentheses. */
  predicate Opens(text: string, entry: string, pkg: string) {
    && entry != "" && (forall c :: c in entry ==> !Space(c)) && pkg != "" && ')' !in pkg
    && entry + " (" + pkg + ")" <= text
  }

  ghost predicate Begins(text: string, pkg: string) {
    exists entry :: Opens(text, entry, pkg)
  }

  /** At this place the error says that an entry of the package failed to load. */
  ghost predicate Reports(error: string, at: nat, pkg: string) {
    && at <= |error| && "failed to import loader entry " <= error[at..]
    && Begins(error[at + 30..], pkg)
  }

  lemma OpensIsHere(text: string, pkg: string)
    requires Begins(text, pkg)
    ensures NamedHere(text) == Some(pkg)
  {
    var entry :| Opens(text, entry, pkg);
    var head := entry + " (" + pkg + ")";
    var after := text[|head|..];
    assert text == head + after;
    NamedAtStart(entry, pkg, after);
    assert text == entry + (" (" + (pkg + (")" + after)));
  }

  lemma {:induction false} WordRunClean(s: string)
    ensures NoneOf(s[..WordRun(s)], Space)
  {
    if s != "" && !Space(s[0]) {
      WordRunClean(s[1..]);
      assert s[..WordRun(s)] == [s[0]] + s[1..][..WordRun(s[1..])];
    }
  }

  lemma {:induction false} OpenRunClean(s: string)
    ensures ')' !in s[..OpenRun(s)]
  {
    if s != "" && s[0] != ')' {
      OpenRunClean(s[1..]);
      assert s[..OpenRun(s)] == [s[0]] + s[1..][..OpenRun(s[1..])];
    }
  }

  lemma HereOpens(text: string)
    requires NamedHere(text).Some?
    ensures Begins(text, NamedHere(text).value)
  {
    var n := WordRun(text);
    var rest := text[n + 2..];
    var m := OpenRun(rest);
    WordRunClean(text);
    OpenRunClean(rest);
    assert text[..n + 2] == text[..n] + " (";
    assert rest[..m + 1] == rest[..m] + ")";
    assert text[..n + 2] + rest[..m + 1] == text[..n + m + 3];
    assert text[..n] + " (" + rest[..m] + ")" == text[..n + 2] + rest[..m + 1];
    assert Opens(text, text[..n], rest[..m]);
  }

  lemma ReportsExactly(error: string, at: nat, pkg: string)
    requires at <= |error|
    ensures Reports(error, at, pkg)
            <==> MARK <= error[at..] && NamedHere(error[at..][|MARK|..]) == Some(pkg)
  {
    if MARK <= error[at..] {
      assert |MARK| == 30 && error[at..][30..] == error[at + 30..];
      if NamedHere(error[at + 30..]) == Some(pkg) {
        HereOpens(error[at + 30..]);
      }
      if Begins(error[at + 30..], pkg) {
        OpensIsHere(error[at + 30..], pkg);
      }
    }
  }

  /** No place before this one says so of any package. */
  ghost predicate QuietBefore(error: string, at: nat) {
    forall k: nat, pkg :: k < at ==> !Reports(error, k, pkg)
  }

  lemma ReportsLater(error: string, k: nat, pkg: string)
    requires error != ""
    ensures Reports(error, k + 1, pkg) <==> Reports(error[1..], k, pkg)
  {
    if k + 1 <= |error| {
      assert error[1..][k..] == error[k + 1..];
      if "failed to import loader entry " <= error[k + 1..] {
        assert error[1..][k + 30..] == error[k + 31..];
      }
    }
  }

  /** The error names the package of the first place that says so. */
  lemma {:induction false} NamedIsFirst(error: string, pkg: string)
    ensures Named(error) == Some(pkg) <==> exists at: nat :: Reports(error, at, pkg) && QuietBefore(error, at)
    decreases |error|
  {
    assert error[0..] == error;
    ReportsExactly(error, 0, pkg);
    if MARK <= error && NamedHere(error[|MARK|..]).Some? {
      ReportsExactly(error, 0, NamedHere(error[|MARK|..]).value);
    } else {
      forall p ensures !Reports(error, 0, p) { ReportsExactly(error, 0, p); }
      if error != "" {
        NamedIsFirst(error[1..], pkg);
        FirstLater(error, pkg);
      }
    }
  }

  lemma FirstLater(error: string, pkg: string)
    requires error != "" && forall p :: !Reports(error, 0, p)
    ensures (exists at: nat :: Reports(error, at, pkg) && QuietBefore(error, at))
            <==> exists at: nat :: Reports(error[1..], at, pkg) && QuietBefore(error[1..], at)
  {
    forall k: nat, p ensures Reports(error, k + 1, p) <==> Reports(error[1..], k, p) { ReportsLater(error, k, p); }
    if at: nat :| Reports(error, at, pkg) && QuietBefore(error, at) {
      assert at > 0 && Reports(error[1..], at - 1, pkg);
      forall k: nat, p | k < at - 1 ensures !Reports(error[1..], k, p) { assert !Reports(error, k + 1, p); }
    }
    if at: nat :| Reports(error[1..], at, pkg) && QuietBefore(error[1..], at) {
      assert Reports(error, at + 1, pkg);
      forall k: nat, p | k < at + 1 ensures !Reports(error, k, p) {
        if k > 0 { assert !Reports(error[1..], k - 1, p); ReportsLater(error, k - 1, p); }
      }
    }
  }

  predicate Plain(s: string) {
    s != "" && Alnum(s[0]) && forall i :: 0 <= i < |s| ==> Alnum(s[i]) || s[i] in "._-"
  }

  lemma PlainIs(s: string)
    ensures NamePart(s) <==> Plain(s)
  {
    forall c ensures NameTail(c) <==> Alnum(c) || c in "._-" {}
  }

  lemma ScopeIs(s: string)
    ensures PackageName(s)
            <==> Plain(s) || exists scope, name :: Plain(scope) && Plain(name) && s == "@" + scope + "/" + name
  {
    PlainIs(s);
    if s != "" && s[0] == '@' {
      if k :| 1 <= k < |s| && s[k] == '/' && NamePart(s[1..k]) && NamePart(s[k + 1..]) {
        PlainIs(s[1..k]);
        PlainIs(s[k + 1..]);
        assert s == "@" + s[1..k] + "/" + s[k + 1..];
      }
    }
    if scope, name :| Plain(scope) && Plain(name) && s == "@" + scope + "/" + name {
      PlainIs(scope);
      PlainIs(name);
      var k := 1 + |scope|;
      assert s[1..k] == scope && s[k + 1..] == name && s[k] == '/';
    }
  }

  /**
   A crash blames a package exactly if the first place of its error that reports a failed entry names it, and the
   name is that of a package, with a scope or without.
   */
  lemma CulpritExactly(error: string, pkg: string)
    ensures Culprit(error) == Some(pkg)
            <==> && (exists at: nat :: Reports(error, at, pkg) && QuietBefore(error, at))
                 && (Plain(pkg)
                     || exists scope, name :: Plain(scope) && Plain(name) && pkg == "@" + scope + "/" + name)
  {
    NamedIsFirst(error, pkg);
    ScopeIs(pkg);
  }

  // ----- the lines of a profile

  /** Padding, the package with or without quotes after `name: `, padding. */
  predicate NamesAs(line: string, pkg: string, quote: string, before: string, after: string) {
    && AllOf(before, Space) && AllOf(after, Space) && quote in ["\"", "'", ""]
    && (quote == "" ==> pkg != "" && !Space(pkg[|pkg| - 1]))
    && line == before + ("name: " + quote + pkg + quote) + after
  }

  lemma TrimOf(before: string, text: string, after: string)
    requires AllOf(before, Space) && AllOf(after, Space) && text != "" && !Space(text[0]) && !Space(text[|text| - 1])
    ensures Trim(before + text + after) == text
  {
    assert before + text + after == before + (text + after) && (text + after)[0] == text[0];
    DropLeftPadding(before, text + after, Space);
    DropRightPadding(text, after, Space);
  }

  lemma TrimCuts(line: string) returns (before: string, after: string)
    ensures AllOf(before, Space) && AllOf(after, Space) && line == before + Trim(line) + after
    ensures Trim(line) != "" ==> !Space(Trim(line)[|Trim(line)| - 1])
  {
    before := DropLeftCuts(line, Space);
    after := DropRightCuts(DropLeft(line, Space), Space);
  }

  /** Which lines name the package. */
  lemma NamesExactly(line: string, pkg: string)
    ensures Names(line, pkg) <==> exists quote, before, after :: NamesAs(line, pkg, quote, before, after)
  {
    if Names(line, pkg) {
      var before, after := TrimCuts(line);
      var t := Trim(line);
      if t == "name: \"" + pkg + "\"" {
        assert "name: " + "\"" + pkg + "\"" == t;
        assert NamesAs(line, pkg, "\"", before, after);
      } else if t == "name: '" + pkg + "'" {
        assert "name: " + "'" + pkg + "'" == t;
        assert NamesAs(line, pkg, "'", before, after);
      } else {
        assert "name: " + "" + pkg + "" == t;
        assert t[|t| - 1] == if pkg == "" then ' ' else pkg[|pkg| - 1];
        assert NamesAs(line, pkg, "", before, after);
      }
    }
    if quote, before, after :| NamesAs(line, pkg, quote, before, after) {
      var t := "name: " + quote + pkg + quote;
      TrimOf(before, t, after);
      assert t == if quote == "\"" then "name: \"" + pkg + "\""
                  else if quote == "'" then "name: '" + pkg + "'" else "name: " + pkg;
    }
  }

  predicate IdAs(line: string, before: string, between: string, rest: string) {
    AllOf(before, Space) && AllOf(between, Space) && line == before + ("-" + (between + ("id:" + rest)))
  }

  /** Which lines begin an entry: a dash and `id:`, with any white space before and between. */
  lemma IdLineExactly(line: string)
    ensures IdLine(line) <==> exists before, between, rest :: IdAs(line, before, between, rest)
  {
    if IdLine(line) {
      var before := DropLeftCuts(line, Space);
      var t := DropLeft(line, Space);
      var between := DropLeftCuts(t[1..], Space);
      var u := DropLeft(t[1..], Space);
      assert u == "id:" + u[3..] && t == "-" + t[1..];
      assert IdAs(line, before, between, u[3..]);
    }
    if before, between, rest :| IdAs(line, before, between, rest) {
      var t := "-" + (between + ("id:" + rest));
      DropLeftPadding(before, t, Space);
      assert t[1..] == between + ("id:" + rest);
      DropLeftPadding(between, "id:" + rest, Space);
    }
  }

  // ----- which lines go

  lemma {:induction false} PatchedFold(a: seq<string>, b: seq<string>, more: seq<string>, pkg: string)
    requires Patched(a, pkg) == Patched(b, pkg)
    ensures Patched(a + more, pkg) == Patched(b + more, pkg)
  {
    if more == [] {
      assert a + more == a && b + more == b;
    } else {
      var init, last := more[..|more| - 1], more[|more| - 1];
      PatchedFold(a, b, init, pkg);
      assert (a + more)[..|a + more| - 1] == a + init && (b + more)[..|b + more| - 1] == b + init;
    }
  }

  lemma PatchedSnoc(lines: seq<string>, line: string, pkg: string)
    ensures Patched(lines + [line], pkg) == WithLine(Patched(lines, pkg), line, pkg)
  {
    assert (lines + [line])[..|lines + [line]| - 1] == lines;
  }

  /**
   A line that names the package goes, and with it the line before it exactly if that begins an entry. Applied
   to the first such line again and again this leaves nothing open, since a profile without one stays as it is.
   */
  lemma EntryGoes(before: seq<string>, line: string, after: seq<string>, pkg: string)
    requires Names(line, pkg) && forall l :: l in before ==> !Names(l, pkg)
    ensures Patched(before + [line] + after, pkg)
            == Patched((if before != [] && IdLine(before[|before| - 1]) then before[..|before| - 1] else before)
                       + after, pkg)
  {
    var rest := if before != [] && IdLine(before[|before| - 1]) then before[..|before| - 1] else before;
    PatchedKeeps(before, pkg);
    PatchedKeeps(rest, pkg);
    PatchedSnoc(before, line, pkg);
    PatchedFold(before + [line], rest, after, pkg);
  }
}
