/**
 What the recognisers of the credentials file accept, written as the texts themselves, and where a
 run puts its lines.
 */
module CredentialsForm {
  import opened Basics
  import opened ConfigText
  import opened Credentials

  // ----- the two heads

  /** A line at top level that says `refs:` and nothing else. */
  predicate RefsLine(line: string) {
    (line == "" || (line[0] != ' ' && line[0] != '\t')) && Trim(line) == "refs:"
  }

  /** A line at top level that says `version:` and `1`, blanks between and after them aside. */
  ghost predicate VersionLine(line: string) {
    && (line == "" || (line[0] != ' ' && line[0] != '\t'))
    && exists gap, tail :: AllOf(gap, Blank) && AllOf(tail, Blank) && Trim(line) == "version:" + gap + "1" + tail
  }

  lemma HeadsAre(line: string)
    ensures RefsHead(line) <==> RefsLine(line)
    ensures VersionHead(line) <==> VersionLine(line)
  {
    var t := Trim(line);
    if VersionHead(line) {
      var gap := DropLeftCuts(t[8..], Blank);
      var tail := DropRightCuts(DropLeft(t[8..], Blank), Blank);
      assert t == "version:" + t[8..] && t == "version:" + gap + "1" + tail;
    }
    if VersionLine(line) {
      var gap, tail :| AllOf(gap, Blank) && AllOf(tail, Blank) && t == "version:" + gap + "1" + tail;
      assert t[..8] == "version:" && t[8..] == gap + ("1" + tail);
      DropLeftPadding(gap, "1" + tail, Blank);
      DropRightPadding("1", tail, Blank);
    }
  }

  /** The last line at top level says `refs:`. */
  predicate OpensAt(lines: seq<string>, k: nat) {
    k < |lines| && RefsLine(lines[k]) && forall j :: k < j < |lines| ==> Indented(lines[j])
  }

  /** A line counts as an entry if it is indented, and so is every line since the last `refs:` line. */
  ghost predicate InSection(lines: seq<string>, i: nat) {
    i < |lines| && Indented(lines[i]) && exists k: nat :: OpensAt(lines[..i], k)
  }

  lemma OpensStep(lines: seq<string>, k: nat)
    requires lines != []
    ensures var n := |lines| - 1;
            OpensAt(lines, k) <==> if Indented(lines[n]) then OpensAt(lines[..n], k) else k == n && RefsLine(lines[n])
  {
    var n := |lines| - 1;
    forall j | 0 <= j < n ensures lines[..n][j] == lines[j] {}
    assert OpensAt(lines, k) && k < n ==> Indented(lines[n]);
  }

  lemma {:induction false} InsideIs(lines: seq<string>)
    ensures InsideAfter(lines, false) <==> exists k: nat :: OpensAt(lines, k)
  {
    if lines != [] {
      var n := |lines| - 1;
      InsideIs(lines[..n]);
      HeadsAre(lines[n]);
      forall k: nat
        ensures OpensAt(lines, k)
                <==> if Indented(lines[n]) then OpensAt(lines[..n], k) else k == n && RefsLine(lines[n])
      {
        OpensStep(lines, k);
      }
      assert !Indented(lines[n]) && RefsLine(lines[n]) ==> OpensAt(lines, n);
    }
  }

  lemma EntriesAre(lines: seq<string>, i: nat)
    ensures EntryAt(lines, i) <==> InSection(lines, i)
  {
    if i < |lines| {
      InsideIs(lines[..i]);
    }
  }

  // ----- a line that defines a ref

  predicate Letter(c: char) {
    'a' <= c <= 'z' || 'A' <= c <= 'Z'
  }

  /** A letter or an underscore, and then letters, underscores and digits. */
  predicate Identifier(s: string) {
    && s != "" && (Letter(s[0]) || s[0] == '_')
    && forall i :: 0 <= i < |s| ==> Letter(s[i]) || s[i] == '_' || '0' <= s[i] <= '9'
  }

  lemma NamesAre(s: string)
    ensures IsRefName(s) <==> Identifier(s)
  {}

  /** Indentation, a name, a colon and the rest. */
  ghost predicate Defines(line: string, name: string, rest: string) {
    exists pad, gap :: pad != "" && AllOf(pad, Blank) && Identifier(name) && AllOf(gap, Blank)
                       && line == pad + name + gap + ":" + rest
  }

  lemma {:induction false} NameIsLongest(s: string)
    ensures AllOf(s[..NameLen(s)], NameChar) && (NameLen(s) < |s| ==> !NameChar(s[NameLen(s)]))
  {
    if s != "" && NameChar(s[0]) {
      NameIsLongest(s[1..]);
      var n := NameLen(s);
      forall i | 0 <= i < n ensures NameChar(s[i]) {
        if i > 0 { assert s[i] == s[1..][i - 1] && s[1..][..n - 1][i - 1] == s[i]; }
      }
      assert n < |s| ==> s[n] == s[1..][n - 1];
    }
  }

  lemma ParseIs(line: string, name: string, rest: string)
    ensures Parse(line) == Some((name, rest)) <==> Defines(line, name, rest)
  {
    if Parse(line) == Some((name, rest)) {
      ParsedDefines(line, name, rest);
    }
    if Defines(line, name, rest) {
      var pad, gap :| pad != "" && AllOf(pad, Blank) && Identifier(name) && AllOf(gap, Blank)
                      && line == pad + name + gap + ":" + rest;
      DefinesParses(line, pad, name, gap, rest);
    }
  }

  lemma ParsedDefines(line: string, name: string, rest: string)
    requires Parse(line) == Some((name, rest))
    ensures Defines(line, name, rest)
  {
    var pad := DropLeftCuts(line, Blank);
    var body := DropLeft(line, Blank);
    var n := NameLen(body);
    var gap := DropLeftCuts(body[n..], Blank);
    var after := DropLeft(body[n..], Blank);
    NameIsLongest(body);
    assert body == body[..n] + body[n..] && after == [after[0]] + after[1..] && [after[0]] == ":";
    NamesAre(name);
    assert line == pad + name + gap + ":" + rest;
  }

  lemma DefinesParses(line: string, pad: string, name: string, gap: string, rest: string)
    requires pad != "" && AllOf(pad, Blank) && Identifier(name) && AllOf(gap, Blank)
    requires line == pad + name + gap + ":" + rest
    ensures Parse(line) == Some((name, rest))
  {
    NamesAre(name);
    var tail := gap + (":" + rest);
    assert line == pad + (name + tail) && line[0] == pad[0];
    DropLeftPadding(pad, name + tail, Blank);
    assert tail[0] == if gap == "" then ':' else gap[0];
    NameLenOf(name, tail);
    assert (name + tail)[..|name|] == name && (name + tail)[|name|..] == tail;
    DropLeftPadding(gap, ":" + rest, Blank);
    assert (":" + rest)[1..] == rest;
  }

  // ----- the ref of a route

  /** The name without the underscores around it; what it begins with decides whether it gets an `X`. */
  ghost predicate RefOf(ref: string, upper: string) {
    exists before, core, after ::
      && AllUnderscores(before) && AllUnderscores(after)
      && (core != "" ==> core[0] != '_' && core[|core| - 1] != '_')
      && |before + core + after| == |upper|
      && (forall i :: 0 <= i < |upper| ==> (before + core + after)[i] == Kept(upper[i]))
      && ref == (if core == "" || !('A' <= core[0] <= 'Z') then "X" else "") + core + "_API_KEY"
  }

  predicate AllUnderscores(s: string) {
    forall i :: 0 <= i < |s| ==> s[i] == '_'
  }

  /** Upper-case letters and digits stay, everything else becomes an underscore. */
  function Kept(c: char): char {
    if 'A' <= c <= 'Z' || '0' <= c <= '9' then c else '_'
  }

  /** A custom route is folded to upper-case letters, digits and underscores, and made to begin with a letter. */
  lemma RouteRefIs(route: string, upper: string -> string)
    ensures RefForEntry(None, upper) == RefForEntry(Some(""), upper) == "DEEPSEEK_API_KEY"
    ensures route != "" ==> RefOf(RefForEntry(Some(route), upper), upper(route))
  {
    if route != "" {
      var folded := Folded(upper(route));
      var before := DropLeftCuts(folded, c => c == '_');
      var after := DropRightCuts(DropLeft(folded, c => c == '_'), c => c == '_');
      var core := DropRight(DropLeft(folded, c => c == '_'), c => c == '_');
      assert DropLeft(folded, c => c == '_') == core + after && folded == before + (core + after);
      assert before + core + after == folded;
      assert core != "" ==> core[0] == DropLeft(folded, c => c == '_')[0];
      FoldedIs(upper(route));
    }
  }

  lemma FoldedIs(s: string)
    ensures |Folded(s)| == |s| && forall i :: 0 <= i < |s| ==> Folded(s)[i] == Kept(s[i])
  {}

  // ----- a value

  /** Quotes of one kind around a value are taken off, and two single quotes inside are one. */
  lemma UnquotedIs(inside: string)
    ensures Unquote("'" + inside + "'") == Undouble(inside) && Unquote("\"" + inside + "\"") == Undouble(inside)
  {
    assert ("'" + inside + "'")[1..|inside| + 1] == inside && ("\"" + inside + "\"")[1..|inside| + 1] == inside;
  }

  lemma BareIs(v: string)
    requires |v| < 2 || v[0] != v[|v| - 1] || (v[0] != '\'' && v[0] != '"')
    ensures Unquote(v) == v
  {}

  /** Without two quotes in a row nothing changes. */
  lemma {:induction false} UndoubleLeaves(s: string)
    requires forall i :: 0 <= i < |s| - 1 ==> s[i] != '\'' || s[i + 1] != '\''
    ensures Undouble(s) == s
  {
    if s != "" {
      forall i | 0 <= i < |s[1..]| - 1 ensures s[1..][i] != '\'' || s[1..][i + 1] != '\'' {
        assert s[1..][i] == s[i + 1] && s[1..][i + 1] == s[i + 2];
      }
      UndoubleLeaves(s[1..]);
      assert s == [s[0]] + s[1..];
    }
  }

  // ----- where a run puts its lines

  /** Line `k` is the first at top level that says `refs:`. */
  predicate RefsAt(lines: seq<string>, k: nat) {
    k < |lines| && RefsLine(lines[k]) && forall i :: 0 <= i < k ==> !RefsLine(lines[i])
  }

  ghost predicate VersionAt(lines: seq<string>, k: nat) {
    k < |lines| && VersionLine(lines[k]) && forall i :: 0 <= i < k ==> !VersionLine(lines[i])
  }

  lemma {:induction false} IndexIs(lines: seq<string>, p: string -> bool)
    ensures var f := FirstIndex(lines, p);
            forall i :: 0 <= i < (if f.Some? then f.value else |lines|) ==> !p(lines[i])
  {
    if lines != [] {
      var init := lines[..|lines| - 1];
      IndexIs(init, p);
      forall i | 0 <= i < |init| ensures lines[i] == init[i] {}
    }
  }

  lemma RefsAtIs(lines: seq<string>, k: nat)
    ensures RefsAt(lines, k) <==> FirstIndex(lines, RefsHead) == Some(k)
  {
    IndexIs(lines, RefsHead);
    forall i | 0 <= i < |lines| ensures RefsHead(lines[i]) <==> RefsLine(lines[i]) { HeadsAre(lines[i]); }
  }

  lemma VersionAtIs(lines: seq<string>, k: nat)
    ensures VersionAt(lines, k) <==> FirstIndex(lines, VersionHead) == Some(k)
  {
    IndexIs(lines, VersionHead);
    forall i | 0 <= i < |lines| ensures VersionHead(lines[i]) <==> VersionLine(lines[i]) { HeadsAre(lines[i]); }
  }

  /** Under a `refs:` line the added lines come first; the others keep their order, rewritten by name. */
  lemma {:induction false} LandUnderRefs(lines: seq<string>, desired: seq<Desired>, managed: seq<string>, k: nat)
    requires UniqueRefs(lines) && RefsAt(lines, k) && Additions(desired, RefAt(lines)) != []
    ensures var rw := Rewriter(managed, Wanted(desired));
            ReconcileLines(lines, desired, managed)
            == Some(ByName(rw, lines[..k + 1], false) + RefLines(Additions(desired, RefAt(lines)), Wanted(desired))
                    + ByName(rw, lines[k + 1..], true))
  {
    var at, wanted := RefAt(lines), Wanted(desired);
    RefsAtIs(lines, k);
    PlannedIsByName(lines, desired, managed);
    EmittedByName(lines, Rewriter(managed, wanted), Dropped(Distinct(managed), wanted, at),
                  Rewritten(WantedRefs(desired), managed, wanted, at),
                    PlanInsertion(lines, Additions(desired, at), wanted), k);
    HeadOpensSection(lines, k);
  }

  /** The lines a run leaves when it adds these, if the file is one it recognises. */
  ghost predicate Landed(lines: seq<string>, rw: Rewriting, added: seq<string>, out: Option<seq<string>>) {
    && (added == [] ==> out == Some(ByName(rw, lines, false)))
    && (forall k: nat :: added != [] && RefsAt(lines, k) ==>
          out == Some(ByName(rw, lines[..k + 1], false) + added + ByName(rw, lines[k + 1..], true)))
    && (added != [] && (forall k: nat :: !RefsAt(lines, k)) ==>
          && (forall k: nat :: VersionAt(lines, k) ==>
              out == Some(lines[..k + 1] + (["refs:"] + added) + lines[k + 1..]))
          && ((forall k: nat :: !VersionAt(lines, k)) ==> out == None))
  }

  lemma HeadsLand(lines: seq<string>)
    ensures forall k: nat :: RefsAt(lines, k) <==> FirstIndex(lines, RefsHead) == Some(k)
    ensures forall k: nat :: VersionAt(lines, k) <==> FirstIndex(lines, VersionHead) == Some(k)
  {
    forall k: nat
      ensures RefsAt(lines, k) <==> FirstIndex(lines, RefsHead) == Some(k)
      ensures VersionAt(lines, k) <==> FirstIndex(lines, VersionHead) == Some(k)
    {
      RefsAtIs(lines, k);
      VersionAtIs(lines, k);
    }
  }

  lemma LandedUnderRefs(lines: seq<string>, rw: Rewriting, added: seq<string>, out: Option<seq<string>>, k: nat)
    requires FirstIndex(lines, RefsHead) == Some(k) && added != []
    requires out == Some(ByName(rw, lines[..k + 1], false) + added + ByName(rw, lines[k + 1..], true))
    ensures Landed(lines, rw, added, out)
  {
    HeadsLand(lines);
    assert RefsAt(lines, k);
  }

  lemma LandedUnderVersion(lines: seq<string>, rw: Rewriting, added: seq<string>, out: Option<seq<string>>,
                           v: Option<nat>)
    requires FirstIndex(lines, RefsHead).None? && added != [] && v == FirstIndex(lines, VersionHead)
    requires out == if v.None? then None else Some(lines[..v.value + 1] + (["refs:"] + added) + lines[v.value + 1..])
    ensures Landed(lines, rw, added, out)
  {
    HeadsLand(lines);
    assert v.Some? ==> VersionAt(lines, v.value);
  }

  lemma AddedLines(desired: seq<Desired>, at: map<string, nat>)
    ensures RefLines(Additions(desired, at), Wanted(desired)) == [] <==> Additions(desired, at) == []
  {
    RefLinesIndexed(Additions(desired, at), Wanted(desired));
  }

  lemma RefsCase(lines: seq<string>, desired: seq<Desired>, managed: seq<string>, rw: Rewriting, added: seq<string>,
                 k: nat)
    requires UniqueRefs(lines) && FirstIndex(lines, RefsHead) == Some(k) && added != []
    requires added == RefLines(Additions(desired, RefAt(lines)), Wanted(desired)) &&
             rw == Rewriter(managed, Wanted(desired))
    ensures ReconcileLines(lines, desired, managed)
            == Some(ByName(rw, lines[..k + 1], false) + added + ByName(rw, lines[k + 1..], true))
  {
    AddedLines(desired, RefAt(lines));
    RefsAtIs(lines, k);
    LandUnderRefs(lines, desired, managed, k);
  }

  lemma VersionCase(lines: seq<string>, desired: seq<Desired>, managed: seq<string>, added: seq<string>, v: nat)
    requires UniqueRefs(lines) && FirstIndex(lines, RefsHead).None? && FirstIndex(lines, VersionHead) == Some(v)
    requires added == RefLines(Additions(desired, RefAt(lines)), Wanted(desired)) && added != []
    ensures ReconcileLines(lines, desired, managed) == Some(lines[..v + 1] + (["refs:"] + added) + lines[v + 1..])
  {
    AddedLines(desired, RefAt(lines));
    NoHeads(lines);
    EmittedNoHead(lines, desired, managed, v);
  }

  lemma NoCase(lines: seq<string>, desired: seq<Desired>, managed: seq<string>, added: seq<string>)
    requires FirstIndex(lines, RefsHead).None? && FirstIndex(lines, VersionHead).None?
    requires added == RefLines(Additions(desired, RefAt(lines)), Wanted(desired)) && added != []
    ensures ReconcileLines(lines, desired, managed) == None
  {
    AddedLines(desired, RefAt(lines));
  }

  lemma NothingCase(lines: seq<string>, desired: seq<Desired>, managed: seq<string>, rw: Rewriting)
    requires UniqueRefs(lines) && rw == Rewriter(managed, Wanted(desired))
    requires RefLines(Additions(desired, RefAt(lines)), Wanted(desired)) == []
    ensures ReconcileLines(lines, desired, managed) == Some(ByName(rw, lines, false))
  {
    AddedLines(desired, RefAt(lines));
    LandNothing(lines, desired, managed);
  }

  lemma NoRefsCase(lines: seq<string>, desired: seq<Desired>, managed: seq<string>, added: seq<string>,
                   out: Option<seq<string>>, v: Option<nat>)
    requires UniqueRefs(lines) && FirstIndex(lines, RefsHead).None? && v == FirstIndex(lines, VersionHead)
    requires added == RefLines(Additions(desired, RefAt(lines)), Wanted(desired)) && added != []
    requires out == ReconcileLines(lines, desired, managed)
    ensures out == if v.None? then None else Some(lines[..v.value + 1] + (["refs:"] + added) + lines[v.value + 1..])
  {
    if v.Some? {
      VersionCase(lines, desired, managed, added, v.value);
    } else {
      NoCase(lines, desired, managed, added);
    }
  }

  /**
   Where a run on a file that says something puts the lines it adds: first in its first `refs:`
   section, else in a new section below the first `version: 1` line; without either it leaves the
   file alone. Every other line stays in its place, rewritten or dropped by the name it defines.
   */
  lemma LinesLand(text: string, desired: seq<Desired>, managed: seq<string>) returns (out: Option<seq<string>>)
    requires Trim(text) != "" && UniqueRefs(Split(text))
    ensures Landed(Split(text), Rewriter(managed, Wanted(desired)),
                   RefLines(Additions(desired, RefAt(Split(text))), Wanted(desired)), out)
    ensures Reconcile(text, desired, managed).text == if out.Some? then Join(out.value) else text
  {
    out := ReconcileLines(Split(text), desired, managed);
    CasesLand(Split(text), desired, managed, Rewriter(managed, Wanted(desired)),
              RefLines(Additions(desired, RefAt(Split(text))), Wanted(desired)), out);
  }

  /** The lines to add and the way lines are rewritten, as one run determines them. */
  ghost predicate Run(lines: seq<string>, desired: seq<Desired>, managed: seq<string>, rw: Rewriting,
                      added: seq<string>, out: Option<seq<string>>)
  {
    && UniqueRefs(lines) && out == ReconcileLines(lines, desired, managed) && rw == Rewriter(managed, Wanted(desired))
    && added == RefLines(Additions(desired, RefAt(lines)), Wanted(desired))
  }

  lemma NothingLands(lines: seq<string>, desired: seq<Desired>, managed: seq<string>, rw: Rewriting, added: seq<string>,
                     out: Option<seq<string>>)
    requires Run(lines, desired, managed, rw, added, out) && added == []
    ensures Landed(lines, rw, added, out)
  {
    NothingCase(lines, desired, managed, rw);
  }

  lemma RefsLands(lines: seq<string>, desired: seq<Desired>, managed: seq<string>, rw: Rewriting, added: seq<string>,
                  out: Option<seq<string>>, k: nat)
    requires Run(lines, desired, managed, rw, added, out) && added != [] && FirstIndex(lines, RefsHead) == Some(k)
    ensures Landed(lines, rw, added, out)
  {
    RefsCase(lines, desired, managed, rw, added, k);
    LandedUnderRefs(lines, rw, added, out, k);
  }

  lemma NoRefsLands(lines: seq<string>, desired: seq<Desired>, managed: seq<string>, rw: Rewriting, added: seq<string>,
                    out: Option<seq<string>>, v: Option<nat>)
    requires Run(lines, desired, managed, rw, added, out) && added != [] && FirstIndex(lines, RefsHead).None?
    requires v == FirstIndex(lines, VersionHead)
    ensures Landed(lines, rw, added, out)
  {
    NoRefsCase(lines, desired, managed, added, out, v);
    LandedUnderVersion(lines, rw, added, out, v);
  }

  lemma CasesLand(lines: seq<string>, desired: seq<Desired>, managed: seq<string>, rw: Rewriting, added: seq<string>,
                  out: Option<seq<string>>)
    requires Run(lines, desired, managed, rw, added, out)
    ensures Landed(lines, rw, added, out)
  {
    var f := FirstIndex(lines, RefsHead);
    if added == [] {
      NothingLands(lines, desired, managed, rw, added, out);
    } else if f.Some? {
      RefsLands(lines, desired, managed, rw, added, out, f.value);
    } else {
      NoRefsLands(lines, desired, managed, rw, added, out, FirstIndex(lines, VersionHead));
    }
  }

  lemma LandNothing(lines: seq<string>, desired: seq<Desired>, managed: seq<string>)
    requires UniqueRefs(lines) && Additions(desired, RefAt(lines)) == []
    ensures ReconcileLines(lines, desired, managed) == Some(ByName(Rewriter(managed, Wanted(desired)), lines, false))
  {
    var at, wanted := RefAt(lines), Wanted(desired);
    PlannedIsByName(lines, desired, managed);
    EmittedBefore(lines, Rewriter(managed, wanted), Dropped(Distinct(managed), wanted, at),
                  Rewritten(WantedRefs(desired), managed, wanted, at), Insertion(None, []), |lines|);
    assert lines[..|lines|] == lines;
  }
}
