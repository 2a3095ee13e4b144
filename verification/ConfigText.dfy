/**
 Text as lines, numbers and lists, and the small recognisers the text modules are built from. A
 regular expression of the source is stated as the string condition it tests.
 */
module ConfigText {
  import opened Basics

  /** `[ \t]` */
  predicate Blank(c: char) {
    c == ' ' || c == '\t'
  }

  /** What `trim` and `\s` treat as white space. */
  predicate Space(c: char) {
    || c == '\t' || c == '\n' || c == '\U{0B}' || c == '\U{0C}' || c == '\r' || c == ' ' || c == '\U{A0}'
    || c == '\U{1680}' || '\U{2000}' <= c <= '\U{200A}' || c == '\U{2028}' || c == '\U{2029}'
    || c == '\U{202F}' || c == '\U{205F}' || c == '\U{3000}' || c == '\U{FEFF}'
  }

  /** The characters `.` does not match. */
  predicate LineBreak(c: char) {
    c == '\n' || c == '\r' || c == '\U{2028}' || c == '\U{2029}'
  }

  predicate NoneOf(s: string, p: char -> bool) {
    forall i :: 0 <= i < |s| ==> !p(s[i])
  }

  predicate AllOf(s: string, p: char -> bool) {
    forall i :: 0 <= i < |s| ==> p(s[i])
  }

  function DropLeft(s: string, p: char -> bool): string {
    if s != "" && p(s[0]) then DropLeft(s[1..], p) else s
  }

  function DropRight(s: string, p: char -> bool): string {
    if s != "" && p(s[|s| - 1]) then DropRight(s[..|s| - 1], p) else s
  }

  function Trim(s: string): string {
    DropRight(DropLeft(s, Space), Space)
  }

  function Strip(s: string): string {
    DropRight(DropLeft(s, Blank), Blank)
  }

  predicate Indented(line: string) {
    line != "" && Blank(line[0])
  }

  lemma {:induction false} DropLeftPadding(pad: string, s: string, p: char -> bool)
    requires AllOf(pad, p) && (s == "" || !p(s[0]))
    ensures DropLeft(pad + s, p) == s
  {
    if pad == "" {
      assert pad + s == s;
    } else {
      assert (pad + s)[1..] == pad[1..] + s;
      DropLeftPadding(pad[1..], s, p);
    }
  }

  lemma {:induction false} DropLeftCuts(s: string, p: char -> bool) returns (pad: string)
    ensures AllOf(pad, p) && s == pad + DropLeft(s, p)
    ensures DropLeft(s, p) != "" ==> !p(DropLeft(s, p)[0])
  {
    pad := "";
    if s != "" && p(s[0]) {
      var later := DropLeftCuts(s[1..], p);
      pad := [s[0]] + later;
      assert s == [s[0]] + s[1..];
    }
  }

  lemma {:induction false} DropRightCuts(s: string, p: char -> bool) returns (pad: string)
    ensures AllOf(pad, p) && s == DropRight(s, p) + pad
    ensures DropRight(s, p) != "" ==> !p(DropRight(s, p)[|DropRight(s, p)| - 1])
  {
    pad := "";
    if s != "" && p(s[|s| - 1]) {
      var before := DropRightCuts(s[..|s| - 1], p);
      pad := before + [s[|s| - 1]];
      assert s == s[..|s| - 1] + [s[|s| - 1]];
    }
  }

  lemma {:induction false} DropRightPadding(s: string, pad: string, p: char -> bool)
    requires AllOf(pad, p) && (s == "" || !p(s[|s| - 1]))
    ensures DropRight(s + pad, p) == s
  {
    if pad == "" {
      assert s + pad == s;
    } else {
      assert (s + pad)[..|s + pad| - 1] == s + pad[..|pad| - 1];
      DropRightPadding(s, pad[..|pad| - 1], p);
    }
  }

  // ----- lines

  function Split(text: string): (lines: seq<string>)
    ensures |lines| >= 1
  {
    if text == "" then [""]
    else
      var rest := Split(text[1..]);
      if text[0] == '\n' then [""] + rest else [[text[0]] + rest[0]] + rest[1..]
  }

  function Join(lines: seq<string>): string {
    if lines == [] then "" else if |lines| == 1 then lines[0] else lines[0] + "\n" + Join(lines[1..])
  }

  predicate IsLine(s: string) {
    '\n' !in s
  }

  predicate AreLines(lines: seq<string>) {
    forall l :: l in lines ==> IsLine(l)
  }

  lemma {:induction false} SplitGivesLines(text: string)
    ensures AreLines(Split(text))
  {
    if text != "" {
      SplitGivesLines(text[1..]);
      var rest := Split(text[1..]);
      forall l | l in Split(text) ensures IsLine(l) {
        if text[0] != '\n' && l == Split(text)[0] {
          assert rest[0] in rest;
        } else {
          assert l == "" || l in rest;
        }
      }
    }
  }

  lemma {:induction false} JoinSplit(text: string)
    ensures Join(Split(text)) == text
  {
    if text != "" {
      JoinSplit(text[1..]);
      var rest := Split(text[1..]);
      assert text == [text[0]] + text[1..];
      if text[0] == '\n' {
        assert Split(text)[1..] == rest;
      } else if |rest| == 1 {
        assert Split(text) == [[text[0]] + rest[0]];
      } else {
        assert Split(text)[1..] == rest[1..];
        assert Join(Split(text)) == ([text[0]] + rest[0]) + "\n" + Join(rest[1..]);
        assert ([text[0]] + rest[0]) + "\n" + Join(rest[1..]) == [text[0]] + (rest[0] + "\n" + Join(rest[1..]));
      }
    }
  }

  lemma {:induction false} SplitLine(line: string, text: string)
    requires IsLine(line)
    ensures Split(line + "\n" + text) == [line] + Split(text)
  {
    var whole := line + "\n" + text;
    if line == "" {
      assert whole[0] == '\n' && whole[1..] == text;
    } else {
      assert whole[0] == line[0] && whole[1..] == line[1..] + "\n" + text;
      assert line == [line[0]] + line[1..];
      SplitLine(line[1..], text);
    }
  }

  lemma {:induction false} SplitSingle(line: string)
    requires IsLine(line)
    ensures Split(line) == [line]
  {
    if line != "" {
      SplitSingle(line[1..]);
      assert line == [line[0]] + line[1..];
    }
  }

  lemma {:induction false} SplitJoin(lines: seq<string>)
    requires AreLines(lines) && lines != []
    ensures Split(Join(lines)) == lines
  {
    assert lines[0] in lines;
    if |lines| == 1 {
      SplitSingle(lines[0]);
    } else {
      SplitLine(lines[0], Join(lines[1..]));
      SplitJoin(lines[1..]);
    }
  }

  // ----- numbers

  predicate Digit(c: char) { '0' <= c <= '9' }

  function ToDecimal(n: nat): (s: string) {
    if n < 10 then ["0123456789"[n]] else ToDecimal(n / 10) + ["0123456789"[n % 10]]
  }

  function FromDecimal(s: string): nat
    requires AllOf(s, Digit)
  {
    if s == "" then 0 else 10 * FromDecimal(s[..|s| - 1]) + (s[|s| - 1] as int - '0' as int)
  }

  lemma {:induction false} DecimalRoundTrip(n: nat)
    ensures ToDecimal(n) != "" && AllOf(ToDecimal(n), Digit) && FromDecimal(ToDecimal(n)) == n
  {
    if n >= 10 {
      DecimalRoundTrip(n / 10);
      var s := ToDecimal(n);
      assert s[..|s| - 1] == ToDecimal(n / 10);
    } else {
      assert ToDecimal(n)[..0] == "";
    }
  }

  // ----- sets kept as lists, in the order of first insertion

  function Distinct(s: seq<string>): (r: seq<string>)
    ensures forall x :: x in r <==> x in s
  {
    if s == [] then []
    else
      var init, last := Distinct(s[..|s| - 1]), s[|s| - 1];
      assert s == s[..|s| - 1] + [last];
      if last in init then init else init + [last]
  }

  predicate NoRepeats(s: seq<string>) {
    forall i, j :: 0 <= i < j < |s| ==> s[i] != s[j]
  }

  lemma {:induction false} DistinctHasNoRepeats(s: seq<string>)
    ensures NoRepeats(Distinct(s))
  {
    if s != [] {
      DistinctHasNoRepeats(s[..|s| - 1]);
    }
  }

  lemma {:induction false} DistinctOfDistinct(s: seq<string>)
    requires NoRepeats(s)
    ensures Distinct(s) == s
  {
    if s != [] {
      DistinctOfDistinct(s[..|s| - 1]);
      assert s == s[..|s| - 1] + [s[|s| - 1]];
      assert s[|s| - 1] !in s[..|s| - 1];
    }
  }

  // ----- lists

  lemma HeadOff<T>(a: seq<T>, b: seq<T>, c: seq<T>)
    requires a != []
    ensures a + b + c == [a[0]] + (a[1..] + b + c)
    ensures a + c == [a[0]] + (a[1..] + c)
  {}

  lemma LastOff<T>(s: seq<T>)
    requires s != []
    ensures s == s[..|s| - 1] + [s[|s| - 1]]
  {}

  lemma CutAt<T>(s: seq<T>, n: nat)
    requires n <= |s|
    ensures s == s[..n] + s[n..]
  {}

  lemma Regroup<T>(a: seq<T>, b: seq<T>, c: seq<T>)
    ensures (a + b) + c == a + (b + c)
  {}

  lemma EmptyAround<T>(b: seq<T>, c: seq<T>)
    ensures [] + b + c == b + c && [] + c == c
  {}

  function FirstIndex(lines: seq<string>, p: string -> bool): (r: Option<nat>)
    ensures r.Some? ==> r.value < |lines| && p(lines[r.value])
  {
    if lines == [] then None
    else
      var before := FirstIndex(lines[..|lines| - 1], p);
      if before.Some? then before else if p(lines[|lines| - 1]) then Some(|lines| - 1) else None
  }

  lemma {:induction false} NoIndex(lines: seq<string>, p: string -> bool, k: nat)
    requires FirstIndex(lines, p).None? && k < |lines|
    ensures !p(lines[k])
  {
    if k < |lines| - 1 {
      NoIndex(lines[..|lines| - 1], p, k);
    }
  }

  function Filter(s: seq<string>, p: string -> bool): (r: seq<string>)
    ensures forall x :: x in r <==> x in s && p(x)
  {
    if s == [] then []
    else
      assert s == s[..|s| - 1] + [s[|s| - 1]];
      Filter(s[..|s| - 1], p) + if p(s[|s| - 1]) then [s[|s| - 1]] else []
  }

  lemma {:induction false} FilterAll(s: seq<string>, p: string -> bool)
    requires forall x :: x in s ==> p(x)
    ensures Filter(s, p) == s
  {
    if s != [] {
      assert s == s[..|s| - 1] + [s[|s| - 1]];
      FilterAll(s[..|s| - 1], p);
    }
  }

  lemma {:induction false} FilterNone(s: seq<string>, p: string -> bool)
    requires forall x :: x in s ==> !p(x)
    ensures Filter(s, p) == []
  {
    if s != [] {
      assert s == s[..|s| - 1] + [s[|s| - 1]];
      FilterNone(s[..|s| - 1], p);
    }
  }

  lemma {:induction false} DistinctAbsorbs(a: seq<string>, b: seq<string>)
    requires NoRepeats(a) && forall x :: x in b ==> x in a
    ensures Distinct(a + b) == a
  {
    if b == [] {
      assert a + b == a;
      DistinctOfDistinct(a);
    } else {
      assert b == b[..|b| - 1] + [b[|b| - 1]];
      assert (a + b)[..|a + b| - 1] == a + b[..|b| - 1];
      DistinctAbsorbs(a, b[..|b| - 1]);
    }
  }

  /** What a reconciler returns: the new text, and what stays owned by the platform. */
  datatype Result = Result(text: string, managed: seq<string>)
}
