/**
 What the recognisers of `settings.yaml` accept, written as the texts themselves: the two markers, and
 the line that opens a route's mapping.
 */
module SettingsForm {
  import opened Basics
  import opened ConfigText
  import opened Settings

  lemma StripCuts(line: string) returns (pad: string, tail: string)
    ensures AllOf(pad, Blank) && AllOf(tail, Blank) && line == pad + Strip(line) + tail
  {
    pad := DropLeftCuts(line, Blank);
    tail := DropRightCuts(DropLeft(line, Blank), Blank);
  }

  lemma StripPadded(pad: string, body: string, tail: string)
    requires AllOf(pad, Blank) && AllOf(tail, Blank) && body != "" && !Blank(body[0]) && !Blank(body[|body| - 1])
    ensures Strip(pad + body + tail) == body
  {
    assert pad + body + tail == pad + (body + tail) && (body + tail)[0] == body[0];
    DropLeftPadding(pad, body + tail, Blank);
    DropRightPadding(body, tail, Blank);
  }

  /** Blanks aside, the marker text, a route without white space, and the closing word. */
  ghost predicate Marker(line: string, route: string, word: string) {
    exists pad, tail :: AllOf(pad, Blank) && AllOf(tail, Blank)
                        && line == pad + ("# dsh_ai1net:model-route " + route + word) + tail
  }

  /** A line begins the block of a route exactly if it is the route's begin marker. */
  lemma BeginIs(line: string, route: string)
    ensures BeginRoute(line) == Some(route) <==> route != "" && NoneOf(route, Space) && Marker(line, route, " begin")
  {
    if BeginRoute(line) == Some(route) {
      var pad, tail := StripCuts(line);
      var t := Strip(line);
      assert t == t[..|MARK|] + t[|MARK|..|MARK| + |route|] + t[|MARK| + |route|..];
      assert line == pad + ("# dsh_ai1net:model-route " + route + " begin") + tail;
    }
    if route != "" && NoneOf(route, Space) && Marker(line, route, " begin") {
      var pad, tail :| AllOf(pad, Blank) && AllOf(tail, Blank)
                       && line == pad + ("# dsh_ai1net:model-route " + route + " begin") + tail;
      var t := "# dsh_ai1net:model-route " + route + " begin";
      StripPadded(pad, t, tail);
      assert t[..|MARK|] == MARK && t[|MARK|..|MARK| + |route|] == route && t[|MARK| + |route|..] == " begin";
    }
  }

  /** A line ends it exactly if it is its end marker. */
  lemma EndIs(line: string, route: string)
    ensures IsEnd(line, route) <==> Marker(line, route, " end")
  {
    if IsEnd(line, route) {
      var pad, tail := StripCuts(line);
      assert line == pad + ("# dsh_ai1net:model-route " + route + " end") + tail;
    }
    if Marker(line, route, " end") {
      var pad, tail :| AllOf(pad, Blank) && AllOf(tail, Blank)
                       && line == pad + ("# dsh_ai1net:model-route " + route + " end") + tail;
      StripPadded(pad, "# dsh_ai1net:model-route " + route + " end", tail);
    }
  }

  /** Four blanks, a key without white space and colons that is no comment, and a colon with blanks around it. */
  ghost predicate OpensKey(line: string, key: string) {
    exists pad, gap, tail :: |pad| == 4 && AllOf(pad, Blank) && AllOf(gap, Blank) && AllOf(tail, Blank)
                             && key != "" && key[0] != '#' &&
                                (forall i :: 0 <= i < |key| ==> !Space(key[i]) && key[i] != ':')
                             && line == pad + key + gap + ":" + tail
  }

  lemma {:induction false} KeyIsLongest(s: string)
    ensures forall i :: 0 <= i < KeyLen(s) ==> !Space(s[i]) && s[i] != ':'
  {
    if s != "" && KeyChar(s[0]) {
      KeyIsLongest(s[1..]);
      forall i | 0 < i < KeyLen(s) ensures !Space(s[i]) && s[i] != ':' { assert s[i] == s[1..][i - 1]; }
    }
  }

  lemma {:induction false} KeyLenOf(key: string, rest: string)
    requires forall i :: 0 <= i < |key| ==> !Space(key[i]) && key[i] != ':'
    requires rest != "" && (Space(rest[0]) || rest[0] == ':')
    ensures KeyLen(key + rest) == |key|
  {
    if key == "" {
      assert key + rest == rest;
    } else {
      assert (key + rest)[1..] == key[1..] + rest;
      KeyLenOf(key[1..], rest);
    }
  }

  lemma KeyIs(line: string, key: string)
    ensures KeyOf(line) == Some(key) <==> OpensKey(line, key)
  {
    if KeyOf(line) == Some(key) {
      KeyIsOpened(line, key);
    }
    if OpensKey(line, key) {
      var pad, gap, tail :| |pad| == 4 && AllOf(pad, Blank) && AllOf(gap, Blank) && AllOf(tail, Blank)
                            && key != "" && key[0] != '#'
                            && (forall i :: 0 <= i < |key| ==> !Space(key[i]) && key[i] != ':')
                            && line == pad + key + gap + ":" + tail;
      OpenedIsKey(line, pad, key, gap, tail);
    }
  }

  lemma KeyIsOpened(line: string, key: string)
    requires KeyOf(line) == Some(key)
    ensures OpensKey(line, key)
  {
    var body := line[4..];
    var gap, tail := KeyParts(body, key);
    KeyIsLongest(body);
    assert line == line[..4] + body;
    forall i | 0 <= i < |key| ensures !Space(key[i]) && key[i] != ':' { assert key[i] == body[i]; }
    Opened(line, line[..4], key, gap, tail);
  }

  lemma KeyParts(body: string, key: string) returns (gap: string, tail: string)
    requires var n := KeyLen(body);
             var rest := DropLeft(body[n..], Blank);
             key == body[..n] && rest != "" && rest[0] == ':' && AllOf(rest[1..], Blank)
    ensures AllOf(gap, Blank) && AllOf(tail, Blank) && body == key + gap + ":" + tail
  {
    var n := KeyLen(body);
    gap := DropLeftCuts(body[n..], Blank);
    var rest := DropLeft(body[n..], Blank);
    tail := rest[1..];
    assert rest == [rest[0]] + tail && [rest[0]] == ":" && body == body[..n] + body[n..];
  }

  lemma Opened(line: string, pad: string, key: string, gap: string, tail: string)
    requires |pad| == 4 && AllOf(pad, Blank) && AllOf(gap, Blank) && AllOf(tail, Blank)
    requires key != "" && key[0] != '#' && forall i :: 0 <= i < |key| ==> !Space(key[i]) && key[i] != ':'
    requires line == pad + (key + gap + ":" + tail)
    ensures OpensKey(line, key)
  {
    assert line == pad + key + gap + ":" + tail;
  }

  lemma OpenedIsKey(line: string, pad: string, key: string, gap: string, tail: string)
    requires |pad| == 4 && AllOf(pad, Blank) && AllOf(gap, Blank) && AllOf(tail, Blank)
    requires key != "" && key[0] != '#' && forall i :: 0 <= i < |key| ==> !Space(key[i]) && key[i] != ':'
    requires line == pad + key + gap + ":" + tail
    ensures KeyOf(line) == Some(key)
  {
    var after := gap + (":" + tail);
    assert line == pad + (key + after) && line[..4] == pad && line[4..] == key + after;
    assert after[0] == if gap == "" then ':' else gap[0];
    KeyLenOf(key, after);
    assert (key + after)[..|key|] == key && (key + after)[|key|..] == after && (key + after)[0] == key[0];
    DropLeftPadding(gap, ":" + tail, Blank);
    assert (":" + tail)[1..] == tail;
  }

  /** A route counts as there exactly if a block names it, or a line outside blocks opens its mapping. */
  lemma {:induction false} PresentExactly(items: seq<Item>, route: string)
    ensures route in Present(items)
            <==> exists item :: item in items && if item.Block? then item.route == route else OpensKey(item.line, route)
  {
    if items != [] {
      var first, rest := items[0], items[1..];
      PresentExactly(rest, route);
      assert items == [first] + rest;
      if first.Plain? { KeyIs(first.line, route); }
      assert forall item :: item in items <==> item == first || item in rest;
    }
  }
}
