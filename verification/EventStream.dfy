/** Text of server-sent events: cutting it into events and lines, and joining lines back.
    Lines end in LF only. */
module EventStream {
  import opened Common

  // ---------------------------------------------------------------- events

  predicate BreakAt(s: string, i: int) {
    0 <= i < |s| - 1 && s[i] == '\n' && s[i + 1] == '\n'
  }

  // The first blank-line separator.
  function FindBreak(s: string): (r: Option<nat>)
    ensures r.Some? ==> r.value + 2 <= |s|
  {
    if |s| < 2 then None
    else if BreakAt(s, 0) then Some(0)
    else
      match FindBreak(s[1..])
      case None => None
      case Some(i) => Some(i + 1)
  }

  lemma {:induction false} FindBreakFacts(s: string)
    ensures var r := FindBreak(s);
            && (r.Some? ==> BreakAt(s, r.value) && forall j :: j < r.value ==> !BreakAt(s, j))
            && (r.None? ==> forall j :: !BreakAt(s, j))
  {
    if |s| >= 2 && !BreakAt(s, 0) {
      FindBreakFacts(s[1..]);
      assert forall j :: j > 0 ==> BreakAt(s, j) == BreakAt(s[1..], j - 1);
    }
  }

  datatype Pieces = Pieces(events: seq<string>, rest: string)

  // What repeatedly splitting off the text before the first separator leaves.
  function Split(s: string): Pieces
    decreases |s|
  {
    match FindBreak(s)
    case None => Pieces([], s)
    case Some(i) =>
      var tail := Split(s[i + 2..]);
      Pieces([s[..i]] + tail.events, tail.rest)
  }

  lemma FindUnique(s: string, i: nat)
    requires BreakAt(s, i) && forall j :: j < i ==> !BreakAt(s, j)
    ensures FindBreak(s) == Some(i)
  {
    FindBreakFacts(s);
  }

  lemma FindExtends(a: string, b: string)
    requires FindBreak(a).Some?
    ensures FindBreak(a + b) == FindBreak(a)
  {
    FindBreakFacts(a);
    var i := FindBreak(a).value;
    assert forall j :: j <= i ==> BreakAt(a + b, j) == BreakAt(a, j);
    FindUnique(a + b, i);
  }

  lemma SplitOff(s: string, i: nat, head: string, tail: string)
    requires FindBreak(s) == Some(i) && s[..i] == head && s[i + 2..] == tail
    ensures Split(s) == Pieces([head] + Split(tail).events, Split(tail).rest)
  {
  }

  /** Splitting text that arrives in two parts: the second part continues from what the
      first left over, wherever the cut falls. */
  lemma {:induction false} SplitConcat(a: string, b: string)
    ensures Split(a + b) == Pieces(Split(a).events + Split(Split(a).rest + b).events, Split(Split(a).rest + b).rest)
    decreases |a|
  {
    if FindBreak(a).Some? {
      var i := FindBreak(a).value;
      var head, tail := a[..i], a[i + 2..];
      FindExtends(a, b);
      SplitConcat(tail, b);
      SplitOff(a + b, i, head, tail + b);
      Associates([head], Split(tail).events, Split(Split(tail).rest + b).events);
    }
  }

  // Splitting in two goes.
  lemma SplitTwice(buffer: string, a: string, b: string)
    ensures var p := Split(buffer + a);
            var q := Split(p.rest + b);
            Split(buffer + (a + b)) == Pieces(p.events + q.events, q.rest)
  {
    SplitConcat(buffer + a, b);
    Associates(buffer, a, b);
  }

  lemma {:induction false} RestIsOpen(s: string)
    ensures FindBreak(Split(s).rest).None?
    decreases |s|
  {
    if FindBreak(s).Some? {
      RestIsOpen(s[FindBreak(s).value + 2..]);
    }
  }

  // An event as it comes out of the splitter.
  ghost predicate EventText(e: string) {
    (forall j :: !BreakAt(e, j)) && (e != "" ==> e[|e| - 1] != '\n')
  }

  lemma {:induction false} SplitEvents(s: string)
    ensures forall e :: e in Split(s).events ==> EventText(e)
    decreases |s|
  {
    FindBreakFacts(s);
    if FindBreak(s).Some? {
      var i := FindBreak(s).value;
      assert EventText(s[..i]) by {
        forall j ensures !BreakAt(s[..i], j) {
          assert j < i ==> !BreakAt(s, j);
        }
        assert !BreakAt(s, i as int - 1);
      }
      SplitEvents(s[i + 2..]);
    }
  }

  // A printed event is split back into exactly that event.
  lemma FrameSplits(e: string)
    requires EventText(e)
    ensures Split(e + "\n\n") == Pieces([e], "")
  {
    var s := e + "\n\n";
    forall j | j < |e| ensures !BreakAt(s, j) {
      assert !BreakAt(e, j);
    }
    FindUnique(s, |e|);
    assert s[..|e|] == e && s[|e| + 2..] == "";
    assert FindBreak("") == None;
  }

  // ---------------------------------------------------------------- lines

  ghost predicate OneLiner(s: string) {
    forall i :: 0 <= i < |s| ==> s[i] != '\n'
  }

  function FindLineEnd(s: string): (r: Option<nat>)
    ensures r.Some? ==> r.value < |s| && s[r.value] == '\n' && OneLiner(s[..r.value])
    ensures r.None? ==> OneLiner(s)
  {
    if s == "" then None
    else if s[0] == '\n' then Some(0)
    else
      match FindLineEnd(s[1..])
      case None => None
      case Some(i) =>
        assert s[..i + 1] == [s[0]] + s[1..][..i];
        Some(i + 1)
  }

  // Python's `str.splitlines`.
  function Lines(s: string): seq<string>
    decreases |s|
  {
    if s == "" then []
    else
      match FindLineEnd(s)
      case None => [s]
      case Some(i) => [s[..i]] + Lines(s[i + 1..])
  }

  // Python's `"\n".join`.
  function Join(ls: seq<string>): string {
    if ls == [] then ""
    else if |ls| == 1 then ls[0]
    else ls[0] + "\n" + Join(ls[1..])
  }

  ghost predicate Solid(ls: seq<string>) {
    forall i :: 0 <= i < |ls| ==> ls[i] != "" && OneLiner(ls[i])
  }

  // The lines of an event: only the first can be empty.
  ghost predicate EventLines(ls: seq<string>) {
    ls == [] || (OneLiner(ls[0]) && Solid(ls[1..]) && (ls[0] == "" ==> |ls| > 1))
  }

  lemma FirstLine(line: string, tail: string)
    requires OneLiner(line)
    ensures FindLineEnd(line + "\n" + tail) == Some(|line|)
    ensures Lines(line + "\n" + tail) == [line] + Lines(tail)
  {
    var s := line + "\n" + tail;
    var r := FindLineEnd(s);
    assert s[|line|] == '\n';
    assert forall k :: 0 <= k < |line| ==> s[k] == line[k];
    assert s[..|line|] == line && s[|line| + 1..] == tail;
  }

  lemma OneLine(line: string)
    requires OneLiner(line) && line != ""
    ensures Lines(line) == [line]
  {
  }

  lemma {:induction false} SolidJoin(ls: seq<string>)
    requires Solid(ls) && ls != []
    ensures var s := Join(ls); s != "" && s[0] != '\n' && EventText(s) && Lines(s) == ls
  {
    var line := ls[0];
    if |ls| == 1 {
      OneLine(line);
    } else {
      SolidJoin(ls[1..]);
      PrependLine(line, Join(ls[1..]));
    }
  }

  lemma PrependLine(line: string, tail: string)
    requires OneLiner(line) && tail != "" && tail[0] != '\n' && EventText(tail)
    ensures EventText(line + "\n" + tail) && Lines(line + "\n" + tail) == [line] + Lines(tail)
    ensures line != "" ==> (line + "\n" + tail)[0] == line[0]
  {
    FirstLine(line, tail);
    JoinedText(line, tail);
  }

  lemma JoinedText(line: string, tail: string)
    requires OneLiner(line) && tail != "" && tail[0] != '\n' && EventText(tail)
    ensures EventText(line + "\n" + tail)
  {
    var s := line + "\n" + tail;
    forall j ensures !BreakAt(s, j) {
      if 0 <= j < |line| {
        assert s[j] == line[j];
      } else if j > |line| {
        assert BreakAt(s, j) == BreakAt(tail, j - |line| - 1);
      }
    }
    assert s[|s| - 1] == tail[|tail| - 1];
  }

  // Joining an event's lines gives text that is one event with those lines.
  lemma JoinedLines(ls: seq<string>)
    requires EventLines(ls)
    ensures EventText(Join(ls)) && Lines(Join(ls)) == ls
  {
    if |ls| == 1 {
      JoinedLine(ls[0]);
    } else if |ls| > 1 {
      JoinedSeveral(ls[0], ls[1..]);
      assert ls == [ls[0]] + ls[1..];
    }
  }

  lemma JoinedLine(line: string)
    requires OneLiner(line) && line != ""
    ensures EventText(Join([line])) && Lines(Join([line])) == [line]
  {
    SolidJoin([line]);
  }

  lemma JoinedSeveral(line: string, rest: seq<string>)
    requires OneLiner(line) && Solid(rest) && rest != []
    ensures EventText(Join([line] + rest)) && Lines(Join([line] + rest)) == [line] + rest
  {
    SolidJoin(rest);
    PrependLine(line, Join(rest));
    assert ([line] + rest)[1..] == rest;
  }

  lemma {:induction false} SolidLines(s: string)
    requires EventText(s) && s != "" && s[0] != '\n'
    ensures Solid(Lines(s)) && Lines(s) != []
    decreases |s|
  {
    if FindLineEnd(s).Some? {
      var i := FindLineEnd(s).value;
      TailText(s, i);
      SolidLines(s[i + 1..]);
    }
  }

  lemma TailText(s: string, i: nat)
    requires EventText(s) && i < |s| && s[i] == '\n'
    ensures s[i + 1..] != "" && s[i + 1..][0] != '\n' && EventText(s[i + 1..])
  {
    var tail := s[i + 1..];
    assert !BreakAt(s, i);
    forall j ensures !BreakAt(tail, j) {
      assert !BreakAt(s, j + i + 1);
    }
  }

  lemma EventHasLines(e: string)
    requires EventText(e)
    ensures EventLines(Lines(e)) && forall l :: l in Lines(e) ==> OneLiner(l)
  {
    if e != "" {
      if e[0] == '\n' {
        LeadingLineEnd(e);
      } else {
        SolidLines(e);
      }
    }
  }

  // Then the first line is empty, and no other.
  lemma LeadingLineEnd(e: string)
    requires EventText(e) && e != "" && e[0] == '\n'
    ensures Lines(e) == [""] + Lines(e[1..]) && Solid(Lines(e[1..])) && Lines(e[1..]) != []
  {
    assert FindLineEnd(e) == Some(0) && e[..0] == "";
    TailText(e, 0);
    SolidLines(e[1..]);
  }

  // ---------------------------------------------------------------- stripping

  // The characters Python's `str.strip` removes.
  predicate IsSpace(c: char) {
    || c in {' ', '\t', '\n', '\r', '\U{b}', '\U{c}', '\U{1c}', '\U{1d}', '\U{1e}', '\U{1f}', '\U{85}', '\U{a0}', '\U{1680}',
             '\U{2028}', '\U{2029}', '\U{202f}', '\U{205f}', '\U{3000}'}
    || '\U{2000}' <= c <= '\U{200a}'
  }

  function StripLeft(s: string): string {
    if s != "" && IsSpace(s[0]) then StripLeft(s[1..]) else s
  }

  function StripRight(s: string): string {
    if s != "" && IsSpace(s[|s| - 1]) then StripRight(s[..|s| - 1]) else s
  }

  function Strip(s: string): string {
    StripRight(StripLeft(s))
  }

  predicate Blank(s: string) {
    forall i :: 0 <= i < |s| ==> IsSpace(s[i])
  }

  // Nothing is left of blank text, and of nothing else.
  lemma StripBlank(s: string)
    ensures Strip(s) == "" <==> Blank(s)
  {
    StripLeftBlank(s);
    StripRightBlank(StripLeft(s));
  }

  lemma {:induction false} StripLeftBlank(s: string)
    ensures Blank(StripLeft(s)) <==> Blank(s)
    ensures StripLeft(s) != "" ==> !IsSpace(StripLeft(s)[0])
  {
    if s != "" && IsSpace(s[0]) {
      StripLeftBlank(s[1..]);
      assert Blank(s) ==> forall i :: 0 <= i < |s| - 1 ==> s[1..][i] == s[i + 1];
      assert Blank(s[1..]) ==> forall i :: 1 <= i < |s| ==> s[i] == s[1..][i - 1];
    }
  }

  lemma {:induction false} StripRightBlank(s: string)
    ensures StripRight(s) == "" <==> Blank(s)
  {
    if s != "" && IsSpace(s[|s| - 1]) {
      StripRightBlank(s[..|s| - 1]);
    }
  }

  // Text without white space at either end.
  predicate Trimmed(s: string) {
    s != "" && !IsSpace(s[0]) && !IsSpace(s[|s| - 1])
  }

  lemma StripPadded(s: string)
    requires Trimmed(s)
    ensures Strip(" " + s) == s
  {
    var padded := " " + s;
    assert padded[0] == ' ' && IsSpace(padded[0]) && padded[1..] == s;
    assert StripLeft(padded) == StripLeft(s);
  }

  predicate StartsWith(s: string, prefix: string) {
    |prefix| <= |s| && s[..|prefix|] == prefix
  }
}
