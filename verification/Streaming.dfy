/** Re-framing the decode stream: a usage rewriter and a chat converter, each an
    incremental splitter and printer of server-sent events, and their composition. */
module Streaming {
  import opened Common
  import opened EventStream

  // ---------------------------------------------------------------- payloads

  type Json = string

  // Token counts beside other fields, or a usage object whose counts cannot be added up.
  datatype Usage =
    | Usage(prompt: Option<int>, completion: Option<int>, total: Option<int>, others: map<string, Json>)
    | OddUsage(json: Json)

  datatype Choice = Choice(index: Option<Json>, text: Option<Json>, logprobs: Json, finishReason: Json, others: map<string, Json>)

  // A list of objects, empty where the field is missing; or anything else.
  datatype Choices = Listed(list: seq<Choice>) | Odd(json: Json)

  // A JSON object read as a completion chunk; usage that is not an object is None.
  datatype Chunk = Chunk(fields: map<string, Json>, choices: Choices, usage: Option<Usage>)

  datatype Index = Given(json: Json) | Position(n: nat)

  datatype ChatChoice = ChatChoice(index: Index, role: Option<string>, content: Json, logprobs: Json, finishReason: Json)

  datatype ChatChunk = ChatChunk(fields: map<string, Json>, choices: seq<ChatChoice>, usage: Option<Usage>)

  const EmptyText: Json := "\"\""

  // JSON reading and printing; reading fails on anything that is not an object.
  datatype Codec = Codec(parse: string -> Option<Chunk>, render: Chunk -> string)

  // The chunk prints as one trimmed line that reads back as the chunk.
  ghost predicate Prints(codec: Codec, c: Chunk) {
    var text := codec.render(c);
    OneLiner(text) && Trimmed(text) && text != "[DONE]" && codec.parse(text) == Some(c)
  }

  // What the rewriter prints reads back: whatever was read, with its usage corrected.
  ghost predicate Faithful(codec: Codec) {
    forall t, c :: codec.parse(t) == Some(c) ==> Prints(codec, Rewritten(c))
  }

  function Or(x: Option<int>, default: int): int {
    if x.Some? then x.value else default
  }

  function MergeUsage(u: Usage): Usage
    requires u.Usage?
  {
    var prompt := if Or(u.prompt, 0) > 0 then Some(u.prompt.value - 1) else u.prompt;
    var completion := Some(Or(u.completion, 0) + 1);
    Usage(prompt, completion, Some(Or(prompt, 0) + completion.value), u.others)
  }

  /** Moving the prefill token from prompt to completion usage conserves their sum, which
      becomes the total; without a prompt token to move, the sum grows by one. */
  lemma MergeConserves(u: Usage)
    requires u.Usage?
    ensures var v := MergeUsage(u);
            && v.Usage?
            && Or(v.total, 0) == Or(v.prompt, 0) + Or(v.completion, 0)
            && Or(v.total, 0) == Or(u.prompt, 0) + Or(u.completion, 0) + (if Or(u.prompt, 0) > 0 then 0 else 1)
            && Or(v.completion, 0) == Or(u.completion, 0) + 1
            && (Or(u.prompt, 0) >= 0 ==> Or(v.prompt, 0) >= 0)
  {
  }

  // The rewriter raises on odd usage, the converter on odd choices.
  predicate Rewritable(c: Chunk) {
    c.usage.Some? ==> c.usage.value.Usage?
  }

  predicate Convertible(c: Chunk) {
    c.choices.Listed?
  }

  function Rewritten(c: Chunk): Chunk {
    if c.usage.Some? && c.usage.value.Usage? then c.(usage := Some(MergeUsage(c.usage.value))) else c
  }

  function ToChatChoice(c: Choice, position: nat): ChatChoice {
    ChatChoice(if c.index.Some? then Given(c.index.value) else Position(position), None,
               if c.text.Some? then c.text.value else EmptyText, c.logprobs, c.finishReason)
  }

  function ToChat(c: Chunk, metadata: map<string, Json>): ChatChunk
    requires Convertible(c)
  {
    ChatChunk(
      (c.fields + metadata)["object" := "\"chat.completion.chunk\""],
      seq(|c.choices.list|, i requires 0 <= i < |c.choices.list| => ToChatChoice(c.choices.list[i], i)),
      c.usage)
  }

  function WithRole(c: ChatChunk): ChatChunk
    requires c.choices != []
  {
    c.(choices := c.choices[0 := c.choices[0].(role := Some("assistant"))])
  }

  // ---------------------------------------------------------------- lines

  datatype Payload = NotData | DoneMarker | Data(chunk: Chunk) | Unreadable

  function Read(codec: Codec, line: string): Payload {
    if !StartsWith(line, "data:") then NotData
    else
      var payload := Strip(line[5..]);
      if payload == "[DONE]" then DoneMarker
      else
        match codec.parse(payload)
        case None => Unreadable
        case Some(c) => Data(c)
  }

  datatype Frame = DoneFrame | ChatFrame(chunk: ChatChunk)

  datatype Progress = Progress(frames: seq<Frame>, rolePending: bool, failed: bool)

  // Converting one line: nothing, one frame, or failure.  `edit` is applied to a chunk
  // before its conversion.
  function ConvertLine(codec: Codec, edit: Chunk -> Chunk, metadata: map<string, Json>, line: string, pending: bool): Progress
  {
    match Read(codec, line)
    case NotData => Progress([], pending, false)
    case Unreadable => Progress([], pending, true)
    case DoneMarker => Progress([DoneFrame], pending, false)
    case Data(c) =>
      if !Convertible(edit(c)) then Progress([], pending, true)
      else
        var out := ToChat(edit(c), metadata);
        if pending && out.choices != [] then Progress([ChatFrame(WithRole(out))], false, false)
        else Progress([ChatFrame(out)], pending, false)
  }

  // Nothing follows a failure.
  function Then(p: Progress, q: Progress): Progress {
    if p.failed then p else Progress(p.frames + q.frames, q.rolePending, q.failed)
  }

  lemma ThenAssociates(p: Progress, q: Progress, r: Progress)
    ensures Then(Then(p, q), r) == Then(p, Then(q, r))
  {
  }

  // Converting lines in order; an unreadable payload stops everything after it.
  function Convert(codec: Codec, edit: Chunk -> Chunk, metadata: map<string, Json>, lines: seq<string>, pending: bool): Progress
  {
    if lines == [] then Progress([], pending, false)
    else
      var p := ConvertLine(codec, edit, metadata, lines[0], pending);
      Then(p, Convert(codec, edit, metadata, lines[1..], p.rolePending))
  }

  function Same(): Chunk -> Chunk {
    c => c
  }

  function AllLines(events: seq<string>): seq<string> {
    if events == [] then [] else Lines(events[0]) + AllLines(events[1..])
  }

  lemma {:induction false} AllLinesConcat(a: seq<string>, b: seq<string>)
    ensures AllLines(a + b) == AllLines(a) + AllLines(b)
  {
    if a == [] {
      assert a + b == b;
    } else {
      AllLinesConcat(a[1..], b);
      assert (a + b)[0] == a[0] && (a + b)[1..] == a[1..] + b;
      Associates(Lines(a[0]), AllLines(a[1..]), AllLines(b));
    }
  }

  lemma {:induction false} ConvertConcat(
    codec: Codec, edit: Chunk -> Chunk, metadata: map<string, Json>, a: seq<string>, b: seq<string>, pending: bool)
    ensures var p := Convert(codec, edit, metadata, a, pending);
            Convert(codec, edit, metadata, a + b, pending) == Then(p, Convert(codec, edit, metadata, b, p.rolePending))
  {
    if a == [] {
      assert a + b == b;
    } else {
      assert (a + b)[0] == a[0] && (a + b)[1..] == a[1..] + b;
      var p := ConvertLine(codec, edit, metadata, a[0], pending);
      var q := Convert(codec, edit, metadata, a[1..], p.rolePending);
      ConvertConcat(codec, edit, metadata, a[1..], b, p.rolePending);
      ThenAssociates(p, q, Convert(codec, edit, metadata, b, q.rolePending));
    }
  }

  // ---------------------------------------------------------------- the chat converter

  datatype Ending = Clean | Incomplete | BadPayload

  datatype Converter = Converter(buffer: string, rolePending: bool, failed: bool)

  // The effect of one received chunk of text: the frames yielded and the state left behind.
  function Feed(codec: Codec, metadata: map<string, Json>, s: Converter, text: string): (Converter, seq<Frame>) {
    if s.failed then (s, []) else Take(codec, metadata, s.rolePending, Split(s.buffer + text))
  }

  function Take(codec: Codec, metadata: map<string, Json>, pending: bool, pieces: Pieces): (Converter, seq<Frame>) {
    var p := Convert(codec, Same(), metadata, AllLines(pieces.events), pending);
    (Converter(pieces.rest, p.rolePending, p.failed), p.frames)
  }

  lemma TakeTwice(codec: Codec, metadata: map<string, Json>, pending: bool, p: Pieces, q: Pieces)
    ensures var (t, f) := Take(codec, metadata, pending, p);
            var (u, g) := Take(codec, metadata, t.rolePending, q);
            var (v, h) := Take(codec, metadata, pending, Pieces(p.events + q.events, q.rest));
            if t.failed then v.failed && h == f else v == u && h == f + g
  {
    AllLinesConcat(p.events, q.events);
    ConvertConcat(codec, Same(), metadata, AllLines(p.events), AllLines(q.events), pending);
  }

  function FeedAll(codec: Codec, metadata: map<string, Json>, s: Converter, texts: seq<string>): (Converter, seq<Frame>)
    decreases |texts|
  {
    if texts == [] then (s, [])
    else
      var (t, frames) := Feed(codec, metadata, s, texts[0]);
      var (u, more) := FeedAll(codec, metadata, t, texts[1..]);
      (u, frames + more)
  }

  function EndOf(s: Converter): Ending {
    if s.failed then BadPayload else if Strip(s.buffer) != "" then Incomplete else Clean
  }

  function Concat(texts: seq<string>): string {
    if texts == [] then "" else texts[0] + Concat(texts[1..])
  }

  lemma FeedTwice(codec: Codec, metadata: map<string, Json>, s: Converter, a: string, b: string)
    ensures var (t, f) := Feed(codec, metadata, s, a);
            var (u, g) := Feed(codec, metadata, t, b);
            var (v, h) := Feed(codec, metadata, s, a + b);
            h == f + g && EndOf(v) == EndOf(u) && v.failed == u.failed && (!v.failed ==> v == u)
  {
    if !s.failed {
      var p := Split(s.buffer + a);
      SplitTwice(s.buffer, a, b);
      TakeTwice(codec, metadata, s.rolePending, p, Split(p.rest + b));
    }
  }

  lemma {:induction false} FeedAllIsFeed(codec: Codec, metadata: map<string, Json>, s: Converter, texts: seq<string>)
    requires FindBreak(s.buffer).None?
    ensures var (t, f) := FeedAll(codec, metadata, s, texts);
            var (u, g) := Feed(codec, metadata, s, Concat(texts));
            f == g && EndOf(t) == EndOf(u)
    decreases |texts|
  {
    if texts == [] {
      assert s.buffer + "" == s.buffer;
      assert Split(s.buffer) == Pieces([], s.buffer);
    } else {
      var t := Feed(codec, metadata, s, texts[0]).0;
      if !s.failed {
        RestIsOpen(s.buffer + texts[0]);
      }
      FeedAllIsFeed(codec, metadata, t, texts[1..]);
      FeedTwice(codec, metadata, s, texts[0], Concat(texts[1..]));
    }
  }

  /** Chunking independence: the frames emitted, their order, the placement of the role
      and how the stream ends depend only on the concatenated text. */
  lemma ChunkingIndependence(codec: Codec, metadata: map<string, Json>, role: bool, texts: seq<string>, texts': seq<string>)
    requires Concat(texts) == Concat(texts')
    ensures var start := Converter("", role, false);
            var (t, f) := FeedAll(codec, metadata, start, texts);
            var (u, g) := FeedAll(codec, metadata, start, texts');
            f == g && EndOf(t) == EndOf(u)
  {
    FeedAllIsFeed(codec, metadata, Converter("", role, false), texts);
    FeedAllIsFeed(codec, metadata, Converter("", role, false), texts');
  }

  // ---------------------------------------------------------------- what reaches the client

  predicate IsDataLine(line: string) {
    |line| >= 5 && line[..5] == "data:"
  }

  function PayloadOf(line: string): string
    requires IsDataLine(line)
  {
    Strip(line[5..])
  }

  // The payloads of the data lines, in order.
  function Payloads(lines: seq<string>): seq<string> {
    if lines == [] then []
    else (if IsDataLine(lines[0]) then [PayloadOf(lines[0])] else []) + Payloads(lines[1..])
  }

  // One completion token more, one prompt token fewer where there was one, and their sum as
  // total; everything else as it was.  Usage that is missing or odd stays so.
  predicate UsageMoved(before: Option<Usage>, after: Option<Usage>) {
    if before.None? || before.value.OddUsage? then after == before
    else
      && after.Some? && after.value.Usage?
      && var u, v := before.value, after.value;
         && v.others == u.others
         && v.prompt == (if u.prompt.Some? && u.prompt.value > 0 then Some(u.prompt.value - 1) else u.prompt)
         && v.completion == Some(if u.completion.Some? then u.completion.value + 1 else 1)
         && v.total == Some((if v.prompt.Some? then v.prompt.value else 0) + v.completion.value)
  }

  // The choice at a position, in the chat format: its text as content.
  predicate ChatOfChoice(c: Choice, position: nat, d: ChatChoice) {
    && d.content == (if c.text.Some? then c.text.value else "\"\"")
    && d.index == (if c.index.Some? then Given(c.index.value) else Position(position))
    && d.logprobs == c.logprobs && d.finishReason == c.finishReason
    && (d.role.None? || d.role == Some("assistant"))
  }

  // The chunk in the chat format: its choices by position, and its fields but for the metadata
  // and the object name.
  ghost predicate ChatOfChunk(c: Chunk, metadata: map<string, Json>, d: ChatChunk)
    requires c.choices.Listed?
  {
    && |d.choices| == |c.choices.list|
    && (forall i :: 0 <= i < |d.choices| ==> ChatOfChoice(c.choices.list[i], i, d.choices[i]))
    && d.fields.Keys == c.fields.Keys + metadata.Keys + {"object"}
    && d.fields["object"] == "\"chat.completion.chunk\""
    && (forall k :: k in metadata && k != "object" ==> d.fields[k] == metadata[k])
    && (forall k :: k in c.fields && k !in metadata && k != "object" ==> d.fields[k] == c.fields[k])
  }

  // The frame for a payload; with `corrected`, its usage is corrected on the way.
  ghost predicate Carries(codec: Codec, metadata: map<string, Json>, corrected: bool, payload: string, f: Frame) {
    if payload == "[DONE]" then f == DoneFrame
    else
      var c := codec.parse(payload);
      && c.Some? && c.value.choices.Listed? && f.ChatFrame?
      && ChatOfChunk(c.value, metadata, f.chunk)
      && if corrected then UsageMoved(c.value.usage, f.chunk.usage) else f.chunk.usage == c.value.usage
  }

  // The converter raises on it.
  predicate Refused(codec: Codec, payload: string) {
    payload != "[DONE]" && (codec.parse(payload).None? || !codec.parse(payload).value.choices.Listed?)
  }

  // One frame for each payload, in order, up to the first that is refused.
  ghost predicate FramesCarry(
    codec: Codec, metadata: map<string, Json>, corrected: bool, payloads: seq<string>, frames: seq<Frame>, failed: bool)
  {
    && |frames| <= |payloads|
    && (forall i :: 0 <= i < |frames| ==> Carries(codec, metadata, corrected, payloads[i], frames[i]))
    && (failed <==> |frames| < |payloads|)
    && (failed ==> Refused(codec, payloads[|frames|]))
  }

  // The edit of a chunk concerns its usage at most.
  ghost predicate EditsUsage(edit: Chunk -> Chunk, corrected: bool) {
    forall c :: EditsTo(c, edit(c), corrected)
  }

  predicate EditsTo(c: Chunk, d: Chunk, corrected: bool) {
    && d.fields == c.fields && d.choices == c.choices
    && if corrected then UsageMoved(c.usage, d.usage) else d.usage == c.usage
  }

  lemma RewritingEditsUsage()
    ensures EditsUsage(Rewritten, true) && EditsUsage(Same(), false)
  {
  }

  lemma ChatIsOfChunk(c: Chunk, d: Chunk, metadata: map<string, Json>)
    requires d.choices.Listed? && d.fields == c.fields && d.choices == c.choices
    ensures ChatOfChunk(c, metadata, ToChat(d, metadata)) && ToChat(d, metadata).usage == d.usage
    ensures var e := ToChat(d, metadata); e.choices != [] ==> ChatOfChunk(c, metadata, WithRole(e)) && WithRole(e).usage == d.usage
  {
    var e := ToChat(d, metadata);
    forall i | 0 <= i < |e.choices| ensures ChatOfChoice(c.choices.list[i], i, e.choices[i]) {
      assert e.choices[i] == ToChatChoice(d.choices.list[i], i);
    }
  }

  lemma LineCarries(codec: Codec, edit: Chunk -> Chunk, corrected: bool, metadata: map<string, Json>, line: string, pending: bool)
    requires EditsUsage(edit, corrected)
    ensures var p := ConvertLine(codec, edit, metadata, line, pending);
            FramesCarry(codec, metadata, corrected, if IsDataLine(line) then [PayloadOf(line)] else [], p.frames, p.failed)
  {
    var r := Read(codec, line);
    if r.Data? {
      assert EditsTo(r.chunk, edit(r.chunk), corrected);
      if Convertible(edit(r.chunk)) {
        ChatIsOfChunk(r.chunk, edit(r.chunk), metadata);
      }
    }
  }

  lemma CarryOn(
    codec: Codec, metadata: map<string, Json>, corrected: bool, a: seq<string>, b: seq<string>, p: Progress, q: Progress)
    requires FramesCarry(codec, metadata, corrected, a, p.frames, p.failed) && FramesCarry(codec, metadata, corrected, b, q.frames, q.failed)
    ensures FramesCarry(codec, metadata, corrected, a + b, Then(p, q).frames, Then(p, q).failed)
  {
    var frames := Then(p, q).frames;
    forall i | 0 <= i < |frames| ensures Carries(codec, metadata, corrected, (a + b)[i], frames[i]) {
      if i >= |p.frames| {
        assert frames[i] == q.frames[i - |a|] && (a + b)[i] == b[i - |a|];
      }
    }
  }

  /** The frames and the payloads of the data lines correspond one for one and in order, each
      chat frame with the texts and fields of its chunk, up to the first payload refused. */
  lemma {:induction false} ConvertCarries(
    codec: Codec, edit: Chunk -> Chunk, corrected: bool, metadata: map<string, Json>, lines: seq<string>, pending: bool)
    requires EditsUsage(edit, corrected)
    ensures var p := Convert(codec, edit, metadata, lines, pending);
            FramesCarry(codec, metadata, corrected, Payloads(lines), p.frames, p.failed)
  {
    if lines != [] {
      var p := ConvertLine(codec, edit, metadata, lines[0], pending);
      LineCarries(codec, edit, corrected, metadata, lines[0], pending);
      ConvertCarries(codec, edit, corrected, metadata, lines[1..], p.rolePending);
      CarryOn(codec, metadata, corrected, if IsDataLine(lines[0]) then [PayloadOf(lines[0])] else [], Payloads(lines[1..]),
              p, Convert(codec, edit, metadata, lines[1..], p.rolePending));
    }
  }

  /** A chat stream cut in any way: its frames carry what the upstream's own events say, and it
      ends in an error exactly at a payload refused or when text is left after the last event. */
  lemma ChatFollowsUpstream(codec: Codec, metadata: map<string, Json>, role: bool, texts: seq<string>)
    ensures var pieces := Split(Concat(texts));
            var (s, out) := FeedAll(codec, metadata, Converter("", role, false), texts);
            && FramesCarry(codec, metadata, false, Payloads(AllLines(pieces.events)), out, s.failed)
            && EndOf(s) == if s.failed then BadPayload else if Blank(pieces.rest) then Clean else Incomplete
  {
    FeedAllIsFeed(codec, metadata, Converter("", role, false), texts);
    assert "" + Concat(texts) == Concat(texts);
    RewritingEditsUsage();
    ConvertCarries(codec, Same(), false, metadata, AllLines(Split(Concat(texts)).events), role);
    StripBlank(Split(Concat(texts)).rest);
  }

  // ---------------------------------------------------------------- the assistant role

  function RolesIn(choices: seq<ChatChoice>): nat {
    if choices == [] then 0 else (if choices[0].role.Some? then 1 else 0) + RolesIn(choices[1..])
  }

  function Roles(frames: seq<Frame>): nat {
    if frames == [] then 0
    else (if frames[0].ChatFrame? then RolesIn(frames[0].chunk.choices) else 0) + Roles(frames[1..])
  }

  predicate HasChoices(f: Frame) {
    f.ChatFrame? && f.chunk.choices != []
  }

  // The first frame with choices, if any, carries the role on its first choice.
  predicate RoleOnFirst(frames: seq<Frame>) {
    if frames == [] then true
    else if HasChoices(frames[0]) then frames[0].chunk.choices[0].role == Some("assistant")
    else RoleOnFirst(frames[1..])
  }

  lemma {:induction false} NoRoles(choices: seq<ChatChoice>)
    requires forall i :: 0 <= i < |choices| ==> choices[i].role.None?
    ensures RolesIn(choices) == 0
  {
    if choices != [] {
      NoRoles(choices[1..]);
    }
  }

  lemma OneRole(c: ChatChunk)
    requires c.choices != [] && forall i :: 0 <= i < |c.choices| ==> c.choices[i].role.None?
    ensures RolesIn(WithRole(c).choices) == 1
  {
    NoRoles(c.choices[1..]);
    assert WithRole(c).choices[1..] == c.choices[1..];
  }

  /** With the role pending, a stream with any choices carries exactly one assistant role,
      on the first event that has choices; with the role already sent it carries none. */
  lemma {:induction false} ExactlyOneRole(
    codec: Codec, edit: Chunk -> Chunk, metadata: map<string, Json>, lines: seq<string>, pending: bool)
    ensures var p := Convert(codec, edit, metadata, lines, pending);
            && (!pending ==> Roles(p.frames) == 0 && !p.rolePending)
            && (pending ==> RoleOnFirst(p.frames))
            && (pending ==> (p.rolePending <==> forall f :: f in p.frames ==> !HasChoices(f)))
            && (pending ==> Roles(p.frames) == if p.rolePending then 0 else 1)
  {
    if lines != [] {
      var p := ConvertLine(codec, edit, metadata, lines[0], pending);
      LineRoles(codec, edit, metadata, lines[0], pending);
      if !p.failed {
        ExactlyOneRole(codec, edit, metadata, lines[1..], p.rolePending);
        var q := Convert(codec, edit, metadata, lines[1..], p.rolePending);
        if p.frames == [] {
          assert p.frames + q.frames == q.frames;
        } else {
          var f := p.frames[0];
          assert (p.frames + q.frames)[0] == f && (p.frames + q.frames)[1..] == q.frames;
          assert f in p.frames + q.frames;
        }
      }
    }
  }

  lemma LineRoles(codec: Codec, edit: Chunk -> Chunk, metadata: map<string, Json>, line: string, pending: bool)
    ensures var p := ConvertLine(codec, edit, metadata, line, pending);
            && |p.frames| <= 1 && (p.failed ==> p.frames == [])
            && (p.rolePending <==> pending && (p.frames != [] ==> !HasChoices(p.frames[0])))
            && Roles(p.frames) == (if pending && !p.rolePending then 1 else 0)
            && (pending && !p.rolePending ==> RoleOnFirst(p.frames))
  {
    var r := Read(codec, line);
    if r.Data? && Convertible(edit(r.chunk)) {
      var out := ToChat(edit(r.chunk), metadata);
      NoRoles(out.choices);
      if out.choices != [] {
        OneRole(out);
      }
    }
  }

  // ---------------------------------------------------------------- the usage rewriter

  // A data line is printed afresh from its corrected chunk; other lines stay.
  function RewriteLine(codec: Codec, line: string): Option<string> {
    match Read(codec, line)
    case NotData => Some(line)
    case DoneMarker => Some(line)
    case Unreadable => None
    case Data(c) => if Rewritable(c) then Some("data: " + codec.render(Rewritten(c))) else None
  }

  function RewriteLines(codec: Codec, lines: seq<string>): Option<seq<string>> {
    if lines == [] then Some([])
    else
      match RewriteLine(codec, lines[0])
      case None => None
      case Some(l) =>
        match RewriteLines(codec, lines[1..])
        case None => None
        case Some(ls) => Some([l] + ls)
  }

  // The event texts yielded before an unreadable payload, each printed with a separator.
  function RewriteEvents(codec: Codec, events: seq<string>): seq<string> {
    if events == [] then []
    else
      match RewriteLines(codec, Lines(events[0]))
      case None => []
      case Some(ls) => [Join(ls) + "\n\n"] + RewriteEvents(codec, events[1..])
  }

  lemma {:induction false} RewriteConcat(codec: Codec, a: seq<string>, b: seq<string>)
    ensures RewriteEvents(codec, a + b) ==
            if |RewriteEvents(codec, a)| < |a| then RewriteEvents(codec, a)
            else RewriteEvents(codec, a) + RewriteEvents(codec, b)
    ensures |RewriteEvents(codec, a)| <= |a|
  {
    if a == [] {
      assert a + b == b;
    } else {
      RewriteConcat(codec, a[1..], b);
      assert (a + b)[0] == a[0] && (a + b)[1..] == a[1..] + b;
      match RewriteLines(codec, Lines(a[0]))
      case None =>
      case Some(ls) => Associates([Join(ls) + "\n\n"], RewriteEvents(codec, a[1..]), RewriteEvents(codec, b));
    }
  }

  // Rewriting keeps an event an event, line for line.
  lemma {:induction false} RewriteKeepsLines(codec: Codec, lines: seq<string>)
    requires Faithful(codec) && RewriteLines(codec, lines).Some?
    ensures |RewriteLines(codec, lines).value| == |lines|
    ensures forall i :: 0 <= i < |lines| ==> RewriteLine(codec, lines[i]) == Some(RewriteLines(codec, lines).value[i])
  {
    if lines != [] {
      RewriteKeepsLines(codec, lines[1..]);
    }
  }

  lemma RewrittenLine(codec: Codec, line: string)
    requires Faithful(codec) && OneLiner(line) && RewriteLine(codec, line).Some?
    ensures OneLiner(RewriteLine(codec, line).value)
    ensures RewriteLine(codec, line).value == "" <==> line == ""
  {
    var r := Read(codec, line);
    if r.Data? {
      var text := codec.render(Rewritten(r.chunk));
      assert OneLiner(text);
      var l := "data: " + text;
      forall i | 0 <= i < |l| ensures l[i] != '\n' {
        if i >= 6 {
          assert l[i] == text[i - 6];
        }
      }
    }
  }

  lemma RewrittenEvent(codec: Codec, event: string)
    requires Faithful(codec) && EventText(event) && RewriteLines(codec, Lines(event)).Some?
    ensures EventLines(RewriteLines(codec, Lines(event)).value)
  {
    var lines := Lines(event);
    var out := RewriteLines(codec, lines).value;
    EventHasLines(event);
    RewriteKeepsLines(codec, lines);
    forall i | 0 <= i < |lines| ensures OneLiner(out[i]) && (out[i] == "" <==> lines[i] == "") {
      assert lines[i] in lines;
      RewrittenLine(codec, lines[i]);
    }
    forall i | 0 <= i < |out| - 1 ensures out[1..][i] != "" && OneLiner(out[1..][i]) {
      assert lines[1..][i] != "";
    }
  }

  /** Every frame the usage rewriter prints for an event of the stream is split again into
      exactly one event, whose lines are the rewritten lines of that event. */
  lemma FrameIsOneEvent(codec: Codec, event: string)
    requires Faithful(codec) && EventText(event) && RewriteLines(codec, Lines(event)).Some?
    ensures var ls := RewriteLines(codec, Lines(event)).value;
            Split(Join(ls) + "\n\n") == Pieces([Join(ls)], "") && Lines(Join(ls)) == ls
  {
    var ls := RewriteLines(codec, Lines(event)).value;
    RewrittenEvent(codec, event);
    JoinedLines(ls);
    FrameSplits(Join(ls));
  }

  lemma RewrittenReads(codec: Codec, line: string)
    requires Faithful(codec) && RewriteLine(codec, line).Some?
    ensures Read(codec, RewriteLine(codec, line).value) ==
            match Read(codec, line) case Data(c) => Data(Rewritten(c)) case other => other
  {
    var r := Read(codec, line);
    if r.Data? {
      var text := codec.render(Rewritten(r.chunk));
      var l := "data: " + text;
      assert l[..5] == "data:" && l[5..] == " " + text;
      assert Trimmed(text) && text != "[DONE]" && codec.parse(text) == Some(Rewritten(r.chunk));
      StripPadded(text);
    }
  }

  // Converting rewritten lines is converting the original ones with the correction built in.
  lemma {:induction false} ConvertRewritten(codec: Codec, metadata: map<string, Json>, lines: seq<string>, pending: bool)
    requires Faithful(codec) && RewriteLines(codec, lines).Some?
    ensures Convert(codec, Same(), metadata, RewriteLines(codec, lines).value, pending) ==
            Convert(codec, Rewritten, metadata, lines, pending)
  {
    if lines != [] {
      RewrittenReads(codec, lines[0]);
      var out := RewriteLines(codec, lines).value;
      assert out[1..] == RewriteLines(codec, lines[1..]).value;
      ConvertRewritten(codec, metadata, lines[1..], ConvertLine(codec, Rewritten, metadata, lines[0], pending).rolePending);
    }
  }

  // The converter between events, or failed, after it has made such progress.
  function Resting(p: Progress): (Converter, seq<Frame>) {
    (Converter("", p.rolePending, p.failed), p.frames)
  }

  // One rewritten event, fed to the chat converter.
  lemma OneStage(codec: Codec, metadata: map<string, Json>, event: string, pending: bool)
    requires Faithful(codec) && EventText(event) && RewriteLines(codec, Lines(event)).Some?
    ensures var p := Convert(codec, Rewritten, metadata, Lines(event), pending);
            Feed(codec, metadata, Converter("", pending, false), Join(RewriteLines(codec, Lines(event)).value) + "\n\n") == Resting(p)
  {
    FrameIsOneEvent(codec, event);
    OneEventFed(codec, metadata, RewriteLines(codec, Lines(event)).value, pending);
    ConvertRewritten(codec, metadata, Lines(event), pending);
  }

  lemma OneEventFed(codec: Codec, metadata: map<string, Json>, ls: seq<string>, pending: bool)
    requires Split(Join(ls) + "\n\n") == Pieces([Join(ls)], "") && Lines(Join(ls)) == ls
    ensures var p := Convert(codec, Same(), metadata, ls, pending);
            Feed(codec, metadata, Converter("", pending, false), Join(ls) + "\n\n") == Resting(p)
  {
    assert "" + (Join(ls) + "\n\n") == Join(ls) + "\n\n";
    assert AllLines([Join(ls)]) == ls;
  }

  lemma RewriteFirst(codec: Codec, events: seq<string>)
    requires RewriteEvents(codec, events) != []
    ensures events != [] && RewriteLines(codec, Lines(events[0])).Some?
    ensures RewriteEvents(codec, events)[0] == Join(RewriteLines(codec, Lines(events[0])).value) + "\n\n"
    ensures RewriteEvents(codec, events)[1..] == RewriteEvents(codec, events[1..])
  {
  }

  // Converting the first event's lines and then those of the next `n`.
  lemma ConvertFirst(codec: Codec, edit: Chunk -> Chunk, metadata: map<string, Json>, events: seq<string>, n: nat, pending: bool)
    requires n < |events|
    ensures var p := Convert(codec, edit, metadata, Lines(events[0]), pending);
            Convert(codec, edit, metadata, AllLines(events[..n + 1]), pending) ==
            Then(p, Convert(codec, edit, metadata, AllLines(events[1..][..n]), p.rolePending))
  {
    assert events[..n + 1][0] == events[0] && events[..n + 1][1..] == events[1..][..n];
    ConvertConcat(codec, edit, metadata, Lines(events[0]), AllLines(events[1..][..n]), pending);
  }

  lemma {:induction false} NothingAfterFailure(codec: Codec, metadata: map<string, Json>, s: Converter, texts: seq<string>)
    requires s.failed
    ensures FeedAll(codec, metadata, s, texts) == (s, [])
    decreases |texts|
  {
    if texts != [] {
      NothingAfterFailure(codec, metadata, s, texts[1..]);
      var none: seq<Frame> := [];
      assert none + none == none;
    }
  }

  // Progress on a first frame and on those after it is progress on all of them.
  lemma FirstThenRest(
    codec: Codec, metadata: map<string, Json>, first: string, rest: seq<string>, pending: bool, p: Progress, q: Progress)
    requires Feed(codec, metadata, Converter("", pending, false), first) == Resting(p)
    requires FeedAll(codec, metadata, Converter("", p.rolePending, false), rest) == Resting(q)
    ensures FeedAll(codec, metadata, Converter("", pending, false), [first] + rest) == Resting(Then(p, q))
  {
    assert ([first] + rest)[0] == first && ([first] + rest)[1..] == rest;
    if p.failed {
      NothingAfterFailure(codec, metadata, Converter("", p.rolePending, true), rest);
      assert p.frames + [] == p.frames;
    }
  }

  /** Stage composition: feeding the usage rewriter's frames to the chat converter yields,
      one for one and in order, what converting the upstream events directly with the
      corrected usage yields, and leaves the converter between events, or failed where the
      direct conversion fails. */
  lemma {:induction false} StagesCompose(codec: Codec, metadata: map<string, Json>, events: seq<string>, pending: bool)
    requires Faithful(codec) && forall e :: e in events ==> EventText(e)
    ensures |RewriteEvents(codec, events)| <= |events|
    ensures var frames := RewriteEvents(codec, events);
            FeedAll(codec, metadata, Converter("", pending, false), frames) ==
            Resting(Convert(codec, Rewritten, metadata, AllLines(events[..|frames|]), pending))
    decreases |events|
  {
    RewriteConcat(codec, events, []);
    var frames := RewriteEvents(codec, events);
    if frames != [] {
      RewriteFirst(codec, events);
      var n := |frames| - 1;
      var p := Convert(codec, Rewritten, metadata, Lines(events[0]), pending);
      var q := Convert(codec, Rewritten, metadata, AllLines(events[1..][..n]), p.rolePending);
      assert events[0] in events;
      OneStage(codec, metadata, events[0], pending);
      StagesCompose(codec, metadata, events[1..], p.rolePending);
      FirstThenRest(codec, metadata, frames[0], frames[1..], pending, p, q);
      ConvertFirst(codec, Rewritten, metadata, events, n, pending);
      assert frames == [frames[0]] + frames[1..];
    }
  }

  // ---------------------------------------------------------------- the whole pipeline

  datatype Rewriter = Rewriter(buffer: string, failed: bool)

  function FeedUsage(codec: Codec, s: Rewriter, text: string): (Rewriter, seq<string>) {
    if s.failed then (s, []) else TakeUsage(codec, Split(s.buffer + text))
  }

  function TakeUsage(codec: Codec, pieces: Pieces): (Rewriter, seq<string>) {
    var frames := RewriteEvents(codec, pieces.events);
    (Rewriter(pieces.rest, |frames| < |pieces.events|), frames)
  }

  lemma TakeUsageTwice(codec: Codec, p: Pieces, q: Pieces)
    ensures var (t, f) := TakeUsage(codec, p);
            var (u, g) := TakeUsage(codec, q);
            var (v, h) := TakeUsage(codec, Pieces(p.events + q.events, q.rest));
            if t.failed then v.failed && h == f else v == u && h == f + g
  {
    RewriteSplit(codec, p.events, q.events);
  }

  function FeedUsageAll(codec: Codec, s: Rewriter, texts: seq<string>): (Rewriter, seq<string>)
    decreases |texts|
  {
    if texts == [] then (s, [])
    else
      var (t, frames) := FeedUsage(codec, s, texts[0]);
      var (u, more) := FeedUsageAll(codec, t, texts[1..]);
      (u, frames + more)
  }

  lemma RewriteSplit(codec: Codec, a: seq<string>, b: seq<string>)
    ensures var r, s, t := RewriteEvents(codec, a), RewriteEvents(codec, b), RewriteEvents(codec, a + b);
            && t == (if |r| < |a| then r else r + s)
            && (|t| < |a + b| <==> |r| < |a| || |s| < |b|)
  {
    RewriteConcat(codec, a, b);
    RewriteConcat(codec, b, []);
  }

  lemma FeedUsageTwice(codec: Codec, s: Rewriter, a: string, b: string)
    ensures var (t, f) := FeedUsage(codec, s, a);
            var (u, g) := FeedUsage(codec, t, b);
            var (v, h) := FeedUsage(codec, s, a + b);
            h == f + g && v.failed == u.failed && (!v.failed ==> v == u)
  {
    if !s.failed {
      var p := Split(s.buffer + a);
      SplitTwice(s.buffer, a, b);
      TakeUsageTwice(codec, p, Split(p.rest + b));
    }
  }

  lemma {:induction false} FeedUsageAllIsFeed(codec: Codec, s: Rewriter, texts: seq<string>)
    requires FindBreak(s.buffer).None?
    ensures var (t, f) := FeedUsageAll(codec, s, texts);
            var (u, g) := FeedUsage(codec, s, Concat(texts));
            f == g && t.failed == u.failed && (!t.failed ==> t == u)
    decreases |texts|
  {
    if texts == [] {
      assert s.buffer + "" == s.buffer;
      assert Split(s.buffer) == Pieces([], s.buffer);
    } else {
      var t := FeedUsage(codec, s, texts[0]).0;
      if !s.failed {
        RestIsOpen(s.buffer + texts[0]);
      }
      FeedUsageAllIsFeed(codec, t, texts[1..]);
      FeedUsageTwice(codec, s, texts[0], Concat(texts[1..]));
    }
  }

  // How the rewriter ends: in a payload it cannot take, or in text after the last event.
  function EndOfUsage(s: Rewriter): Ending {
    if s.failed then BadPayload else if Strip(s.buffer) != "" then Incomplete else Clean
  }

  // The rewriter on the upstream's texts, and the converter on the rewriter's frames.
  function Pipeline(codec: Codec, metadata: map<string, Json>, texts: seq<string>, pending: bool): (Rewriter, Converter, seq<Frame>) {
    var (u, middle) := FeedUsageAll(codec, Rewriter("", false), texts);
    var (s, out) := FeedAll(codec, metadata, Converter("", pending, false), middle);
    (u, s, out)
  }

  // ---------------------------------------------------------------- what the rewriter prints

  // The rewriter raises on it: no object, or usage that cannot be added up.
  predicate Stops(codec: Codec, line: string) {
    && IsDataLine(line) && PayloadOf(line) != "[DONE]"
    && (codec.parse(PayloadOf(line)).None?
        || (codec.parse(PayloadOf(line)).value.usage.Some? && codec.parse(PayloadOf(line)).value.usage.value.OddUsage?))
  }

  // The line printed for a line: the same chunk with its usage corrected, or the line itself.
  predicate LineCorrected(codec: Codec, line: string, out: string) {
    if !IsDataLine(line) || PayloadOf(line) == "[DONE]" then out == line
    else
      && IsDataLine(out) && PayloadOf(out) != "[DONE]"
      && var c, d := codec.parse(PayloadOf(line)), codec.parse(PayloadOf(out));
         && c.Some? && d.Some?
         && d.value.fields == c.value.fields && d.value.choices == c.value.choices
         && UsageMoved(c.value.usage, d.value.usage)
  }

  // The frame is one event, of the corrected lines.
  ghost predicate FrameCorrected(codec: Codec, event: string, frame: string) {
    && |frame| >= 2
    && var out := frame[..|frame| - 2];
       && Split(frame) == Pieces([out], "")
       && |Lines(out)| == |Lines(event)|
       && forall i :: 0 <= i < |Lines(event)| ==> LineCorrected(codec, Lines(event)[i], Lines(out)[i])
  }

  ghost predicate StopsIn(codec: Codec, event: string) {
    exists l :: l in Lines(event) && Stops(codec, l)
  }

  // One frame for each event, in order, up to the first in which it stops.
  ghost predicate FramesCorrected(codec: Codec, events: seq<string>, frames: seq<string>, failed: bool) {
    && |frames| <= |events|
    && (failed <==> |frames| < |events|)
    && (forall i :: 0 <= i < |frames| ==> !StopsIn(codec, events[i]))
    && (failed ==> StopsIn(codec, events[|frames|]))
    && (Faithful(codec) ==> forall i :: 0 <= i < |frames| ==> FrameCorrected(codec, events[i], frames[i]))
  }

  lemma RewriteStops(codec: Codec, line: string)
    ensures RewriteLine(codec, line).None? <==> Stops(codec, line)
  {
  }

  lemma {:induction false} RewriteStopsIn(codec: Codec, lines: seq<string>)
    ensures RewriteLines(codec, lines).None? <==> exists l :: l in lines && Stops(codec, l)
  {
    if lines != [] {
      RewriteStops(codec, lines[0]);
      RewriteStopsIn(codec, lines[1..]);
      assert forall l :: l in lines <==> l == lines[0] || l in lines[1..];
    }
  }

  lemma LineIsCorrected(codec: Codec, line: string)
    requires Faithful(codec) && RewriteLine(codec, line).Some?
    ensures LineCorrected(codec, line, RewriteLine(codec, line).value)
  {
    RewrittenReads(codec, line);
    RewritingEditsUsage();
    var r := Read(codec, line);
    if r.Data? {
      assert EditsTo(r.chunk, Rewritten(r.chunk), true);
    }
  }

  lemma EventIsCorrected(codec: Codec, event: string)
    requires Faithful(codec) && EventText(event) && RewriteLines(codec, Lines(event)).Some?
    ensures FrameCorrected(codec, event, Join(RewriteLines(codec, Lines(event)).value) + "\n\n")
  {
    var lines, ls := Lines(event), RewriteLines(codec, Lines(event)).value;
    FrameIsOneEvent(codec, event);
    RewriteKeepsLines(codec, lines);
    var frame := Join(ls) + "\n\n";
    assert frame[..|frame| - 2] == Join(ls);
    forall i | 0 <= i < |lines| ensures LineCorrected(codec, lines[i], ls[i]) {
      LineIsCorrected(codec, lines[i]);
    }
  }

  /** What the rewriter prints, event by event: frames that split into one event each, whose
      lines read back as the chunks received, with their usage corrected. */
  lemma {:induction false} RewritingCorrects(codec: Codec, events: seq<string>)
    requires forall e :: e in events ==> EventText(e)
    ensures FramesCorrected(codec, events, RewriteEvents(codec, events), |RewriteEvents(codec, events)| < |events|)
  {
    if events != [] {
      RewriteStopsIn(codec, Lines(events[0]));
      RewritingCorrects(codec, events[1..]);
      var rest := RewriteEvents(codec, events[1..]);
      if RewriteLines(codec, Lines(events[0])).Some? {
        var frame := Join(RewriteLines(codec, Lines(events[0])).value) + "\n\n";
        if Faithful(codec) {
          EventIsCorrected(codec, events[0]);
        }
        OneMoreCorrected(codec, events[0], events[1..], frame, rest, |rest| < |events| - 1);
        assert events == [events[0]] + events[1..];
      }
    }
  }

  lemma OneMoreCorrected(codec: Codec, event: string, events: seq<string>, frame: string, frames: seq<string>, failed: bool)
    requires !StopsIn(codec, event) && (Faithful(codec) ==> FrameCorrected(codec, event, frame))
    requires FramesCorrected(codec, events, frames, failed)
    ensures FramesCorrected(codec, [event] + events, [frame] + frames, failed)
  {
    var es, fs := [event] + events, [frame] + frames;
    forall i | 0 <= i < |fs| ensures !StopsIn(codec, es[i]) && (Faithful(codec) ==> FrameCorrected(codec, es[i], fs[i])) {
      assert i > 0 ==> es[i] == events[i - 1] && fs[i] == frames[i - 1];
    }
    assert failed ==> es[|fs|] == events[|frames|];
  }

  /** The same for a stream cut in any way; it ends in an error exactly at an event that stops
      the rewriter or when text is left after the last event. */
  lemma UsageFollowsUpstream(codec: Codec, texts: seq<string>)
    ensures var pieces := Split(Concat(texts));
            var (u, frames) := FeedUsageAll(codec, Rewriter("", false), texts);
            && FramesCorrected(codec, pieces.events, frames, u.failed)
            && EndOfUsage(u) == if u.failed then BadPayload else if Blank(pieces.rest) then Clean else Incomplete
  {
    FeedUsageAllIsFeed(codec, Rewriter("", false), texts);
    assert "" + Concat(texts) == Concat(texts);
    SplitEvents(Concat(texts));
    RewritingCorrects(codec, Split(Concat(texts)).events);
    StripBlank(Split(Concat(texts)).rest);
  }

  // The events before the first in which the rewriter stops.
  ghost predicate PassedEvents(codec: Codec, events: seq<string>, n: nat) {
    && n <= |events|
    && (forall i :: 0 <= i < n ==> !StopsIn(codec, events[i]))
    && (n < |events| ==> StopsIn(codec, events[n]))
  }

  /** Through both stages, however the upstream is cut: the client receives one frame for each
      payload that passes, with its texts and fields and the usage corrected. */
  lemma PipelineCarriesUpstream(codec: Codec, metadata: map<string, Json>, texts: seq<string>, pending: bool) returns (n: nat)
    requires Faithful(codec)
    ensures var events := Split(Concat(texts)).events;
            var (u, s, out) := Pipeline(codec, metadata, texts, pending);
            && PassedEvents(codec, events, n) && (u.failed <==> n < |events|)
            && FramesCarry(codec, metadata, true, Payloads(AllLines(events[..n])), out, s.failed)
  {
    var events := Split(Concat(texts)).events;
    n := |RewriteEvents(codec, events)|;
    SplitEvents(Concat(texts));
    RewritingCorrects(codec, events);
    FeedUsageAllIsFeed(codec, Rewriter("", false), texts);
    assert "" + Concat(texts) == Concat(texts);
    StagesCompose(codec, metadata, events, pending);
    RewritingEditsUsage();
    ConvertCarries(codec, Rewritten, true, metadata, AllLines(events[..n]), pending);
  }

  // ---------------------------------------------------------------- the pipeline's endings and role

  // A data line that the rewriter passes and the converter does not take.
  predicate OddLine(codec: Codec, line: string) {
    var r := Read(codec, line);
    r.Data? && !Convertible(r.chunk)
  }

  // A conversion fails exactly at a line it cannot read or convert.
  lemma {:induction false} FailsAtOddLine(
    codec: Codec, metadata: map<string, Json>, lines: seq<string>, pending: bool)
    ensures Convert(codec, Rewritten, metadata, lines, pending).failed <==>
            exists l :: l in lines && (Read(codec, l).Unreadable? || OddLine(codec, l))
  {
    if lines != [] {
      var p := ConvertLine(codec, Rewritten, metadata, lines[0], pending);
      FailsAtOddLine(codec, metadata, lines[1..], p.rolePending);
      assert forall l :: l in lines <==> l == lines[0] || l in lines[1..];
    }
  }

  // The rewriter passes no unreadable line.
  lemma {:induction false} PassedLinesReadable(codec: Codec, lines: seq<string>)
    requires RewriteLines(codec, lines).Some?
    ensures forall l :: l in lines ==> !Read(codec, l).Unreadable?
  {
    if lines != [] {
      PassedLinesReadable(codec, lines[1..]);
      assert forall l :: l in lines <==> l == lines[0] || l in lines[1..];
    }
  }

  lemma {:induction false} PassedEventsReadable(codec: Codec, events: seq<string>)
    ensures |RewriteEvents(codec, events)| <= |events|
    ensures forall l :: l in AllLines(events[..|RewriteEvents(codec, events)|]) ==> !Read(codec, l).Unreadable?
  {
    RewriteConcat(codec, events, []);
    if RewriteEvents(codec, events) != [] {
      var n := |RewriteEvents(codec, events)| - 1;
      PassedLinesReadable(codec, Lines(events[0]));
      PassedEventsReadable(codec, events[1..]);
      assert events[..n + 1][0] == events[0] && events[..n + 1][1..] == events[1..][..n];
    }
  }

  /** The two stages together, on an upstream cut in any way: the chat frames are those of
      the upstream's own events with corrected usage, up to a payload that one of the stages
      cannot take; without one, every event passes through.  The rewriter fails exactly at a
      payload that is no object or has odd usage, or when an event is incomplete; the
      converter exactly at a payload, passed by the rewriter, whose choices are no list of
      objects. */
  lemma PipelineFollowsUpstream(codec: Codec, metadata: map<string, Json>, texts: seq<string>, pending: bool)
    requires Faithful(codec)
    ensures var pieces := Split(Concat(texts));
            var passed := |RewriteEvents(codec, pieces.events)|;
            var (u, s, out) := Pipeline(codec, metadata, texts, pending);
            && passed <= |pieces.events|
            && out == Convert(codec, Rewritten, metadata, AllLines(pieces.events[..passed]), pending).frames
            && EndOf(s) == (if exists l :: l in AllLines(pieces.events[..passed]) && OddLine(codec, l) then BadPayload else Clean)
            && EndOfUsage(u) == (if passed < |pieces.events| then BadPayload
                                 else if Strip(pieces.rest) != "" then Incomplete else Clean)
  {
    var text := Concat(texts);
    var events := Split(text).events;
    FeedUsageAllIsFeed(codec, Rewriter("", false), texts);
    assert "" + text == text;
    SplitEvents(text);
    StagesCompose(codec, metadata, events, pending);
    PassedEventsReadable(codec, events);
    FailsAtOddLine(codec, metadata, AllLines(events[..|RewriteEvents(codec, events)|]), pending);
  }

  /** The two stages carry exactly one assistant role if any frame has choices, on the first
      that does; none when the role was sent before. */
  lemma PipelineCarriesOneRole(codec: Codec, metadata: map<string, Json>, texts: seq<string>, pending: bool)
    requires Faithful(codec)
    ensures var out := Pipeline(codec, metadata, texts, pending).2;
            && (pending ==> RoleOnFirst(out))
            && Roles(out) == if pending && exists f :: f in out && HasChoices(f) then 1 else 0
  {
    PipelineFollowsUpstream(codec, metadata, texts, pending);
    var events := Split(Concat(texts)).events;
    ExactlyOneRole(codec, Rewritten, metadata, AllLines(events[..|RewriteEvents(codec, events)|]), pending);
  }

  // The chunk carrying the prefill token, sent before the decode stream of a chat.
  function HeadChunk(fields: map<string, Json>, token: Json): ChatChunk {
    ToChat(Chunk(fields, Listed([Choice(Some("0"), Some(token), "null", "null", map[])]), None), map[])
  }

  function HeadFrame(fields: map<string, Json>, token: Json): Frame {
    ChatFrame(WithRole(HeadChunk(fields, token)))
  }

  /** The head frame has the one choice whose content is the prefill token. */
  lemma HeadCarriesTheToken(fields: map<string, Json>, token: Json)
    ensures var f := HeadFrame(fields, token);
            && f.ChatFrame? && f.chunk.usage.None?
            && f.chunk.choices == [ChatChoice(Given("0"), Some("assistant"), token, "null", "null")]
            && f.chunk.fields == fields["object" := "\"chat.completion.chunk\""]
  {
    var none: map<string, Json> := map[];
    assert fields + none == fields;
  }

  /** A chat stream that starts with the prefill token, whatever follows from the decode
      instance, carries exactly one assistant role, on that first frame. */
  lemma HeadCarriesTheRole(codec: Codec, metadata: map<string, Json>, fields: map<string, Json>, token: Json, texts: seq<string>)
    requires Faithful(codec)
    ensures var frames := [HeadFrame(fields, token)] + Pipeline(codec, metadata, texts, false).2;
            Roles(frames) == 1 && RoleOnFirst(frames)
  {
    var head, rest := HeadFrame(fields, token), Pipeline(codec, metadata, texts, false).2;
    PipelineCarriesOneRole(codec, metadata, texts, false);
    OneRole(HeadChunk(fields, token));
    assert ([head] + rest)[0] == head && ([head] + rest)[1..] == rest;
  }

  // ---------------------------------------------------------------- the generators

  class ChatCompletionStream {
    const codec: Codec
    const metadata: map<string, Json>
    var buffer: string
    var rolePending: bool
    var failed: bool

    ghost function Abs(): Converter
      reads this
    {
      Converter(buffer, rolePending, failed)
    }

    constructor (codec: Codec, metadata: map<string, Json>, includeRole: bool)
      ensures this.codec == codec && this.metadata == metadata
      ensures Abs() == Converter("", includeRole, false)
    {
      this.codec, this.metadata := codec, metadata;
      buffer, rolePending, failed := "", includeRole, false;
    }

    // One received chunk of text.  After an unreadable payload the generator is finished.
    method Receive(chunk: string) returns (frames: seq<Frame>)
      modifies this
      ensures var (after, out) := Feed(codec, metadata, old(Abs()), chunk);
              frames == out && failed == after.failed && (!failed ==> Abs() == after)
      ensures !old(failed) ==>
                FramesCarry(codec, metadata, false, Payloads(AllLines(Split(old(buffer) + chunk).events)), frames, failed)
    {
      RewritingEditsUsage();
      ConvertCarries(codec, Same(), false, metadata, AllLines(Split(buffer + chunk).events), rolePending);
      frames := ConvertReceived(chunk);
    }

    method ConvertReceived(chunk: string) returns (frames: seq<Frame>)
      modifies this
      ensures var (after, out) := Feed(codec, metadata, old(Abs()), chunk);
              frames == out && failed == after.failed && (!failed ==> Abs() == after)
    {
      frames := [];
      if failed {
        return;
      }
      buffer := buffer + chunk;
      ghost var text, pending := buffer, rolePending;
      ghost var done: seq<string> := [];
      while FindBreak(buffer).Some?
        invariant !failed
        invariant Split(text) == Pieces(done + Split(buffer).events, Split(buffer).rest)
        invariant Convert(codec, Same(), metadata, AllLines(done), pending) == Progress(frames, rolePending, false)
        decreases |buffer|
      {
        var i := FindBreak(buffer).value;
        var event := buffer[..i];
        SplitOff(buffer, i, event, buffer[i + 2..]);
        buffer := buffer[i + 2..];
        var sofar := frames;
        ghost var before := rolePending;
        var more := ConvertEvent(event);
        frames := sofar + more;
        ConvertConcat(codec, Same(), metadata, AllLines(done), Lines(event), pending);
        OneMoreEvent(done, event, Split(buffer).events);
        if failed {
          AllLinesConcat(done + [event], Split(buffer).events);
          ConvertConcat(codec, Same(), metadata, AllLines(done + [event]), AllLines(Split(buffer).events), pending);
          return;
        }
        done := done + [event];
      }
      assert Split(buffer) == Pieces([], buffer);
      assert done + [] == done;
    }

    method ConvertEvent(event: string) returns (frames: seq<Frame>)
      requires !failed
      modifies `rolePending, `failed
      ensures Convert(codec, Same(), metadata, Lines(event), old(rolePending)) == Progress(frames, rolePending, failed)
    {
      frames := [];
      var lines := Lines(event);
      ghost var pending := rolePending;
      for n := 0 to |lines|
        invariant !failed
        invariant Convert(codec, Same(), metadata, lines, pending) ==
                  Then(Progress(frames, rolePending, false), Convert(codec, Same(), metadata, lines[n..], rolePending))
      {
        ghost var done := Progress(frames, rolePending, false);
        OneMoreLine(codec, metadata, lines, n, done);
        var more := ConvertOne(lines[n]);
        assert Then(done, Progress(more, rolePending, failed)) == Progress(frames + more, rolePending, failed);
        frames := frames + more;
        if failed {
          return;
        }
      }
      assert frames + [] == frames;
    }

    method ConvertOne(line: string) returns (frames: seq<Frame>)
      requires !failed
      modifies `rolePending, `failed
      ensures ConvertLine(codec, Same(), metadata, line, old(rolePending)) == Progress(frames, rolePending, failed)
    {
      var r := Read(codec, line);
      if r.NotData? {
        return [];
      }
      if r.DoneMarker? {
        return [DoneFrame];
      }
      if r.Unreadable? || !Convertible(r.chunk) {
        failed := true;
        return [];
      }
      var output := ToChat(r.chunk, metadata);
      if rolePending && output.choices != [] {
        output := WithRole(output);
        rolePending := false;
      }
      return [ChatFrame(output)];
    }

    // The end of the upstream text.
    method Finish() returns (e: Ending)
      ensures e == EndOf(Abs()) == if failed then BadPayload else if Blank(buffer) then Clean else Incomplete
    {
      StripBlank(buffer);
      if failed {
        return BadPayload;
      }
      return if Strip(buffer) != "" then Incomplete else Clean;
    }
  }

  lemma OneMoreLine(codec: Codec, metadata: map<string, Json>, lines: seq<string>, n: nat, done: Progress)
    requires n < |lines|
    ensures var p := ConvertLine(codec, Same(), metadata, lines[n], done.rolePending);
            Then(done, Convert(codec, Same(), metadata, lines[n..], done.rolePending)) ==
            Then(Then(done, p), Convert(codec, Same(), metadata, lines[n + 1..], p.rolePending))
  {
    var p := ConvertLine(codec, Same(), metadata, lines[n], done.rolePending);
    assert lines[n..][0] == lines[n] && lines[n..][1..] == lines[n + 1..];
    ThenAssociates(done, p, Convert(codec, Same(), metadata, lines[n + 1..], p.rolePending));
  }

  lemma OneMoreEvent(done: seq<string>, event: string, rest: seq<string>)
    ensures done + ([event] + rest) == (done + [event]) + rest
    ensures AllLines(done + [event]) == AllLines(done) + Lines(event)
  {
    AllLinesConcat(done, [event]);
    assert AllLines([event]) == Lines(event) by {
      assert [event][1..] == [];
      assert Lines(event) + [] == Lines(event);
    }
  }

  lemma OneRewrittenEvent(codec: Codec, event: string)
    ensures RewriteEvents(codec, [event]) ==
            match RewriteLines(codec, Lines(event)) case None => [] case Some(ls) => [Join(ls) + "\n\n"]
  {
    assert [event][1..] == [];
  }

  function Prefixed(out: seq<string>, r: Option<seq<string>>): Option<seq<string>> {
    match r
    case None => None
    case Some(ls) => Some(out + ls)
  }

  lemma PrefixedStep(out: seq<string>, line: string, r: Option<seq<string>>)
    ensures Prefixed([], r) == r
    ensures Prefixed(out, Prefixed([line], r)) == Prefixed(out + [line], r)
  {
    if r.Some? {
      assert [] + r.value == r.value;
      assert out + ([line] + r.value) == (out + [line]) + r.value;
    }
  }

  class UsageGenerator {
    const codec: Codec
    var buffer: string
    var failed: bool

    ghost function Abs(): Rewriter
      reads this
    {
      Rewriter(buffer, failed)
    }

    constructor (codec: Codec)
      ensures this.codec == codec && Abs() == Rewriter("", false)
    {
      this.codec := codec;
      buffer, failed := "", false;
    }

    method Receive(chunk: string) returns (frames: seq<string>)
      modifies this
      ensures var (after, out) := FeedUsage(codec, old(Abs()), chunk);
              frames == out && failed == after.failed && (!failed ==> Abs() == after)
      ensures !old(failed) ==> FramesCorrected(codec, Split(old(buffer) + chunk).events, frames, failed)
    {
      ghost var text := buffer + chunk;
      SplitEvents(text);
      RewritingCorrects(codec, Split(text).events);
      frames := RewriteReceived(chunk);
    }

    method RewriteReceived(chunk: string) returns (frames: seq<string>)
      modifies this
      ensures var (after, out) := FeedUsage(codec, old(Abs()), chunk);
              frames == out && failed == after.failed && (!failed ==> Abs() == after)
    {
      frames := [];
      if failed {
        return;
      }
      buffer := buffer + chunk;
      ghost var text := buffer;
      ghost var done: seq<string> := [];
      while FindBreak(buffer).Some?
        invariant !failed
        invariant Split(text) == Pieces(done + Split(buffer).events, Split(buffer).rest)
        invariant RewriteEvents(codec, done) == frames && |frames| == |done|
        decreases |buffer|
      {
        var i := FindBreak(buffer).value;
        var event := buffer[..i];
        SplitOff(buffer, i, event, buffer[i + 2..]);
        buffer := buffer[i + 2..];
        OneMoreEvent(done, event, Split(buffer).events);
        var lines := RewriteEvent(event);
        OneRewrittenEvent(codec, event);
        RewriteSplit(codec, done, [event]);
        if failed {
          RewriteSplit(codec, done + [event], Split(buffer).events);
          return;
        }
        frames := frames + [Join(lines) + "\n\n"];
        done := done + [event];
      }
      assert Split(buffer) == Pieces([], buffer);
      assert done + [] == done;
    }

    // The end of the upstream text.
    method Finish() returns (e: Ending)
      ensures e == EndOfUsage(Abs()) == if failed then BadPayload else if Blank(buffer) then Clean else Incomplete
    {
      StripBlank(buffer);
      if failed {
        return BadPayload;
      }
      return if Strip(buffer) != "" then Incomplete else Clean;
    }

    // An unreadable payload raises before anything of its event is yielded.
    method RewriteEvent(event: string) returns (out: seq<string>)
      requires !failed
      modifies `failed
      ensures failed <==> RewriteLines(codec, Lines(event)).None?
      ensures !failed ==> RewriteLines(codec, Lines(event)) == Some(out)
    {
      out := [];
      var lines := Lines(event);
      PrefixedStep([], "", RewriteLines(codec, lines));
      assert lines[0..] == lines;
      for n := 0 to |lines|
        invariant !failed
        invariant RewriteLines(codec, lines) == Prefixed(out, RewriteLines(codec, lines[n..]))
      {
        var line := lines[n];
        assert lines[n..][0] == line && lines[n..][1..] == lines[n + 1..];
        var r := Read(codec, line);
        if r.Unreadable? || (r.Data? && !Rewritable(r.chunk)) {
          failed := true;
          return;
        }
        PrefixedStep(out, RewriteLine(codec, line).value, RewriteLines(codec, lines[n + 1..]));
        if r.Data? {
          line := "data: " + codec.render(Rewritten(r.chunk));
        }
        out := out + [line];
      }
      assert out + [] == out;
    }
  }
}
