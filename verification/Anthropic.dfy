/** Translation of Anthropic messages to OpenAI chat completions, whole and streamed
    (internal/protocol/anthropic.go). Messages and events are taken as parsed. */
module AnthropicTypes {
  import opened Options

  /** A content block. input is the raw JSON of a tool call, empty when the field is absent. */
  datatype Block = Text(text: string) | ToolUse(id: string, name: string, input: string) | OtherBlock

  datatype Message = Message(content: seq<Block>, stopReason: string)

  datatype ToolCall = ToolCall(id: string, name: string, arguments: string)

  /** The assistant message of a completion; content None is JSON null. */
  datatype Completion = Completion(content: Option<string>, toolCalls: seq<ToolCall>, finish: string)

  /** The table of stop reasons; anything else, and a missing one, is "stop". */
  function FinishReason(stopReason: string): string {
    if stopReason == "end_turn" then "stop"
    else if stopReason == "stop_sequence" then "stop"
    else if stopReason == "max_tokens" then "length"
    else if stopReason == "tool_use" then "tool_calls"
    else "stop"
  }

  /** A streamed event. OtherEvent stands for pings and for deltas that carry neither text nor tool
      input; EventError for an error event. */
  datatype Event =
    | MessageStart(id: string)
    | BlockStart(block: BlockKind)
    | TextDelta(text: string)
    | InputDelta(partialJson: string)
    | BlockStop
    | MessageDelta(stopReason: string)
    | MessageStop
    | OtherEvent
    | EventError

  datatype BlockKind = PlainBlock | ToolBlock(id: string, name: string)

  /** One frame of the OpenAI stream: a chunk, or the [DONE] marker. */
  datatype Frame =
    | RoleChunk
    | ContentChunk(content: string)
    | ToolStartChunk(index: int, id: string, name: string)
    | ToolInputChunk(index: int, arguments: string)
    | FinishChunk(finish: string)
    | DoneFrame
}

module AnthropicToOpenAI {
  import opened Options
  import opened AnthropicTypes

  function TextOf(content: seq<Block>): string {
    if content == [] then ""
    else TextOf(content[..|content| - 1]) + if content[|content| - 1].Text? then content[|content| - 1].text else ""
  }

  /** The tool calls of a message; a call without input has the empty object as its arguments. */
  function ToolCallsOf(content: seq<Block>): seq<ToolCall> {
    if content == [] then []
    else
      var b := content[|content| - 1];
      ToolCallsOf(content[..|content| - 1])
        + if b.ToolUse? then [ToolCall(b.id, b.name, if |b.input| > 0 then b.input else "{}")] else []
  }

  function Whole(m: Message): Completion {
    var text, calls := TextOf(m.content), ToolCallsOf(m.content);
    Completion(if calls != [] && text == "" then None else Some(text), calls,
               if calls != [] then "tool_calls" else FinishReason(m.stopReason))
  }

  ghost predicate CallsTools(content: seq<Block>) {
    exists b :: b in content && b.ToolUse?
  }

  lemma {:induction false} CallsIffTools(content: seq<Block>)
    ensures ToolCallsOf(content) != [] <==> CallsTools(content)
  {
    if content != [] {
      var n := |content| - 1;
      CallsIffTools(content[..n]);
      assert content == content[..n] + [content[n]];
    }
  }

  lemma FinishReasons(stopReason: string)
    ensures FinishReason(stopReason) ==
            if stopReason == "max_tokens" then "length" else if stopReason == "tool_use" then "tool_calls" else "stop"
  {
    assert |"end_turn"| == 8 && |"stop_sequence"| == 13 && |"max_tokens"| == 10;
  }

  lemma WholeFinish(m: Message)
    ensures Whole(m).finish == if CallsTools(m.content) || m.stopReason == "tool_use" then "tool_calls"
                               else if m.stopReason == "max_tokens" then "length" else "stop"
  {
    CallsIffTools(m.content);
    FinishReasons(m.stopReason);
  }

  /** The non-streaming conversion. The answer counts as cut off exactly if the message stopped for its limit without
      calling tools, and as calling tools exactly if it calls some or stopped for that; otherwise it has ended. */
  method Convert(m: Message) returns (c: Completion)
    ensures c == Whole(m)
    ensures c.finish == if CallsTools(m.content) || m.stopReason == "tool_use" then "tool_calls"
                        else if m.stopReason == "max_tokens" then "length" else "stop"
  {
    WholeFinish(m);
    var sb := "";
    var toolCalls: seq<ToolCall> := [];
    for i := 0 to |m.content|
      invariant sb == TextOf(m.content[..i]) && toolCalls == ToolCallsOf(m.content[..i])
    {
      assert m.content[..i + 1][..i] == m.content[..i];
      match m.content[i]
      case Text(text) => sb := sb + text;
      case ToolUse(id, name, input) =>
        var args := "{}";
        if |input| > 0 {
          args := input;
        }
        toolCalls := toolCalls + [ToolCall(id, name, args)];
      case OtherBlock =>
    }
    assert m.content[..|m.content|] == m.content;
    var finish := FinishReason(m.stopReason);
    var content := Some(sb);
    if |toolCalls| > 0 {
      if |sb| == 0 {
        content := None;
      }
      finish := "tool_calls";
    }
    return Completion(content, toolCalls, finish);
  }
}

/** The streaming translator as a transducer from events to frames. */
module AnthropicStream {
  import opened AnthropicTypes
  import opened AnthropicReader

  datatype Handled = Handled(frames: seq<Frame>, toolIndex: int, stopped: bool, failed: bool)

  function Handle(e: Event, toolIndex: int): Handled {
    match e
    case MessageStart(_) => Handled([RoleChunk], toolIndex, false, false)
    case BlockStart(PlainBlock) => Handled([], toolIndex, false, false)
    case BlockStart(ToolBlock(id, name)) => Handled([ToolStartChunk(toolIndex + 1, id, name)], toolIndex + 1, false, false)
    case TextDelta(text) => Handled(if text == "" then [] else [ContentChunk(text)], toolIndex, false, false)
    case InputDelta(part) => Handled(if part == "" then [] else [ToolInputChunk(toolIndex, part)], toolIndex, false, false)
    case MessageDelta(stopReason) => Handled([FinishChunk(FinishReason(stopReason)), DoneFrame], toolIndex, true, false)
    case MessageStop => Handled([DoneFrame], toolIndex, true, false)
    case EventError => Handled([], toolIndex, false, true)
    case BlockStop => Handled([], toolIndex, false, false)
    case OtherEvent => Handled([], toolIndex, false, false)
  }

  /** The frames of an event sequence: translation ends at the first stop or error. */
  function Translate(events: seq<Event>, toolIndex: int): seq<Frame> {
    if events == [] then []
    else
      var h := Handle(events[0], toolIndex);
      if h.stopped || h.failed then h.frames else h.frames + Translate(events[1..], h.toolIndex)
  }

  /** Whether the sequence runs into an error event before it stops. */
  predicate EndsInError(events: seq<Event>) {
    events != [] && (events[0].EventError? || (!events[0].MessageDelta? && !events[0].MessageStop? && EndsInError(events[1..])))
  }

  /** Whether the sequence is properly ended: a stop comes before any error. */
  predicate Finishes(events: seq<Event>) {
    events != [] && (events[0].MessageDelta? || events[0].MessageStop? || (!events[0].EventError? && Finishes(events[1..])))
  }

  /** The end marker comes last, if it comes. */
  predicate MarksEnd(frames: seq<Frame>, ended: bool) {
    && (forall i :: 0 <= i < |frames| && frames[i] == DoneFrame ==> i == |frames| - 1)
    && (ended <==> frames != [] && frames[|frames| - 1] == DoneFrame)
  }

  lemma FramesInFront(front: seq<Frame>, rest: seq<Frame>, ended: bool)
    requires (forall i :: 0 <= i < |front| ==> front[i] != DoneFrame) && MarksEnd(rest, ended)
    ensures MarksEnd(front + rest, ended)
  {
    var all := front + rest;
    assert forall i :: |front| <= i < |all| ==> all[i] == rest[i - |front|];
  }

  lemma FramesOfOne(e: Event, toolIndex: int)
    ensures var h := Handle(e, toolIndex);
            if h.stopped || h.failed then MarksEnd(h.frames, h.stopped) && (h.stopped <==> e.MessageDelta? || e.MessageStop?)
            else !e.MessageDelta? && !e.MessageStop? && !e.EventError? && forall i :: 0 <= i < |h.frames| ==> h.frames[i] != DoneFrame
  {
  }

  /** For every event sequence [DONE] comes at most once and only as the last frame; it comes exactly
      when the sequence is properly ended. */
  lemma {:induction false} DoneIsLast(events: seq<Event>, toolIndex: int)
    ensures var frames := Translate(events, toolIndex);
            && (forall i :: 0 <= i < |frames| && frames[i] == DoneFrame ==> i == |frames| - 1)
            && (Finishes(events) <==> frames != [] && frames[|frames| - 1] == DoneFrame)
  {
    if events != [] {
      var h := Handle(events[0], toolIndex);
      FramesOfOne(events[0], toolIndex);
      if !h.stopped && !h.failed {
        DoneIsLast(events[1..], h.toolIndex);
        FramesInFront(h.frames, Translate(events[1..], h.toolIndex), Finishes(events[1..]));
      }
    }
    assert MarksEnd(Translate(events, toolIndex), Finishes(events));
  }

  /** What the events of a stream mean. */
  function Decoded(raws: seq<Raw>, decode: Raw -> Event): seq<Event> {
    if raws == [] then [] else [decode(raws[0])] + Decoded(raws[1..], decode)
  }

  /** Whether translation ends in an error: by an error event, or because the connection breaks before the
      stream has properly ended. */
  predicate Fails(events: seq<Event>, broken: bool) {
    EndsInError(events) || (broken && !Finishes(events))
  }

  lemma FailsOne(events: seq<Event>, broken: bool, toolIndex: int)
    requires events != []
    ensures var h := Handle(events[0], toolIndex); Fails(events, broken) <==> h.failed || (!h.stopped && Fails(events[1..], broken))
  {
  }

  /** The reader that the proxy copies from: buffered output and a pull loop over the events. */
  class StreamTransformer {
    const render: Frame -> string
    const decode: Raw -> Event
    const broken: bool  // the connection ends with an error

    var src: string  // the bytes not read yet
    var out: string
    var stopped: bool
    var failed: bool
    var toolIndex: int

    /** The events not read yet. */
    ghost function Coming(): seq<Event>
      reads this
    {
      Decoded(Events(src), decode)
    }

    /** What they will still add to the buffer. */
    ghost function Tail(): string
      reads this
    {
      if stopped || failed then "" else RenderAll(Translate(Coming(), toolIndex), render)
    }

    /** Everything that is still to be delivered. */
    ghost function Rest(): string
      reads this
    {
      out + Tail()
    }

    /** Whether delivery will end in an error rather than at the end of the stream. */
    ghost function WillFail(): bool
      reads this
    {
      failed || (!stopped && Fails(Coming(), broken))
    }

    constructor (src: string, broken: bool, decode: Raw -> Event, render: Frame -> string)
      ensures this.src == src && this.broken == broken && this.decode == decode && this.render == render
      ensures Rest() == RenderAll(Translate(Decoded(Events(src), decode), -1), render)
      ensures WillFail() == Fails(Decoded(Events(src), decode), broken)
    {
      this.src, this.broken, this.decode, this.render := src, broken, decode, render;
      out, stopped, failed, toolIndex := "", false, false, -1;
      new;
      assert "" + Tail() == Tail();
    }

    /** Reads the lines of one event and its frames into the buffer, or only an empty line; at the end the
        stream counts as stopped, or as failed if the connection broke. */
    method NextEvent()
      requires !stopped && !failed && out == ""
      modifies this
      ensures Rest() == old(Tail()) && WillFail() == old(WillFail())
      ensures |src| <= old(|src|) && (stopped || failed || |src| < old(|src|))
    {
      var next := ReadEvent(src);
      match next {
        case End =>
          stopped, failed := !broken, broken;
        case Blank(rest) =>
          src := rest;
          assert "" + Tail() == Tail();
        case Got(raw, rest) =>
          Buffer(raw, rest);
      }
    }

    /** The frames of the event that has been read go into the buffer. */
    method Buffer(raw: Raw, rest: string)
      requires !stopped && !failed && Events(src) == [raw] + Events(rest)
      modifies this
      ensures Rest() == old(Tail()) && WillFail() == old(WillFail()) && src == rest
    {
      var h := Handle(decode(raw), toolIndex);
      FirstToCome(raw, Events(rest), decode, toolIndex, render, broken);
      Accept(h, rest);
    }

    /** What the handling of an event has come to is entered in the fields. */
    method Accept(h: Handled, rest: string)
      requires !stopped && !failed
      requires var more := Decoded(Events(rest), decode);
               && Tail() == RenderAll(h.frames, render) + (if h.stopped || h.failed then "" else RenderAll(Translate(more, h.toolIndex), render))
               && (WillFail() <==> h.failed || (!h.stopped && Fails(more, broken)))
      modifies this
      ensures Rest() == old(Tail()) && WillFail() == old(WillFail()) && src == rest
    {
      out := RenderAll(h.frames, render);
      toolIndex, stopped, failed := h.toolIndex, h.stopped, h.failed;
      src := rest;
    }

    /** One Read into a buffer of the given size: a non-empty piece of what is left, and nothing only
        at the end, where it reports the error or the end of the stream. */
    method Read(size: nat) returns (data: string, ended: bool, error: bool)
      requires size > 0
      modifies this
      ensures |data| <= size && old(Rest()) == data + Rest()
      ensures ended <==> data == ""
      ensures ended ==> Rest() == "" && error == WillFail()
      ensures WillFail() == old(WillFail())
      ensures !ended ==> !error
    {
      while |out| == 0
        invariant Rest() == old(Rest()) && WillFail() == old(WillFail())
        decreases |src|, if stopped || failed then 0 else 1
      {
        assert "" + Tail() == Tail();
        if stopped || failed {
          return "", true, failed;
        }
        NextEvent();
      }
      var n := if size < |out| then size else |out|;
      data, ended, error := out[..n], false, false;
      Regroup(out, n, Tail());
      out := out[n..];
    }
  }

  /** What the first of the events to come adds. */
  lemma FirstToCome(raw: Raw, raws: seq<Raw>, decode: Raw -> Event, toolIndex: int, render: Frame -> string, broken: bool)
    ensures var h, events, more := Handle(decode(raw), toolIndex), Decoded([raw] + raws, decode), Decoded(raws, decode);
            && RenderAll(Translate(events, toolIndex), render) ==
               RenderAll(h.frames, render) + (if h.stopped || h.failed then "" else RenderAll(Translate(more, h.toolIndex), render))
            && (Fails(events, broken) <==> h.failed || (!h.stopped && Fails(more, broken)))
  {
    DecodedFront(raw, raws, decode);
    TranslateOne(Decoded([raw] + raws, decode), toolIndex, render);
    FailsOne(Decoded([raw] + raws, decode), broken, toolIndex);
  }

  lemma Appended(all: string, data: string, rest: string)
    ensures all + (data + rest) == (all + data) + rest
  {
  }

  lemma DecodedFront(raw: Raw, raws: seq<Raw>, decode: Raw -> Event)
    ensures Decoded([raw] + raws, decode) == [decode(raw)] + Decoded(raws, decode)
    ensures ([decode(raw)] + Decoded(raws, decode))[1..] == Decoded(raws, decode)
  {
    assert ([raw] + raws)[1..] == raws;
  }

  lemma Regroup(s: string, n: nat, t: string)
    requires n <= |s|
    ensures s + t == s[..n] + (s[n..] + t)
  {
  }

  lemma TranslateOne(events: seq<Event>, toolIndex: int, render: Frame -> string)
    requires events != []
    ensures var h := Handle(events[0], toolIndex);
            RenderAll(Translate(events, toolIndex), render) ==
            RenderAll(h.frames, render) + if h.stopped || h.failed then "" else RenderAll(Translate(events[1..], h.toolIndex), render)
  {
    var h := Handle(events[0], toolIndex);
    if h.stopped || h.failed {
      assert RenderAll(h.frames, render) + "" == RenderAll(h.frames, render);
    } else {
      RenderConcat(h.frames, Translate(events[1..], h.toolIndex), render);
    }
  }

  function RenderAll(frames: seq<Frame>, render: Frame -> string): string {
    if frames == [] then "" else render(frames[0]) + RenderAll(frames[1..], render)
  }

  lemma {:induction false} RenderConcat(a: seq<Frame>, b: seq<Frame>, render: Frame -> string)
    ensures RenderAll(a + b, render) == RenderAll(a, render) + RenderAll(b, render)
  {
    if a == [] {
      assert a + b == b;
    } else {
      assert (a + b)[1..] == a[1..] + b;
      RenderConcat(a[1..], b, render);
    }
  }

  /** A copy loop with arbitrary positive buffer sizes: as long as the sizes last, it delivers the one
      output that the events determine, and reports an error exactly when they contain one. */
  method CopyAll(t: StreamTransformer, sizes: nat -> nat) returns (all: string, error: bool)
    requires forall i :: sizes(i) > 0
    modifies t
    ensures all == old(t.Rest()) && error == old(t.WillFail())
  {
    all, error := "", false;
    var i := 0;
    var ended := false;
    assert "" + t.Rest() == t.Rest();
    while !ended
      invariant all + t.Rest() == old(t.Rest()) && t.WillFail() == old(t.WillFail())
      invariant ended ==> t.Rest() == "" && error == t.WillFail()
      decreases !ended, |t.Rest()|
    {
      var data;
      ghost var before := all;
      data, ended, error := t.Read(sizes(i));
      Appended(before, data, t.Rest());
      all := all + data;
      i := i + 1;
    }
  }
}

/** The two translations mean the same thing. */
module AnthropicAgreement {
  import opened Options
  import opened AnthropicTypes
  import opened AnthropicToOpenAI
  import opened AnthropicStream

  /** A streamed block: the pieces its text or input arrives in, of any number and size. */
  datatype Streamed = StreamedText(parts: seq<string>) | StreamedTool(id: string, name: string, parts: seq<string>) | StreamedOther

  function Join(parts: seq<string>): string {
    if parts == [] then "" else parts[0] + Join(parts[1..])
  }

  function BlockOf(s: Streamed): Block {
    match s
    case StreamedText(parts) => Text(Join(parts))
    case StreamedTool(id, name, parts) => ToolUse(id, name, Join(parts))
    case StreamedOther => OtherBlock
  }

  function Blocks(ss: seq<Streamed>): (bs: seq<Block>)
    ensures |bs| == |ss|
  {
    seq(|ss|, i requires 0 <= i < |ss| => BlockOf(ss[i]))
  }

  function Deltas(parts: seq<string>, tool: bool): seq<Event> {
    if parts == [] then [] else [if tool then InputDelta(parts[0]) else TextDelta(parts[0])] + Deltas(parts[1..], tool)
  }

  function BlockEvents(s: Streamed): seq<Event> {
    match s
    case StreamedText(parts) => [BlockStart(PlainBlock)] + Deltas(parts, false) + [BlockStop]
    case StreamedTool(id, name, parts) => [BlockStart(ToolBlock(id, name))] + Deltas(parts, true) + [BlockStop]
    case StreamedOther => [BlockStart(PlainBlock), OtherEvent, BlockStop]
  }

  function AllBlockEvents(ss: seq<Streamed>): seq<Event> {
    if ss == [] then [] else AllBlockEvents(ss[..|ss| - 1]) + BlockEvents(ss[|ss| - 1])
  }

  /** The event stream of a message that arrives in the given pieces. */
  function EventsOf(ss: seq<Streamed>, stopReason: string): seq<Event> {
    [MessageStart("")] + AllBlockEvents(ss) + [MessageDelta(stopReason), MessageStop]
  }

  /** An OpenAI client: content is concatenated, tool calls are assembled by index, the finish reason
      is the last one given. */
  datatype Client = Client(content: string, toolCalls: seq<ToolCall>, finish: string)

  function Absorb(c: Client, f: Frame): Client {
    match f
    case ContentChunk(content) => c.(content := c.content + content)
    case ToolStartChunk(index, id, name) =>
      if index == |c.toolCalls| then c.(toolCalls := c.toolCalls + [ToolCall(id, name, "")])
      else if 0 <= index < |c.toolCalls| then c.(toolCalls := c.toolCalls[index := ToolCall(id, name, "")])
      else c
    case ToolInputChunk(index, arguments) =>
      if 0 <= index < |c.toolCalls|
      then c.(toolCalls := c.toolCalls[index := c.toolCalls[index].(arguments := c.toolCalls[index].arguments + arguments)])
      else c
    case FinishChunk(finish) => c.(finish := finish)
    case RoleChunk => c
    case DoneFrame => c
  }

  function AbsorbAll(c: Client, frames: seq<Frame>): Client
    decreases |frames|
  {
    if frames == [] then c else AbsorbAll(Absorb(c, frames[0]), frames[1..])
  }

  lemma {:induction false} AbsorbConcat(c: Client, a: seq<Frame>, b: seq<Frame>)
    ensures AbsorbAll(c, a + b) == AbsorbAll(AbsorbAll(c, a), b)
    decreases |a|
  {
    if a == [] {
      assert a + b == b;
    } else {
      assert (a + b)[1..] == a[1..] + b;
      AbsorbConcat(Absorb(c, a[0]), a[1..], b);
    }
  }

  /** Events that neither stop nor fail leave the rest of the translation to the rest of the events. */
  predicate Plain(e: Event) {
    !e.MessageDelta? && !e.MessageStop? && !e.EventError?
  }

  function IndexAfter(events: seq<Event>, toolIndex: int): int {
    if events == [] then toolIndex else IndexAfter(events[1..], Handle(events[0], toolIndex).toolIndex)
  }

  lemma {:induction false} TranslateConcat(a: seq<Event>, b: seq<Event>, toolIndex: int)
    requires forall e :: e in a ==> Plain(e)
    ensures Translate(a + b, toolIndex) == Translate(a, toolIndex) + Translate(b, IndexAfter(a, toolIndex))
  {
    if a == [] {
      assert a + b == b;
    } else {
      assert (a + b)[1..] == a[1..] + b && a[0] in a;
      var h := Handle(a[0], toolIndex);
      TranslateConcat(a[1..], b, h.toolIndex);
      PlainStep(a, toolIndex);
      PlainStep(a + b, toolIndex);
      Grouped(h.frames, Translate(a[1..], h.toolIndex), Translate(b, IndexAfter(a[1..], h.toolIndex)));
    }
  }

  lemma PlainStep(events: seq<Event>, toolIndex: int)
    requires events != [] && Plain(events[0])
    ensures var h := Handle(events[0], toolIndex); Translate(events, toolIndex) == h.frames + Translate(events[1..], h.toolIndex)
  {
  }

  lemma Grouped<T>(a: seq<T>, b: seq<T>, c: seq<T>)
    ensures a + (b + c) == a + b + c
  {
  }

  /** The client after the frames of some events. */
  function Seen(c: Client, events: seq<Event>, toolIndex: int): Client {
    AbsorbAll(c, Translate(events, toolIndex))
  }

  lemma SeenConcat(c: Client, a: seq<Event>, b: seq<Event>, toolIndex: int)
    requires forall e :: e in a ==> Plain(e)
    ensures Seen(c, a + b, toolIndex) == Seen(Seen(c, a, toolIndex), b, IndexAfter(a, toolIndex))
  {
    TranslateConcat(a, b, toolIndex);
    AbsorbConcat(c, Translate(a, toolIndex), Translate(b, IndexAfter(a, toolIndex)));
  }

  lemma {:induction false} TextDeltasSeen(c: Client, parts: seq<string>, toolIndex: int)
    ensures forall e :: e in Deltas(parts, false) ==> Plain(e)
    ensures IndexAfter(Deltas(parts, false), toolIndex) == toolIndex
    ensures Seen(c, Deltas(parts, false), toolIndex) == c.(content := c.content + Join(parts))
    decreases |parts|
  {
    if parts == [] {
      assert c.content + "" == c.content;
    } else {
      var first, rest := [TextDelta(parts[0])], Deltas(parts[1..], false);
      var c1 := c.(content := c.content + parts[0]);
      SeenConcat(c, first, rest, toolIndex);
      assert Seen(c, first, toolIndex) == c1 by {
        var h := Handle(first[0], toolIndex);
        assert first[1..] == [] && Translate(first, toolIndex) == h.frames + [] == h.frames;
        if parts[0] == "" { assert c1 == c; } else { assert AbsorbAll(Absorb(c, h.frames[0]), h.frames[1..]) == c1; }
      }
      TextDeltasSeen(c1, parts[1..], toolIndex);
      assert c.content + parts[0] + Join(parts[1..]) == c.content + (parts[0] + Join(parts[1..]));
    }
  }

  lemma ArgumentsAppended(calls: seq<ToolCall>, i: nat, part: string, more: string)
    requires i < |calls|
    ensures var call := calls[i];
            var once := calls[i := call.(arguments := call.arguments + part)];
            once[i := once[i].(arguments := once[i].arguments + more)] == calls[i := call.(arguments := call.arguments + (part + more))]
  {
    assert calls[i].arguments + part + more == calls[i].arguments + (part + more);
  }

  lemma {:induction false} ToolDeltasSeen(c: Client, parts: seq<string>, toolIndex: int)
    requires 0 <= toolIndex < |c.toolCalls|
    ensures forall e :: e in Deltas(parts, true) ==> Plain(e)
    ensures IndexAfter(Deltas(parts, true), toolIndex) == toolIndex
    ensures Seen(c, Deltas(parts, true), toolIndex)
            == c.(toolCalls := c.toolCalls[toolIndex := c.toolCalls[toolIndex].(arguments := c.toolCalls[toolIndex].arguments + Join(parts))])
    decreases |parts|
  {
    var call := c.toolCalls[toolIndex];
    if parts == [] {
      assert call.arguments + "" == call.arguments && c.toolCalls[toolIndex := call] == c.toolCalls;
    } else {
      var first, rest := [InputDelta(parts[0])], Deltas(parts[1..], true);
      var c1 := c.(toolCalls := c.toolCalls[toolIndex := call.(arguments := call.arguments + parts[0])]);
      SeenConcat(c, first, rest, toolIndex);
      OneToolDelta(c, parts[0], toolIndex);
      ToolDeltasSeen(c1, parts[1..], toolIndex);
      ArgumentsAppended(c.toolCalls, toolIndex, parts[0], Join(parts[1..]));
    }
  }

  lemma OneToolDelta(c: Client, part: string, toolIndex: int)
    requires 0 <= toolIndex < |c.toolCalls|
    ensures var call := c.toolCalls[toolIndex];
            Seen(c, [InputDelta(part)], toolIndex) == c.(toolCalls := c.toolCalls[toolIndex := call.(arguments := call.arguments + part)])
  {
    var first, call := [InputDelta(part)], c.toolCalls[toolIndex];
    var c1 := c.(toolCalls := c.toolCalls[toolIndex := call.(arguments := call.arguments + part)]);
    var h := Handle(first[0], toolIndex);
    assert first[1..] == [] && Translate(first, toolIndex) == h.frames + [] == h.frames;
    if part == "" {
      assert call.arguments + "" == call.arguments && c1.toolCalls == c.toolCalls;
    } else {
      assert AbsorbAll(Absorb(c, h.frames[0]), h.frames[1..]) == c1;
    }
  }

  /** What one block adds to the client. */
  function AddBlock(c: Client, s: Streamed): Client {
    match s
    case StreamedText(parts) => c.(content := c.content + Join(parts))
    case StreamedTool(id, name, parts) => c.(toolCalls := c.toolCalls + [ToolCall(id, name, Join(parts))])
    case StreamedOther => c
  }

  /** A single event without frames of its own, or with one. */
  lemma OneEventSeen(c: Client, e: Event, toolIndex: int)
    requires Plain(e)
    ensures IndexAfter([e], toolIndex) == Handle(e, toolIndex).toolIndex
    ensures Handle(e, toolIndex).frames == [] ==> Seen(c, [e], toolIndex) == c
    ensures |Handle(e, toolIndex).frames| == 1 ==> Seen(c, [e], toolIndex) == Absorb(c, Handle(e, toolIndex).frames[0])
  {
    var h := Handle(e, toolIndex);
    assert [e][1..] == [] && Translate([e], toolIndex) == h.frames + [] == h.frames;
    if |h.frames| == 1 {
      assert AbsorbAll(Absorb(c, h.frames[0]), h.frames[1..]) == Absorb(c, h.frames[0]);
    }
  }

  lemma IndexAfterConcat(a: seq<Event>, b: seq<Event>, toolIndex: int)
    ensures IndexAfter(a + b, toolIndex) == IndexAfter(b, IndexAfter(a, toolIndex))
  {
    if a == [] {
      assert a + b == b;
    } else {
      assert (a + b)[1..] == a[1..] + b;
      IndexAfterConcat(a[1..], b, Handle(a[0], toolIndex).toolIndex);
    }
  }

  /** Three stretches of a block: its start, its deltas, its stop. */
  lemma Stretches(c: Client, start: Event, deltas: seq<Event>, toolIndex: int)
    requires Plain(start) && forall e :: e in deltas ==> Plain(e)
    ensures var i := Handle(start, toolIndex).toolIndex;
            var events := [start] + deltas + [BlockStop];
            && Seen(c, events, toolIndex) == Seen(Seen(c, [start], toolIndex), deltas, i)
            && IndexAfter(events, toolIndex) == IndexAfter(deltas, i)
            && forall e :: e in events ==> Plain(e)
  {
    var i := Handle(start, toolIndex).toolIndex;
    var events := [start] + deltas + [BlockStop];
    OneEventSeen(c, start, toolIndex);
    SeenConcat(c, [start], deltas, toolIndex);
    SeenConcat(c, [start] + deltas, [BlockStop], toolIndex);
    IndexAfterConcat([start], deltas, toolIndex);
    IndexAfterConcat([start] + deltas, [BlockStop], toolIndex);
    OneEventSeen(Seen(c, [start] + deltas, toolIndex), BlockStop, IndexAfter(deltas, i));
  }

  lemma BlockSeen(c: Client, s: Streamed)
    ensures var i := |c.toolCalls| - 1;
            && Seen(c, BlockEvents(s), i) == AddBlock(c, s)
            && IndexAfter(BlockEvents(s), i) == |AddBlock(c, s).toolCalls| - 1
            && forall e :: e in BlockEvents(s) ==> Plain(e)
  {
    var i := |c.toolCalls| - 1;
    match s
    case StreamedText(parts) =>
      TextDeltasSeen(c, parts, i);
      Stretches(c, BlockStart(PlainBlock), Deltas(parts, false), i);
      OneEventSeen(c, BlockStart(PlainBlock), i);
    case StreamedTool(id, name, parts) =>
      var start := BlockStart(ToolBlock(id, name));
      var c1 := c.(toolCalls := c.toolCalls + [ToolCall(id, name, "")]);
      OneEventSeen(c, start, i);
      assert Seen(c, [start], i) == c1;
      ToolDeltasSeen(c1, parts, i + 1);
      Stretches(c, start, Deltas(parts, true), i);
      assert "" + Join(parts) == Join(parts);
      assert c1.toolCalls[i + 1 := ToolCall(id, name, Join(parts))] == AddBlock(c, s).toolCalls;
    case StreamedOther =>
      assert BlockEvents(s) == [BlockStart(PlainBlock)] + [OtherEvent] + [BlockStop];
      OneEventSeen(c, BlockStart(PlainBlock), i);
      OneEventSeen(c, OtherEvent, i);
      Stretches(c, BlockStart(PlainBlock), [OtherEvent], i);
  }

  /** The tool calls as streamed: arguments are exactly the joined pieces. */
  function RawCalls(ss: seq<Streamed>): seq<ToolCall> {
    if ss == [] then []
    else
      var s := ss[|ss| - 1];
      RawCalls(ss[..|ss| - 1]) + if s.StreamedTool? then [ToolCall(s.id, s.name, Join(s.parts))] else []
  }

  lemma {:induction false} AllBlocksSeen(ss: seq<Streamed>)
    ensures var c := Client("", [], "");
            && Seen(c, AllBlockEvents(ss), -1) == Client(TextOf(Blocks(ss)), RawCalls(ss), "")
            && IndexAfter(AllBlockEvents(ss), -1) == |RawCalls(ss)| - 1
            && forall e :: e in AllBlockEvents(ss) ==> Plain(e)
  {
    if ss != [] {
      var before, s := ss[..|ss| - 1], ss[|ss| - 1];
      AllBlocksSeen(before);
      assert Blocks(ss)[..|ss| - 1] == Blocks(before);
      var c, c1 := Client("", [], ""), Client(TextOf(Blocks(before)), RawCalls(before), "");
      BlockSeen(c1, s);
      SeenConcat(c, AllBlockEvents(before), BlockEvents(s), -1);
      IndexAfterConcat(AllBlockEvents(before), BlockEvents(s), -1);
      assert AddBlock(c1, s) == Client(TextOf(Blocks(ss)), RawCalls(ss), "");
    }
  }

  function StreamedMessage(ss: seq<Streamed>, stopReason: string): Message {
    Message(Blocks(ss), stopReason)
  }

  /** What a client has assembled at the end of the stream. */
  function StreamResult(ss: seq<Streamed>, stopReason: string): Client {
    Seen(Client("", [], ""), EventsOf(ss, stopReason), -1)
  }

  lemma EndSeen(c: Client, stopReason: string, toolIndex: int)
    ensures Seen(c, [MessageDelta(stopReason), MessageStop], toolIndex) == c.(finish := FinishReason(stopReason))
  {
    var finish := FinishChunk(FinishReason(stopReason));
    assert Translate([MessageDelta(stopReason), MessageStop], toolIndex) == [finish, DoneFrame] == [finish] + [DoneFrame];
    AbsorbConcat(c, [finish], [DoneFrame]);
    assert AbsorbAll(Absorb(c, finish), []) == c.(finish := FinishReason(stopReason));
  }

  lemma StreamResultIs(ss: seq<Streamed>, stopReason: string)
    ensures StreamResult(ss, stopReason) == Client(TextOf(Blocks(ss)), RawCalls(ss), FinishReason(stopReason))
  {
    var c := Client("", [], "");
    var start, body, end := [MessageStart("")], AllBlockEvents(ss), [MessageDelta(stopReason), MessageStop];
    AllBlocksSeen(ss);
    OneEventSeen(c, MessageStart(""), -1);
    SeenConcat(c, start, body, -1);
    SeenConcat(c, start + body, end, -1);
    IndexAfterConcat(start, body, -1);
    EndSeen(Client(TextOf(Blocks(ss)), RawCalls(ss), ""), stopReason, |RawCalls(ss)| - 1);
  }

  /** The same content (null read as empty), the same tool calls in the same places, and the same
      finish reason. */
  predicate Agree(c: Client, w: Completion) {
    && c.content == (if w.content.Some? then w.content.value else "")
    && c.toolCalls == w.toolCalls
    && c.finish == w.finish
  }

  predicate InputsPresent(ss: seq<Streamed>) {
    forall i :: 0 <= i < |ss| && ss[i].StreamedTool? ==> Join(ss[i].parts) != ""
  }

  predicate UsesTools(ss: seq<Streamed>) {
    exists i :: 0 <= i < |ss| && ss[i].StreamedTool?
  }

  lemma LastInput(ss: seq<Streamed>)
    requires ss != []
    ensures var before, s := ss[..|ss| - 1], ss[|ss| - 1];
            && (InputsPresent(ss) <==> InputsPresent(before) && (s.StreamedTool? ==> Join(s.parts) != ""))
            && (UsesTools(ss) <==> UsesTools(before) || s.StreamedTool?)
  {
    assert forall i :: 0 <= i < |ss| - 1 ==> ss[..|ss| - 1][i] == ss[i];
  }

  lemma LastCall(ss: seq<Streamed>)
    requires ss != []
    ensures var before, s := ss[..|ss| - 1], ss[|ss| - 1];
            if s.StreamedTool? then
              && RawCalls(ss) == RawCalls(before) + [ToolCall(s.id, s.name, Join(s.parts))]
              && ToolCallsOf(Blocks(ss)) ==
                 ToolCallsOf(Blocks(before)) + [ToolCall(s.id, s.name, if Join(s.parts) != "" then Join(s.parts) else "{}")]
            else RawCalls(ss) == RawCalls(before) && ToolCallsOf(Blocks(ss)) == ToolCallsOf(Blocks(before))
  {
    assert Blocks(ss)[..|ss| - 1] == Blocks(ss[..|ss| - 1]);
  }

  lemma {:induction false} CallsAgreeIff(ss: seq<Streamed>)
    ensures |RawCalls(ss)| == |ToolCallsOf(Blocks(ss))|
    ensures RawCalls(ss) == ToolCallsOf(Blocks(ss)) <==> InputsPresent(ss)
    ensures RawCalls(ss) != [] <==> UsesTools(ss)
  {
    if ss != [] {
      var before, s := ss[..|ss| - 1], ss[|ss| - 1];
      CallsAgreeIff(before);
      LastInput(ss);
      LastCall(ss);
      if s.StreamedTool? {
        LastEqual(RawCalls(before), ToolCall(s.id, s.name, Join(s.parts)), ToolCallsOf(Blocks(before)),
                  ToolCall(s.id, s.name, if Join(s.parts) != "" then Join(s.parts) else "{}"));
      }
    }
  }

  lemma LastEqual<T>(a: seq<T>, x: T, b: seq<T>, y: T)
    requires |a| == |b|
    ensures a + [x] == b + [y] <==> a == b && x == y
  {
    if a + [x] == b + [y] {
      assert a == (a + [x])[..|a|] && b == (b + [y])[..|b|];
      assert (a + [x])[|a|] == x && (b + [y])[|b|] == y;
    }
  }

  /** For every message and every way of cutting it into deltas, streaming it and converting it whole
      agree exactly when every tool call carries input and a message with tool calls stops with
      tool_use. Otherwise they differ: an absent input is "{}" whole but "" streamed, and the whole
      conversion forces "tool_calls" where the stream reports the stop reason. */
  lemma StreamingAgreesIff(ss: seq<Streamed>, stopReason: string)
    ensures Agree(StreamResult(ss, stopReason), Whole(StreamedMessage(ss, stopReason)))
            <==> InputsPresent(ss) && (UsesTools(ss) ==> stopReason == "tool_use")
  {
    StreamResultIs(ss, stopReason);
    CallsAgreeIff(ss);
  }

  /** Streamed, the answer counts as cut off exactly if the message stopped for its limit, as calling tools exactly
      if it stopped for that, and otherwise as ended. */
  lemma StreamedFinish(ss: seq<Streamed>, stopReason: string)
    ensures StreamResult(ss, stopReason).finish ==
            if stopReason == "max_tokens" then "length" else if stopReason == "tool_use" then "tool_calls" else "stop"
  {
    StreamResultIs(ss, stopReason);
    FinishReasons(stopReason);
  }

  lemma {:induction false} NoRoleWithin(events: seq<Event>, toolIndex: int)
    requires forall e :: e in events ==> !e.MessageStart?
    ensures RoleChunk !in Translate(events, toolIndex)
  {
    if events != [] {
      var h := Handle(events[0], toolIndex);
      assert RoleChunk !in h.frames;
      if !h.stopped && !h.failed {
        NoRoleWithin(events[1..], h.toolIndex);
      }
    }
  }

  lemma {:induction false} NoStartWithin(ss: seq<Streamed>)
    ensures forall e :: e in AllBlockEvents(ss) ==> !e.MessageStart?
  {
    if ss != [] {
      var n := |ss| - 1;
      NoStartWithin(ss[..n]);
      BlockHasNoStart(ss[n]);
    }
  }

  lemma BlockHasNoStart(s: Streamed)
    ensures forall e :: e in BlockEvents(s) ==> !e.MessageStart?
  {
    if s.StreamedText? {
      DeltasAreNoStart(s.parts, false);
    } else if s.StreamedTool? {
      DeltasAreNoStart(s.parts, true);
    }
  }

  lemma {:induction false} DeltasAreNoStart(parts: seq<string>, tool: bool)
    ensures forall e :: e in Deltas(parts, tool) ==> !e.MessageStart?
  {
    if parts != [] {
      DeltasAreNoStart(parts[1..], tool);
    }
  }

  /** The client learns the role of the answer first, and once. */
  lemma RoleComesFirst(ss: seq<Streamed>, stopReason: string)
    ensures var frames := Translate(EventsOf(ss, stopReason), -1);
            frames != [] && forall i :: 0 <= i < |frames| ==> (frames[i] == RoleChunk <==> i == 0)
  {
    var rest := AllBlockEvents(ss) + [MessageDelta(stopReason), MessageStop];
    assert EventsOf(ss, stopReason)[1..] == rest;
    NoStartWithin(ss);
    NoRoleWithin(rest, -1);
    assert Translate(EventsOf(ss, stopReason), -1) == [RoleChunk] + Translate(rest, -1);
  }

  /** The translated stream of a message has exactly one [DONE], at its end. */
  lemma OneDone(ss: seq<Streamed>, stopReason: string)
    ensures var frames := Translate(EventsOf(ss, stopReason), -1);
            frames != [] && forall i :: 0 <= i < |frames| ==> (frames[i] == DoneFrame <==> i == |frames| - 1)
  {
    AllBlocksSeen(ss);
    PlainThenStop([MessageStart("")] + AllBlockEvents(ss), [MessageDelta(stopReason), MessageStop]);
    DoneIsLast(EventsOf(ss, stopReason), -1);
  }

  lemma {:induction false} PlainThenStop(a: seq<Event>, b: seq<Event>)
    requires (forall e :: e in a ==> Plain(e)) && b != [] && b[0].MessageDelta?
    ensures Finishes(a + b)
  {
    if a == [] {
      assert a + b == b;
    } else {
      assert (a + b)[1..] == a[1..] + b && a[0] in a;
      PlainThenStop(a[1..], b);
    }
  }
}
