/** Reading the lines of an event stream (internal/protocol/anthropic.go, nextEvent). A string is a sequence
    of bytes, one char a byte. */
module AnthropicReader {
  import opened Strings

  /** An event as its lines give it. */
  datatype Raw = Raw(event: string, data: string)

  /** What reading on finds: an event, an empty line that ends no event, or the end. */
  datatype Next = Got(raw: Raw, rest: string) | Blank(rest: string) | End

  /** The length of the first line with its line feed; the last line may have none. */
  function LineLength(s: string): (n: nat)
    requires s != ""
    ensures 0 < n <= |s|
  {
    if '\n' in s then IndexOf(s, '\n') + 1 else |s|
  }

  function TrimEnd(line: string): string {
    if line != "" && (line[|line| - 1] == '\r' || line[|line| - 1] == '\n') then TrimEnd(line[..|line| - 1]) else line
  }

  function TrimSpace(s: string): string {
    TrimRight(TrimLeft(s))
  }

  const EventField := "event:"
  const DataField := "data:"

  function EventAfter(line: string, event: string): string {
    if EventField <= line then TrimSpace(line[|EventField|..]) else event
  }

  function DataAfter(line: string, data: seq<string>): seq<string> {
    if !(EventField <= line) && DataField <= line then data + [TrimSpace(line[|DataField|..])] else data
  }

  /** Reading on with what the lines of the event have given so far. */
  function NextFrom(s: string, event: string, data: seq<string>): (next: Next)
    ensures !next.End? ==> |next.rest| < |s|
    decreases |s|
  {
    if s == "" then End
    else
      var n := LineLength(s);
      var line, rest := TrimEnd(s[..n]), s[n..];
      if line == "" then (if data == [] then Blank(rest) else Got(Raw(event, JoinLines(data)), rest))
      else
        var event', data' := EventAfter(line, event), DataAfter(line, data);
        if '\n' in s then NextFrom(rest, event', data')
        else if data' != [] then Got(Raw(event', JoinLines(data')), "")
        else End
  }

  method ReadEvent(s: string) returns (next: Next)
    ensures next == NextFrom(s, "", [])
  {
    var event := "";
    var data: seq<string> := [];
    var rest := s;
    while true
      invariant NextFrom(rest, event, data) == NextFrom(s, "", [])
      decreases |rest|
    {
      if rest == "" {
        return End;
      }
      var n := LineLength(rest);
      var line, last := TrimEnd(rest[..n]), '\n' !in rest;
      rest := rest[n..];
      if EventField <= line {
        event := TrimSpace(line[|EventField|..]);
      } else if DataField <= line {
        data := data + [TrimSpace(line[|DataField|..])];
      } else if line == "" {
        if |data| == 0 {
          return Blank(rest);
        }
        return Got(Raw(event, JoinLines(data)), rest);
      }
      if last {
        if |data| > 0 {
          return Got(Raw(event, JoinLines(data)), "");
        }
        return End;
      }
    }
  }

  /** All events of a stream. */
  function Events(s: string): seq<Raw>
    decreases |s|
  {
    match NextFrom(s, "", [])
    case Got(raw, rest) => [raw] + Events(rest)
    case Blank(rest) => Events(rest)
    case End => []
  }

  // ---- What is written is read ----

  /** An event as a server sends it: a name and the lines of its data. */
  datatype Sent = Sent(event: string, data: seq<string>)

  /** Text of one line that trimming leaves alone. */
  predicate IsTrim(s: string) {
    '\n' !in s && SpaceFront(s) == 0 && SpaceBack(s) == 0
  }

  predicate Sendable(e: Sent) {
    IsTrim(e.event) && e.data != [] && forall i :: 0 <= i < |e.data| ==> IsTrim(e.data[i])
  }

  function DataLines(data: seq<string>): string {
    if data == [] then "" else DataField + " " + data[0] + "\n" + DataLines(data[1..])
  }

  function WithoutBlank(e: Sent): string {
    EventField + " " + e.event + "\n" + DataLines(e.data)
  }

  lemma OnTheWire(e: Sent)
    requires e.data != []
    ensures WithoutBlank(e) == "event: " + e.event + "\n" + DataLines(e.data)
    ensures DataLines(e.data) == "data: " + e.data[0] + "\n" + DataLines(e.data[1..])
  {
    assert EventField + " " == "event: " && DataField + " " == "data: ";
  }

  function Written(events: seq<Sent>): string {
    if events == [] then "" else WithoutBlank(events[0]) + "\n" + Written(events[1..])
  }

  function AsRead(events: seq<Sent>): seq<Raw> {
    seq(|events|, i requires 0 <= i < |events| => Raw(events[i].event, JoinLines(events[i].data)))
  }

  lemma TrimLeaves(s: string)
    requires IsTrim(s)
    ensures TrimSpace(" " + s) == s
  {
    assert (" " + s)[1..] == s;
    assert TrimLeft(" " + s) == s;
  }

  /** The value of a field, with the line feed of its line. */
  lemma FieldLine(field: string, value: string, rest: string)
    requires field == EventField || field == DataField
    requires IsTrim(value)
    ensures var line := field + " " + value;
            var s := line + "\n" + rest;
            && '\n' in s && LineLength(s) == |line| + 1 && s[..|line| + 1] == line + "\n" && s[|line| + 1..] == rest
            && '\n' !in line && TrimEnd(line) == line && TrimEnd(line + "\n") == line && field <= line && TrimSpace(line[|field|..]) == value
  {
    var line := field + " " + value;
    var s := line + "\n" + rest;
    assert s[|line|] == '\n' && s[..|line|] == line;
    IndexIs(s, '\n', |line|);
    assert (line + "\n")[..|line|] == line;
    assert line[|field|..] == " " + value;
    TrimLeaves(value);
    assert line[|line| - 1] == if value == "" then ' ' else value[|value| - 1];
  }

  lemma EventLine(e: string, rest: string, event: string, data: seq<string>)
    requires IsTrim(e)
    ensures NextFrom(EventField + " " + e + "\n" + rest, event, data) == NextFrom(rest, e, data)
  {
    FieldLine(EventField, e, rest);
  }

  lemma DataLine(value: string, rest: string, event: string, data: seq<string>)
    requires IsTrim(value)
    ensures NextFrom(DataField + " " + value + "\n" + rest, event, data) == NextFrom(rest, event, data + [value])
  {
    FieldLine(DataField, value, rest);
    var line := DataField + " " + value;
    assert line[0] == 'd';
    assert !(EventField <= line);
  }

  lemma Assoc(a: string, b: string, c: string)
    ensures (a + b) + c == a + (b + c)
  {
  }

  lemma FrontJoins(data: seq<string>, lines: seq<string>)
    requires lines != []
    ensures data + [lines[0]] + lines[1..] == data + lines
  {
  }

  lemma {:induction false} DataLinesRead(lines: seq<string>, rest: string, event: string, data: seq<string>)
    requires forall i :: 0 <= i < |lines| ==> IsTrim(lines[i])
    ensures NextFrom(DataLines(lines) + rest, event, data) == NextFrom(rest, event, data + lines)
  {
    if lines == [] {
      assert DataLines(lines) + rest == rest && data + lines == data;
    } else {
      var more := DataLines(lines[1..]) + rest;
      Assoc(DataField + " " + lines[0] + "\n", DataLines(lines[1..]), rest);
      DataLine(lines[0], more, event, data);
      DataLinesRead(lines[1..], rest, event, data + [lines[0]]);
      FrontJoins(data, lines);
    }
  }

  lemma EventRead(e: Sent, rest: string)
    requires Sendable(e)
    ensures NextFrom(WithoutBlank(e) + rest, "", []) == NextFrom(rest, e.event, e.data)
  {
    Assoc(EventField + " " + e.event + "\n", DataLines(e.data), rest);
    EventLine(e.event, DataLines(e.data) + rest, "", []);
    DataLinesRead(e.data, rest, e.event, []);
    assert [] + e.data == e.data;
  }

  lemma BlankLine(rest: string, event: string, data: seq<string>)
    requires data != []
    ensures NextFrom("\n" + rest, event, data) == Got(Raw(event, JoinLines(data)), rest)
  {
    var s := "\n" + rest;
    assert s[0] == '\n' && s[..0] == "";
    IndexIs(s, '\n', 0);
    assert s[..1] == "\n" && s[1..] == rest;
    assert TrimEnd("\n") == "";
  }

  lemma OneWritten(first: string, more: string, end: string)
    ensures first + "\n" + more + end == first + ("\n" + (more + end))
  {
  }

  lemma OneRead(e: Sent, rest: string)
    requires Sendable(e)
    ensures Events(WithoutBlank(e) + ("\n" + rest)) == [Raw(e.event, JoinLines(e.data))] + Events(rest)
  {
    EventRead(e, "\n" + rest);
    BlankLine(rest, e.event, e.data);
  }

  lemma {:induction false} WrittenBefore(events: seq<Sent>, end: string)
    requires forall i :: 0 <= i < |events| ==> Sendable(events[i])
    ensures Events(Written(events) + end) == AsRead(events) + Events(end)
  {
    if events == [] {
      assert Written(events) + end == end && AsRead(events) + Events(end) == Events(end);
    } else {
      WrittenBefore(events[1..], end);
      OneWritten(WithoutBlank(events[0]), Written(events[1..]), end);
      OneRead(events[0], Written(events[1..]) + end);
      AsReadFront(events, Events(end));
    }
  }

  lemma AsReadFront(events: seq<Sent>, more: seq<Raw>)
    requires events != []
    ensures AsRead(events) + more == [Raw(events[0].event, JoinLines(events[0].data))] + (AsRead(events[1..]) + more)
  {
  }

  /** Round trip: the events written are the events read, with their lines of data joined. */
  lemma WrittenIsRead(events: seq<Sent>)
    requires forall i :: 0 <= i < |events| ==> Sendable(events[i])
    ensures Events(Written(events)) == AsRead(events)
  {
    WrittenBefore(events, "");
    assert Written(events) + "" == Written(events) && AsRead(events) + Events("") == AsRead(events);
  }

  // ---- A stream that breaks off ----

  /** The event without its empty line and without the line feed of its last line. */
  function CutShort(e: Sent): string {
    WithoutBlank(e)[..|WithoutBlank(e)| - 1]
  }

  lemma {:induction false} DataLinesLast(data: seq<string>)
    requires data != []
    ensures DataLines(data) == DataLines(data[..|data| - 1]) + (DataField + " " + data[|data| - 1]) + "\n"
  {
    var last := |data| - 1;
    if last == 0 {
      assert data[1..] == [] && data[..0] == [];
    } else {
      DataLinesLast(data[1..]);
      assert data[1..][..last - 1] == data[..last][1..] && data[1..][last - 1] == data[last];
    }
  }

  lemma CutShortForm(e: Sent)
    requires e.data != []
    ensures var last := |e.data| - 1;
            CutShort(e) == EventField + " " + e.event + "\n" + (DataLines(e.data[..last]) + (DataField + " " + e.data[last]))
  {
    DataLinesLast(e.data);
    var line := EventField + " " + e.event + "\n";
    var most := DataLines(e.data[..|e.data| - 1]) + (DataField + " " + e.data[|e.data| - 1]);
    Assoc(line, most, "\n");
    assert WithoutBlank(e) == (line + most) + "\n";
  }

  /** A last line without its line feed ends the event. */
  lemma LastLine(value: string, event: string, data: seq<string>)
    requires IsTrim(value)
    ensures NextFrom(DataField + " " + value, event, data) == Got(Raw(event, JoinLines(data + [value])), "")
  {
    var line := DataField + " " + value;
    FieldLine(DataField, value, "");
    assert line[0] == 'd' && !(EventField <= line);
    assert line[..|line|] == line && '\n' !in line;
  }

  lemma LinesThenLast(s: string, event: string, lines: seq<string>, value: string)
    requires IsTrim(event) && IsTrim(value) && forall i :: 0 <= i < |lines| ==> IsTrim(lines[i])
    requires s == EventField + " " + event + "\n" + (DataLines(lines) + (DataField + " " + value))
    ensures NextFrom(s, "", []) == Got(Raw(event, JoinLines(lines + [value])), "")
  {
    var rest := DataField + " " + value;
    EventLine(event, DataLines(lines) + rest, "", []);
    DataLinesRead(lines, rest, event, []);
    assert [] + lines == lines;
    LastLine(value, event, lines);
  }

  lemma PushBack(data: seq<string>)
    requires data != []
    ensures data[..|data| - 1] + [data[|data| - 1]] == data
  {
  }

  lemma CutShortNext(e: Sent)
    requires Sendable(e)
    ensures NextFrom(CutShort(e), "", []) == Got(Raw(e.event, JoinLines(e.data)), "")
  {
    var last := |e.data| - 1;
    var s, lines, value := CutShort(e), e.data[..last], e.data[last];
    CutShortForm(e);
    PushBack(e.data);
    LinesThenLast(s, e.event, lines, value);
  }

  lemma CutShortRead(e: Sent)
    requires Sendable(e)
    ensures Events(CutShort(e)) == [Raw(e.event, JoinLines(e.data))]
  {
    CutShortNext(e);
    assert Events("") == [];
  }

  lemma CompleteLinesLost(e: Sent)
    requires Sendable(e)
    ensures Events(WithoutBlank(e)) == []
  {
    EventRead(e, "");
    assert WithoutBlank(e) + "" == WithoutBlank(e);
  }

  lemma AsReadLast(events: seq<Sent>, e: Sent)
    ensures AsRead(events + [e]) == AsRead(events) + [Raw(e.event, JoinLines(e.data))]
    ensures AsRead(events) + [] == AsRead(events)
  {
  }

  /** When the stream ends without the empty line of its last event, that event is lost exactly if its last
      line is complete; if the line feed is missing too, it is delivered. */
  lemma LastEventIsLostIff(events: seq<Sent>, e: Sent, complete: bool)
    requires Sendable(e) && forall i :: 0 <= i < |events| ==> Sendable(events[i])
    ensures Events(Written(events) + (if complete then WithoutBlank(e) else CutShort(e)))
            == AsRead(if complete then events else events + [e])
  {
    var end := if complete then WithoutBlank(e) else CutShort(e);
    assert Events(end) == if complete then [] else [Raw(e.event, JoinLines(e.data))] by {
      if complete {
        CompleteLinesLost(e);
      } else {
        CutShortRead(e);
      }
    }
    WrittenBefore(events, end);
    AsReadLast(events, e);
  }

  // ---- Lines that end in CRLF ----

  /** The stream with a carriage return before every line feed. */
  function WithCR(s: string): (r: string)
    ensures r == "" <==> s == ""
  {
    if '\n' !in s then s
    else
      var k := IndexOf(s, '\n');
      s[..k] + "\r\n" + WithCR(s[k + 1..])
  }

  function NextWithCR(next: Next): Next {
    match next
    case Got(raw, rest) => Got(raw, WithCR(rest))
    case Blank(rest) => Blank(WithCR(rest))
    case End => End
  }

  lemma CRLineSplits(line: string, rest: string)
    requires '\n' !in line
    ensures var t := line + "\r\n" + rest;
            '\n' in t && IndexOf(t, '\n') == |line| + 1 && t[..|line| + 2] == line + "\r\n" && t[|line| + 2..] == rest
  {
    var t := line + "\r\n" + rest;
    assert t[..|line| + 1] == line + "\r" && t[|line| + 1] == '\n';
    IndexIs(t, '\n', |line| + 1);
  }

  lemma CRLineTrims(line: string)
    ensures TrimEnd(line + "\r\n") == TrimEnd(line) && TrimEnd(line + "\n") == TrimEnd(line)
  {
    assert (line + "\r\n")[..|line| + 1] == line + "\r" && (line + "\r")[..|line|] == line;
    assert (line + "\n")[..|line|] == line;
    assert TrimEnd(line + "\r") == TrimEnd(line);
  }

  lemma LineFeedEnds(s: string, k: nat)
    requires k < |s| && s[k] == '\n'
    ensures s[..k + 1] == s[..k] + "\n"
  {
  }

  lemma FirstLineWithCR(s: string, k: nat, rest: string, t: string)
    requires '\n' in s && k == IndexOf(s, '\n') && t == s[..k] + "\r\n" + rest
    ensures '\n' in t && LineLength(t) == k + 2 && t[k + 2..] == rest && TrimEnd(t[..k + 2]) == TrimEnd(s[..k + 1])
  {
    var line := s[..k];
    LineFeedEnds(s, k);
    CRLineTrims(line);
    CRLineSplits(line, rest);
  }

  lemma {:induction false} NextEventWithCR(s: string, event: string, data: seq<string>)
    ensures NextFrom(WithCR(s), event, data) == NextWithCR(NextFrom(s, event, data))
    decreases |s|
  {
    if '\n' in s {
      var k := IndexOf(s, '\n');
      FirstLineWithCR(s, k, WithCR(s[k + 1..]), WithCR(s));
      var line := TrimEnd(s[..k + 1]);
      NextEventWithCR(s[k + 1..], EventAfter(line, event), DataAfter(line, data));
    }
  }

  /** It makes no difference to the events whether lines end in LF or in CRLF. */
  lemma {:induction false} CRMakesNoDifference(s: string)
    ensures Events(WithCR(s)) == Events(s)
    decreases |s|
  {
    NextEventWithCR(s, "", []);
    match NextFrom(s, "", [])
    case Got(_, rest) => CRMakesNoDifference(rest);
    case Blank(rest) => CRMakesNoDifference(rest);
    case End =>
  }
}
