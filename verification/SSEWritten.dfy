/** What a server writes is what the page reads (web/src/quality.js): the round trip of server-sent events, for LF and
    CRLF, cut into chunks anywhere. */
module SSEWritten {
  import opened Options
  import opened Strings
  import opened SSE

  /** An event as a server sends it: a name, or none, with blanks around it, and the lines of its data. */
  datatype Sent = Sent(name: Option<string>, before: string, after: string, data: seq<string>)

  predicate IsLine(s: string) {
    '\n' !in s && '\r' !in s
  }

  predicate AreBlanks(s: string) {
    forall i :: 0 <= i < |s| ==> s[i] == ' ' || s[i] == '\t'
  }

  /** One line that neither begins nor ends with a space of any kind. */
  predicate IsName(s: string) {
    IsLine(s) && (s != "" ==> !IsSpace(s[0]) && !IsSpace(s[|s| - 1]))
  }

  predicate Sendable(e: Sent) {
    && (e.name.Some? ==> IsName(e.name.value) && AreBlanks(e.before) && AreBlanks(e.after))
    && e.data != [] && forall i :: 0 <= i < |e.data| ==> IsLine(e.data[i])
  }

  predicate AllSendable(events: seq<Sent>) {
    forall i :: 0 <= i < |events| ==> Sendable(events[i])
  }

  function DataLines(data: seq<string>): seq<string> {
    if data == [] then [] else ["data: " + data[0]] + DataLines(data[1..])
  }

  function NameLines(e: Sent): seq<string> {
    if e.name.Some? then ["event:" + (e.before + e.name.value + e.after)] else []
  }

  /** Its lines, the last of them empty. */
  function LinesOf(e: Sent): seq<string> {
    NameLines(e) + DataLines(e.data) + [""]
  }

  function AllLines(events: seq<Sent>): seq<string> {
    if events == [] then [] else LinesOf(events[0]) + AllLines(events[1..])
  }

  function Written(lines: seq<string>, lineEnd: string): string {
    if lines == [] then "" else lines[0] + lineEnd + Written(lines[1..], lineEnd)
  }

  /** What the page is to see of it: without a name it is a message; an empty payload and the end marker carry no
      data. */
  function AsRead(e: Sent): Event
    requires e.data != []
  {
    var payload := JoinLines(e.data);
    Event(if e.name.Some? then e.name.value else "message", if payload == "" || payload == "[DONE]" then None else Some(payload))
  }

  function AllAsRead(events: seq<Sent>): seq<Event>
    requires AllSendable(events)
  {
    if events == [] then [] else [AsRead(events[0])] + AllAsRead(events[1..])
  }

  // ---- Lines ----

  /** The events of a list of lines. */
  function LineEvents(f: Fields, lines: seq<string>): seq<Event>
    decreases |lines|
  {
    if lines == [] then []
    else if lines[0] == "" then Dispatch(f) + LineEvents(NoFields, lines[1..])
    else LineEvents(ReadLine(f, lines[0]), lines[1..])
  }

  predicate AreLines(lines: seq<string>) {
    forall i :: 0 <= i < |lines| ==> IsLine(lines[i])
  }

  predicate IsLineEnd(s: string) {
    s == "\n" || s == "\r\n"
  }

  /** The first line of a text, as it is found in it. */
  lemma FirstLine(line: string, lineEnd: string, rest: string)
    requires IsLine(line) && IsLineEnd(lineEnd)
    ensures var s := line + lineEnd + rest;
            '\n' in s && DropCR(s[..IndexOf(s, '\n')]) == line && AfterLine(s) == rest
  {
    var s := line + lineEnd + rest;
    var k := |line| + |lineEnd| - 1;
    assert s[k] == '\n' && s[k + 1..] == rest;
    if lineEnd == "\n" {
      assert s[..k] == line;
    } else {
      assert s[..k] == line + "\r" && (line + "\r")[..|line|] == line;
    }
    IndexIs(s, '\n', k);
  }

  lemma ReadWithoutCR(f: Fields, raw: string)
    requires DropCR(raw) != "" && '\r' !in DropCR(raw)
    ensures ReadLine(f, raw) == ReadLine(f, DropCR(raw))
  {
  }

  lemma {:induction false} WrittenByLine(f: Fields, lines: seq<string>, lineEnd: string)
    requires AreLines(lines) && IsLineEnd(lineEnd)
    ensures ByLine(f, Written(lines, lineEnd)) == LineEvents(f, lines)
    decreases |lines|
  {
    if lines != [] {
      var line, rest := lines[0], Written(lines[1..], lineEnd);
      var s := line + lineEnd + rest;
      FirstLine(line, lineEnd, rest);
      ByLineFront(f, s);
      if line == "" {
        WrittenByLine(NoFields, lines[1..], lineEnd);
      } else {
        ReadWithoutCR(f, s[..IndexOf(s, '\n')]);
        WrittenByLine(ReadLine(f, line), lines[1..], lineEnd);
      }
    }
  }

  lemma CleanLine(line: string, lineEnd: string, rest: string)
    requires IsLine(line) && IsLineEnd(lineEnd) && CleanLineEnds(rest)
    ensures CleanLineEnds(line + lineEnd + rest)
  {
    var s, n := line + lineEnd + rest, |line| + |lineEnd|;
    assert forall i :: 0 <= i < |line| ==> s[i] == line[i];
    forall i | 0 <= i < |s| - 1 && s[i] == '\r' ensures s[i + 1] == '\n' {
      if i >= n {
        assert s[i] == rest[i - n] && s[i + 1] == rest[i + 1 - n];
      }
    }
  }

  lemma {:induction false} WrittenIsClean(lines: seq<string>, lineEnd: string)
    requires AreLines(lines) && IsLineEnd(lineEnd)
    ensures CleanLineEnds(Written(lines, lineEnd))
  {
    if lines != [] {
      WrittenIsClean(lines[1..], lineEnd);
      CleanLine(lines[0], lineEnd, Written(lines[1..], lineEnd));
    }
  }

  // ---- Fields ----

  lemma {:induction false} BlanksAreTrimmed(before: string, name: string, after: string)
    requires IsName(name) && AreBlanks(before) && AreBlanks(after)
    ensures Trim(before + name + after) == name
    decreases |before| + |after|
  {
    var s := before + name + after;
    if name == "" {
      OnlyBlanks(s);
    } else if before != "" {
      assert s[0] == before[0] && s[1..] == before[1..] + name + after;
      BlanksAreTrimmed(before[1..], name, after);
    } else if after != "" {
      var shorter := after[..|after| - 1];
      assert s[0] == name[0] && s[|s| - 1] == after[|after| - 1] && s[..|s| - 1] == "" + name + shorter;
      BlanksAreTrimmed("", name, shorter);
    } else {
      assert s == name;
    }
  }

  lemma {:induction false} OnlyBlanks(s: string)
    requires AreBlanks(s)
    ensures Trim(s) == ""
  {
    if s != "" {
      OnlyBlanks(s[1..]);
    }
  }

  lemma EventLine(f: Fields, before: string, name: string, after: string)
    requires IsName(name) && AreBlanks(before) && AreBlanks(after)
    ensures var line := "event:" + (before + name + after);
            line != "" && IsLine(line) && ReadLine(f, line) == f.(event := name)
  {
    var value := before + name + after;
    var line := "event:" + value;
    BlanksAreTrimmed(before, name, after);
    assert IsLine(value);
    assert DropCR(line) == line && line[..6] == "event:" && line[6..] == value;
  }

  lemma DataLine(f: Fields, value: string)
    requires IsLine(value)
    ensures var line := "data: " + value; line != "" && IsLine(line) && ReadLine(f, line) == f.(data := f.data + [value])
  {
    var line := "data: " + value;
    assert DropCR(line) == line && line[0] == 'd' && line[5] == ' ' && line[6..] == value && line[..5] == "data:";
  }

  lemma {:induction false} DataLinesRead(f: Fields, data: seq<string>, more: seq<string>)
    requires forall i :: 0 <= i < |data| ==> IsLine(data[i])
    ensures LineEvents(f, DataLines(data) + more) == LineEvents(f.(data := f.data + data), more)
    ensures AreLines(DataLines(data))
    decreases |data|
  {
    if data == [] {
      assert DataLines(data) + more == more && f.data + data == f.data;
    } else {
      var line, rest := "data: " + data[0], DataLines(data[1..]);
      DataLine(f, data[0]);
      DataLinesRead(f.(data := f.data + [data[0]]), data[1..], more);
      FirstOfLines(f, line, rest + more);
      Assoc([line], rest, more);
      Assoc(f.data, [data[0]], data[1..]);
      FrontBack(data);
    }
  }

  lemma FrontBack<T>(s: seq<T>)
    requires s != []
    ensures [s[0]] + s[1..] == s
  {
  }

  lemma BlankLine(f: Fields, more: seq<string>)
    ensures LineEvents(f, [""] + more) == Dispatch(f) + LineEvents(NoFields, more)
  {
    assert ([""] + more)[1..] == more;
  }

  lemma FirstOfLines(f: Fields, line: string, more: seq<string>)
    requires line != ""
    ensures LineEvents(f, [line] + more) == LineEvents(ReadLine(f, line), more)
  {
    assert ([line] + more)[1..] == more;
  }

  /** The name that an event is read under. */
  function NameRead(e: Sent): string {
    if e.name.Some? then e.name.value else "message"
  }

  lemma DataRead(e: Sent, f: Fields, more: seq<string>)
    requires Sendable(e) && f == Fields(NameRead(e), [])
    ensures LineEvents(f, DataLines(e.data) + ([""] + more)) == [AsRead(e)] + LineEvents(NoFields, more)
    ensures AreLines(DataLines(e.data))
  {
    assert [] + e.data == e.data;
    DataLinesRead(f, e.data, [""] + more);
    BlankLine(f.(data := e.data), more);
    Dispatched(f.(data := e.data), e);
  }

  lemma NameLineRead(e: Sent, rest: seq<string>)
    requires Sendable(e)
    ensures AreLines(NameLines(e)) && LineEvents(NoFields, NameLines(e) + rest) == LineEvents(Fields(NameRead(e), []), rest)
  {
    if e.name.Some? {
      EventLine(NoFields, e.before, e.name.value, e.after);
      FirstOfLines(NoFields, "event:" + (e.before + e.name.value + e.after), rest);
    } else {
      assert [] + rest == rest;
    }
  }

  /** One event ends with its empty line. */
  lemma EventRead(e: Sent, more: seq<string>)
    requires Sendable(e)
    ensures LineEvents(NoFields, LinesOf(e) + more) == [AsRead(e)] + LineEvents(NoFields, more)
    ensures AreLines(LinesOf(e))
  {
    var name, data := NameLines(e), DataLines(e.data);
    DataRead(e, Fields(NameRead(e), []), more);
    NameLineRead(e, data + ([""] + more));
    Regroup(name, data, [""], more);
    LinesJoin(name, data);
  }

  lemma LinesJoin(a: seq<string>, b: seq<string>)
    requires AreLines(a) && AreLines(b)
    ensures AreLines(a + b + [""])
  {
  }

  lemma Regroup<T>(a: seq<T>, b: seq<T>, c: seq<T>, d: seq<T>)
    ensures a + b + c + d == a + (b + (c + d))
  {
  }

  lemma Dispatched(f: Fields, e: Sent)
    requires e.data != [] && f == Fields(if e.name.Some? then e.name.value else "message", e.data)
    ensures Dispatch(f) == [AsRead(e)]
  {
  }

  lemma {:induction false} EventsRead(events: seq<Sent>)
    requires AllSendable(events)
    ensures LineEvents(NoFields, AllLines(events)) == AllAsRead(events) && AreLines(AllLines(events))
  {
    if events != [] {
      EventsRead(events[1..]);
      EventRead(events[0], AllLines(events[1..]));
      FrontBack(events);
    }
  }

  /** Round trip: whatever events are written, with either line end and in whatever chunks they arrive, they are
      read, with their names and the lines of their data. */
  lemma WrittenIsRead(events: seq<Sent>, lineEnd: string)
    requires IsLineEnd(lineEnd) && AllSendable(events)
    ensures Parse(Written(AllLines(events), lineEnd)).events == AllAsRead(events)
  {
    var lines := AllLines(events);
    EventsRead(events);
    WrittenIsClean(lines, lineEnd);
    WrittenByLine(NoFields, lines, lineEnd);
    FramesAreTheLineByLineReading(Written(lines, lineEnd));
  }
}
