/** Incremental parsing of server-sent events (web/src/quality.js, parseSSEChunk): frames are separated
    by an empty line, and an unfinished frame is carried over to the next chunk. */
module SSE {
  import opened Options
  import opened Strings

  /** The length of a match of the separator \r?\n\r?\n at position i, or 0. */
  function SeparatorAt(s: string, i: nat): (n: nat)
    requires i <= |s|
    ensures n == 0 || (2 <= n <= 4 && i + n <= |s|)
  {
    var a := if i < |s| && s[i] == '\r' then 1 else 0;
    if i + a >= |s| || s[i + a] != '\n' then 0
    else
      var b := if i + a + 1 < |s| && s[i + a + 1] == '\r' then 1 else 0;
      if i + a + 1 + b >= |s| || s[i + a + 1 + b] != '\n' then 0 else a + b + 2
  }

  /** The leftmost separator at or after i, or |s|. */
  function FirstSeparator(s: string, i: nat): (k: nat)
    requires i <= |s|
    ensures i <= k <= |s|
    ensures forall j :: i <= j < k ==> SeparatorAt(s, j) == 0
    ensures k < |s| ==> SeparatorAt(s, k) > 0
    decreases |s| - i
  {
    if i == |s| || SeparatorAt(s, i) > 0 then i else FirstSeparator(s, i + 1)
  }

  datatype Pieces = Pieces(frames: seq<string>, rest: string)

  /** Splitting at every separator; the last piece is the unfinished rest. */
  function Split(s: string): Pieces
    decreases |s|
  {
    var k := FirstSeparator(s, 0);
    if k == |s| then Pieces([], s)
    else
      var p := Split(s[k + SeparatorAt(s, k)..]);
      Pieces([s[..k]] + p.frames, p.rest)
  }

  /** The lines of a frame: split at every LF. */
  function Lines(s: string): (lines: seq<string>)
    ensures |lines| >= 1
    decreases |s|
  {
    if '\n' !in s then [s]
    else
      var k := IndexOf(s, '\n');
      [s[..k]] + Lines(s[k + 1..])
  }

  function DropCR(line: string): string {
    if line != "" && line[|line| - 1] == '\r' then line[..|line| - 1] else line
  }

  /** White space and line terminators as JavaScript trims them. */
  predicate IsSpace(c: char) {
    var n := c as int;
    || 0x09 <= n <= 0x0D || n == 0x20 || n == 0xA0 || n == 0x1680 || 0x2000 <= n <= 0x200A
    || n == 0x2028 || n == 0x2029 || n == 0x202F || n == 0x205F || n == 0x3000 || n == 0xFEFF
  }

  function Trim(s: string): string
    decreases |s|
  {
    if s != "" && IsSpace(s[0]) then Trim(s[1..])
    else if s != "" && IsSpace(s[|s| - 1]) then Trim(s[..|s| - 1])
    else s
  }

  predicate StartsWith(s: string, prefix: string) {
    prefix <= s
  }

  /** The fields of a frame while its lines are read. */
  datatype Fields = Fields(event: string, data: seq<string>)

  const NoFields := Fields("message", [])

  function ReadLine(f: Fields, rawLine: string): Fields {
    var line := DropCR(rawLine);
    if StartsWith(line, "event:") then f.(event := Trim(line[6..]))
    else if StartsWith(line, "data:") then
      f.(data := f.data + [if |line| > 5 && line[5] == ' ' then line[6..] else line[5..]])
    else f
  }

  function ReadLines(f: Fields, lines: seq<string>): Fields {
    if lines == [] then f else ReadLine(ReadLines(f, lines[..|lines| - 1]), lines[|lines| - 1])
  }

  /** An event; no data stands for an empty payload and for the end marker. */
  datatype Event = Event(event: string, data: Option<string>)

  function Dispatch(f: Fields): seq<Event> {
    if f.data == [] then []
    else
      var payload := JoinLines(f.data);
      [Event(f.event, if payload != "" && payload != "[DONE]" then Some(payload) else None)]
  }

  function FrameEvents(frame: string): seq<Event> {
    Dispatch(ReadLines(NoFields, Lines(frame)))
  }

  function AllEvents(frames: seq<string>): seq<Event> {
    if frames == [] then [] else FrameEvents(frames[0]) + AllEvents(frames[1..])
  }

  datatype Parsed = Parsed(events: seq<Event>, buffer: string)

  function Parse(text: string): Parsed {
    Parsed(AllEvents(Split(text).frames), Split(text).rest)
  }

  lemma EventsOfRest(frames: seq<string>, i: nat)
    requires i < |frames|
    ensures AllEvents(frames[i..]) == FrameEvents(frames[i]) + AllEvents(frames[i + 1..])
  {
    assert frames[i..][0] == frames[i] && frames[i..][1..] == frames[i + 1..];
  }

  method ParseChunk(buffer: string, chunk: string) returns (events: seq<Event>, remainder: string)
    ensures Parsed(events, remainder) == Parse(buffer + chunk)
  {
    var p := Split(buffer + chunk);
    remainder := p.rest;
    events := [];
    for i := 0 to |p.frames|
      invariant events + AllEvents(p.frames[i..]) == AllEvents(p.frames)
    {
      var more := ParseFrame(p.frames[i]);
      EventsOfRest(p.frames, i);
      Assoc(events, more, AllEvents(p.frames[i + 1..]));
      events := events + more;
    }
    assert p.frames[|p.frames|..] == [];
  }

  /** The loop over the lines of one frame: no event, or one. */
  method ParseFrame(frame: string) returns (events: seq<Event>)
    ensures events == FrameEvents(frame)
  {
    var lines := Lines(frame);
    var f := NoFields;
    for j := 0 to |lines|
      invariant f == ReadLines(NoFields, lines[..j])
    {
      assert lines[..j + 1][..j] == lines[..j];
      f := ReadLine(f, lines[j]);
    }
    assert lines[..|lines|] == lines;
    if |f.data| == 0 {
      return [];
    }
    var payload := JoinLines(f.data);
    var data: Option<string> := None;
    if payload != "" && payload != "[DONE]" {
      data := Some(payload);
    }
    return [Event(f.event, data)];
  }

  // ---- Chunking ----

  /** More input never moves or lengthens a separator that is already complete, nor makes an earlier
      one appear. */
  lemma FirstSeparatorIsStable(a: string, b: string)
    requires FirstSeparator(a, 0) < |a|
    ensures FirstSeparator(a + b, 0) == FirstSeparator(a, 0)
    ensures SeparatorAt(a + b, FirstSeparator(a, 0)) == SeparatorAt(a, FirstSeparator(a, 0))
  {
    var k := FirstSeparator(a, 0);
    assert SeparatorAt(a + b, k) == SeparatorAt(a, k);
    forall j | 0 <= j < k ensures SeparatorAt(a + b, j) == 0 {
      StaysClear(a, b, j, k);
    }
  }

  /** A separator that begins before a complete one would need the first LF of that one as its last
      character, so it would be complete too. */
  lemma StaysClear(a: string, b: string, j: nat, k: nat)
    requires j < k < |a| && SeparatorAt(a, j) == 0 && SeparatorAt(a, k) > 0
    ensures SeparatorAt(a + b, j) == 0
  {
    assert forall i :: 0 <= i < |a| ==> (a + b)[i] == a[i];
  }

  /** The text after the first separator. */
  function AfterSeparator(s: string): string
    requires FirstSeparator(s, 0) < |s|
  {
    s[FirstSeparator(s, 0) + SeparatorAt(s, FirstSeparator(s, 0))..]
  }

  lemma AfterSeparatorIsStable(a: string, b: string)
    requires FirstSeparator(a, 0) < |a|
    ensures FirstSeparator(a + b, 0) == FirstSeparator(a, 0) && |AfterSeparator(a)| < |a|
    ensures AfterSeparator(a + b) == AfterSeparator(a) + b && (a + b)[..FirstSeparator(a, 0)] == a[..FirstSeparator(a, 0)]
  {
    FirstSeparatorIsStable(a, b);
  }

  lemma SplitOnce(s: string)
    requires FirstSeparator(s, 0) < |s|
    ensures Split(s).frames == [s[..FirstSeparator(s, 0)]] + Split(AfterSeparator(s)).frames
    ensures Split(s).rest == Split(AfterSeparator(s)).rest
  {
  }

  /** Splitting can be resumed from the unfinished rest. */
  lemma {:induction false} SplitResumes(a: string, b: string)
    ensures Split(a + b).frames == Split(a).frames + Split(Split(a).rest + b).frames
    ensures Split(a + b).rest == Split(Split(a).rest + b).rest
    decreases |a|
  {
    var k := FirstSeparator(a, 0);
    if k < |a| {
      AfterSeparatorIsStable(a, b);
      SplitOnce(a);
      SplitOnce(a + b);
      SplitResumes(AfterSeparator(a), b);
      Assoc([a[..k]], Split(AfterSeparator(a)).frames, Split(Split(a).rest + b).frames);
    } else {
      SplitNone(a, Split(a + b));
    }
  }

  lemma Assoc<T>(x: seq<T>, y: seq<T>, z: seq<T>)
    ensures x + (y + z) == (x + y) + z
  {
  }

  lemma SplitNone(a: string, p: Pieces)
    requires FirstSeparator(a, 0) == |a|
    ensures Split(a) == Pieces([], a) && Split(a).frames + p.frames == p.frames
  {
    assert [] + p.frames == p.frames;
  }

  lemma {:induction false} AllEventsConcat(a: seq<string>, b: seq<string>)
    ensures AllEvents(a + b) == AllEvents(a) + AllEvents(b)
  {
    if a == [] {
      assert a + b == b;
    } else {
      assert (a + b)[1..] == a[1..] + b;
      AllEventsConcat(a[1..], b);
    }
  }

  function Concat(chunks: seq<string>): string {
    if chunks == [] then "" else Concat(chunks[..|chunks| - 1]) + chunks[|chunks| - 1]
  }

  /** A client that parses chunk after chunk, carrying the buffer. */
  method Feed(chunks: seq<string>) returns (events: seq<Event>, buffer: string)
    ensures Parsed(events, buffer) == Parse(Concat(chunks))
  {
    events, buffer := [], "";
    for i := 0 to |chunks|
      invariant Parsed(events, buffer) == Parse(Concat(chunks[..i]))
    {
      assert chunks[..i + 1][..i] == chunks[..i];
      var more;
      ChunkingDoesNotMatter(Concat(chunks[..i]), chunks[i]);
      more, buffer := ParseChunk(buffer, chunks[i]);
      events := events + more;
    }
    assert chunks[..|chunks|] == chunks;
  }

  /** Parsing a text in two parts, with the buffer carried over, is parsing it whole: the events are
      the same and so is the final buffer, wherever the cut falls. */
  lemma ChunkingDoesNotMatter(a: string, b: string)
    ensures Parse(a + b).events == Parse(a).events + Parse(Parse(a).buffer + b).events
    ensures Parse(a + b).buffer == Parse(Parse(a).buffer + b).buffer
  {
    SplitResumes(a, b);
    AllEventsConcat(Split(a).frames, Split(Split(a).rest + b).frames);
  }

  // ---- The line-by-line reading ----

  /** The reference: read line by line, dispatch at every blank line (the processing model of section
      9.2.6 of the WHATWG HTML Standard, with this parser's fields). */
  function ByLine(f: Fields, s: string): seq<Event>
    decreases |s|
  {
    if '\n' !in s then []
    else
      var p := IndexOf(s, '\n');
      if DropCR(s[..p]) == "" then Dispatch(f) + ByLine(NoFields, s[p + 1..])
      else ByLine(ReadLine(f, s[..p]), s[p + 1..])
  }

  /** Line ends are LF or CRLF, in any mixture; a CR may also be the last character so far. */
  predicate CleanLineEnds(s: string) {
    forall i :: 0 <= i < |s| - 1 && s[i] == '\r' ==> s[i + 1] == '\n'
  }

  predicate BlankStart(s: string) {
    (|s| >= 1 && s[0] == '\n') || (|s| >= 2 && s[0] == '\r' && s[1] == '\n')
  }

  lemma Slices<T>(s: seq<T>, m: nat, k: nat)
    requires m <= k <= |s|
    ensures s[..k][m..] == s[m..][..k - m] && s[..k][..m] == s[..m]
  {
  }

  /** Where the end of the first line begins. */
  function LineEnd(s: string): (q: nat)
    requires '\n' in s
    ensures q <= IndexOf(s, '\n') && DropCR(s[..IndexOf(s, '\n')]) == s[..q]
  {
    var p := IndexOf(s, '\n');
    if p > 0 && s[p - 1] == '\r' then p - 1 else p
  }

  function AfterLine(s: string): string
    requires '\n' in s
  {
    s[IndexOf(s, '\n') + 1..]
  }

  lemma NoSeparatorInLine(s: string, j: nat)
    requires CleanLineEnds(s) && '\n' in s && j < LineEnd(s)
    ensures SeparatorAt(s, j) == 0
  {
    NoLFBefore(s);
  }

  lemma NoLFBefore(s: string)
    requires '\n' in s
    ensures forall i :: 0 <= i < IndexOf(s, '\n') ==> s[i] != '\n'
  {
    var p := IndexOf(s, '\n');
    assert forall i :: 0 <= i < p ==> s[..p][i] == s[i];
  }

  lemma SeparatorInSuffix(s: string, m: nat, i: nat)
    requires m <= i <= |s|
    ensures SeparatorAt(s, i) == SeparatorAt(s[m..], i - m)
  {
  }

  lemma FirstSeparatorIs(s: string, k: nat)
    requires k <= |s| && (k < |s| ==> SeparatorAt(s, k) > 0)
    requires forall j :: 0 <= j < k ==> SeparatorAt(s, j) == 0
    ensures FirstSeparator(s, 0) == k
  {
  }

  /** When the second line is not blank, the first separator lies in the lines that follow. */
  lemma NoSeparatorAtLineEnd(s: string, j: nat)
    requires CleanLineEnds(s) && '\n' in s && !BlankStart(AfterLine(s)) && LineEnd(s) <= j <= IndexOf(s, '\n')
    ensures SeparatorAt(s, j) == 0
  {
    var m := IndexOf(s, '\n') + 1;
    assert forall i :: 0 <= i < |s[m..]| ==> s[m..][i] == s[m + i];
  }

  lemma SeparatorAfterLine(s: string)
    requires CleanLineEnds(s) && '\n' in s && !BlankStart(AfterLine(s))
    ensures FirstSeparator(s, 0) == IndexOf(s, '\n') + 1 + FirstSeparator(AfterLine(s), 0)
  {
    var m := IndexOf(s, '\n') + 1;
    var k := FirstSeparator(s[m..], 0);
    forall j | 0 <= j < m + k ensures SeparatorAt(s, j) == 0 {
      if j < LineEnd(s) {
        NoSeparatorInLine(s, j);
      } else if j < m {
        NoSeparatorAtLineEnd(s, j);
      } else {
        SeparatorInSuffix(s, m, j);
      }
    }
    SeparatorInSuffix(s, m, m + k);
    FirstSeparatorIs(s, m + k);
  }

  function BlankLength(s: string): (n: nat)
    requires BlankStart(s)
    ensures 1 <= n <= |s| && IndexOf(s, '\n') == n - 1 && DropCR(s[..n - 1]) == ""
  {
    var n := if s[0] == '\n' then 1 else 2;
    IndexIs(s, '\n', n - 1);
    n
  }

  lemma SeparatorThere(s: string)
    requires CleanLineEnds(s) && '\n' in s && BlankStart(AfterLine(s))
    ensures LineEnd(s) + SeparatorAt(s, LineEnd(s)) == IndexOf(s, '\n') + 1 + BlankLength(AfterLine(s))
    ensures SeparatorAt(s, LineEnd(s)) > 0
  {
    var m := IndexOf(s, '\n') + 1;
    var q := LineEnd(s);
    assert s[m - 1] == '\n' && (q == m - 1 || (q == m - 2 && s[q] == '\r'));
    assert AfterLine(s)[0] == s[m];
    assert |AfterLine(s)| >= 2 ==> AfterLine(s)[1] == s[m + 1];
  }

  /** When the second line is blank, the separator is the two line ends. */
  lemma SeparatorAtLineEnd(s: string)
    requires CleanLineEnds(s) && '\n' in s && BlankStart(AfterLine(s))
    ensures FirstSeparator(s, 0) == LineEnd(s) < |s|
  {
    var q := LineEnd(s);
    forall j | 0 <= j < q ensures SeparatorAt(s, j) == 0 {
      NoSeparatorInLine(s, j);
    }
    SeparatorThere(s);
    FirstSeparatorIs(s, q);
  }

  lemma TextAfterSeparator(s: string)
    requires CleanLineEnds(s) && '\n' in s && BlankStart(AfterLine(s)) && FirstSeparator(s, 0) == LineEnd(s) < |s|
    ensures AfterSeparator(s) == AfterLine(s)[BlankLength(AfterLine(s))..]
  {
    var q, m := LineEnd(s), IndexOf(s, '\n') + 1;
    SeparatorThere(s);
    AfterSeparatorIs(s, q, SeparatorAt(s, q));
    SuffixOfSuffix(s, m, m + BlankLength(AfterLine(s)));
  }

  lemma {:induction false} ReadLinesFront(f: Fields, line: string, lines: seq<string>)
    ensures ReadLines(f, [line] + lines) == ReadLines(ReadLine(f, line), lines)
  {
    var all := [line] + lines;
    if lines == [] {
      assert all[..|all| - 1] == [];
    } else {
      assert all[..|all| - 1] == [line] + lines[..|lines| - 1];
      ReadLinesFront(f, line, lines[..|lines| - 1]);
    }
  }

  lemma OneLine(f: Fields, raw: string)
    requires '\n' !in raw && '\r' !in DropCR(raw)
    ensures ReadLines(f, Lines(DropCR(raw))) == ReadLine(f, raw)
  {
    var line := DropCR(raw);
    assert Lines(line) == [line];
    assert [line][..0] == [];
  }

  lemma LinesStep(s: string)
    requires '\n' in s
    ensures Lines(s) == [s[..IndexOf(s, '\n')]] + Lines(AfterLine(s))
  {
  }

  lemma LineOfPrefix(s: string, k: nat)
    requires '\n' in s && IndexOf(s, '\n') < k <= |s|
    ensures '\n' in s[..k] && IndexOf(s[..k], '\n') == IndexOf(s, '\n')
    ensures AfterLine(s[..k]) == AfterLine(s)[..k - IndexOf(s, '\n') - 1]
  {
    var p := IndexOf(s, '\n');
    var t := s[..k];
    assert t[p] == '\n';
    Slices(s, p, k);
    Slices(s, p + 1, k);
    IndexIs(t, '\n', p);
  }

  lemma LinesFront(s: string, k: nat)
    requires '\n' in s && IndexOf(s, '\n') < k <= |s|
    ensures Lines(s[..k]) == [s[..IndexOf(s, '\n')]] + Lines(AfterLine(s)[..k - IndexOf(s, '\n') - 1])
  {
    LineOfPrefix(s, k);
    Slices(s, IndexOf(s, '\n'), k);
    LinesStep(s[..k]);
  }

  lemma ReadBlank(f: Fields, raw: string)
    requires DropCR(raw) == ""
    ensures ReadLine(f, raw) == f
  {
  }

  lemma ByLineFront(f: Fields, s: string)
    requires '\n' in s
    ensures var raw := s[..IndexOf(s, '\n')];
            ByLine(f, s) == if DropCR(raw) == "" then Dispatch(f) + ByLine(NoFields, AfterLine(s)) else ByLine(ReadLine(f, raw), AfterLine(s))
  {
  }

  lemma ByLineBlank(f: Fields, s: string)
    requires '\n' in s && BlankStart(s)
    ensures ByLine(f, s) == Dispatch(f) + ByLine(NoFields, s[BlankLength(s)..])
  {
    ByLineFront(f, s);
  }

  /** Reading one line, blank or not: nothing is lost when no field is pending at a blank line. */
  lemma ByLineOn(f: Fields, s: string)
    requires '\n' in s && (f == NoFields || DropCR(s[..IndexOf(s, '\n')]) != "")
    ensures ByLine(f, s) == ByLine(ReadLine(f, s[..IndexOf(s, '\n')]), AfterLine(s))
  {
    var raw := s[..IndexOf(s, '\n')];
    ByLineFront(f, s);
    if DropCR(raw) == "" {
      ReadBlank(f, raw);
      NothingPending(ByLine(f, AfterLine(s)));
    }
  }

  lemma NothingPending(events: seq<Event>)
    ensures Dispatch(NoFields) + events == events
  {
  }

  lemma BlankFirstLine(s: string)
    requires '\n' in s && !BlankStart(s)
    ensures DropCR(s[..IndexOf(s, '\n')]) != ""
  {
  }

  lemma CleanSuffix(s: string, m: nat)
    requires CleanLineEnds(s) && m <= |s|
    ensures CleanLineEnds(s[m..])
  {
  }

  lemma NoCRInLine(s: string)
    requires CleanLineEnds(s) && '\n' in s
    ensures '\r' !in s[..LineEnd(s)]
  {
    NoLFBefore(s);
    var q := LineEnd(s);
    forall i | 0 <= i < q ensures s[..q][i] != '\r' {
      assert s[..q][i] == s[i] && (i + 1 < IndexOf(s, '\n') ==> s[i + 1] != '\n');
    }
  }

  /** What FrameByLine claims of a text. */
  predicate ReadsAlike(f: Fields, s: string) {
    var k := FirstSeparator(s, 0);
    ByLine(f, s) == if k == |s| then []
                    else Dispatch(ReadLines(f, Lines(s[..k]))) + ByLine(NoFields, AfterSeparator(s))
  }

  lemma AlikeBeforeBlank(f: Fields, s: string)
    requires CleanLineEnds(s) && '\n' in s && BlankStart(AfterLine(s))
    requires f == NoFields || !BlankStart(s)
    ensures ReadsAlike(f, s)
  {
    var raw := s[..IndexOf(s, '\n')];
    if !BlankStart(s) {
      BlankFirstLine(s);
    }
    ByLineOn(f, s);
    ByLineBlank(ReadLine(f, raw), AfterLine(s));
    SeparatorAtLineEnd(s);
    TextAfterSeparator(s);
    NoCRInLine(s);
    OneLine(f, raw);
  }

  /** The frame before the first separator begins with the first line. */
  lemma FrameAfterLine(f: Fields, s: string)
    requires CleanLineEnds(s) && '\n' in s && !BlankStart(AfterLine(s)) && FirstSeparator(s, 0) < |s|
    ensures var rest, k := AfterLine(s), FirstSeparator(AfterLine(s), 0);
            && k < |rest| && AfterSeparator(s) == AfterSeparator(rest)
            && ReadLines(f, Lines(s[..FirstSeparator(s, 0)])) ==
               ReadLines(ReadLine(f, s[..IndexOf(s, '\n')]), Lines(rest[..k]))
  {
    var p, k := IndexOf(s, '\n'), FirstSeparator(s, 0);
    SeparatorAfterLine(s);
    AfterSeparatorOfSuffix(s, p + 1, AfterLine(s));
    LinesFront(s, k);
    ReadLinesFront(f, s[..p], Lines(AfterLine(s)[..k - p - 1]));
  }

  lemma SuffixOfSuffix(s: string, m: nat, k: nat)
    requires m <= k <= |s|
    ensures s[m..][k - m..] == s[k..]
  {
  }

  lemma AfterSeparatorIs(s: string, k: nat, n: nat)
    requires FirstSeparator(s, 0) == k < |s| && SeparatorAt(s, k) == n
    ensures k + n <= |s| && AfterSeparator(s) == s[k + n..]
  {
  }

  lemma AfterSeparatorOfSuffix(s: string, m: nat, rest: string)
    requires m <= FirstSeparator(s, 0) < |s| && rest == s[m..] && FirstSeparator(s, 0) == m + FirstSeparator(rest, 0)
    ensures AfterSeparator(s) == AfterSeparator(rest)
  {
    var k := FirstSeparator(s, 0);
    var n := SeparatorAt(s, k);
    SeparatorInSuffix(s, m, k);
    AfterSeparatorIs(s, k, n);
    AfterSeparatorIs(rest, k - m, n);
    SuffixOfSuffix(s, m, k + n);
  }

  lemma AlikeAfterLine(f: Fields, s: string)
    requires CleanLineEnds(s) && '\n' in s && !BlankStart(AfterLine(s))
    requires f == NoFields || !BlankStart(s)
    requires ReadsAlike(ReadLine(f, s[..IndexOf(s, '\n')]), AfterLine(s))
    ensures ReadsAlike(f, s)
  {
    if !BlankStart(s) {
      BlankFirstLine(s);
    }
    ByLineOn(f, s);
    SeparatorAfterLine(s);
    if FirstSeparator(s, 0) < |s| {
      FrameAfterLine(f, s);
    }
  }

  /** Up to its first separator a text reads the same line by line and as a frame. */
  lemma {:induction false} FrameByLine(f: Fields, s: string)
    requires CleanLineEnds(s) && (f == NoFields || !BlankStart(s))
    ensures ReadsAlike(f, s)
    decreases |s|
  {
    if '\n' in s {
      if BlankStart(AfterLine(s)) {
        AlikeBeforeBlank(f, s);
      } else {
        CleanSuffix(s, IndexOf(s, '\n') + 1);
        FrameByLine(ReadLine(f, s[..IndexOf(s, '\n')]), AfterLine(s));
        AlikeAfterLine(f, s);
      }
    }
  }

  /** For LF and CRLF line ends in any mixture, splitting at the separator pattern and reading line by
      line find the same events. */
  lemma {:induction false} FramesAreTheLineByLineReading(s: string)
    requires CleanLineEnds(s)
    ensures Parse(s).events == ByLine(NoFields, s)
    decreases |s|
  {
    FrameByLine(NoFields, s);
    if FirstSeparator(s, 0) < |s| {
      SplitOnce(s);
      CleanSuffix(s, FirstSeparator(s, 0) + SeparatorAt(s, FirstSeparator(s, 0)));
      FramesAreTheLineByLineReading(AfterSeparator(s));
    } else {
      SplitNone(s, Split(s));
    }
  }
}
