/** When splitting ends, in terms of the message itself (internal/telegram/format.go). */
module TelegramHalting {
  import opened Iteration
  import opened Strings
  import opened TelegramTags
  import opened TelegramCut
  import opened TelegramLoop
  import TelegramParts

  // ---- A message that is split for ever ----

  lemma BareTagUnsafe(name: string, text: string, n: nat)
    requires IsName(name) && 0 < n <= |name| + 2
    ensures !Safe(("<" + name + ">" + text)[..n])
  {
    var tag := "<" + name + ">";
    var s := tag + text;
    if n == |tag| {
      assert s[..n] == tag + "";
      OpenTagToken(name);
      ScanToken([], tag, "");
    } else {
      var p := s[..n];
      assert p[0] == '<' && forall i :: 1 <= i < n ==> p[i] == name[i - 1];
      assert LastIndex(p, '>') == -1;
    }
  }

  lemma {:induction false} NothingFoundBack(s: string, n: nat, limit: nat)
    requires n < |s| && forall m :: 0 < m <= n ==> !Safe(s[..m])
    ensures SearchBack(s, n, limit) == 0
    decreases n
  {
    if n > limit {
      NothingFoundBack(s, n - 1, limit);
    }
  }

  lemma TagAlone(name: string)
    requires IsName(name)
    ensures var tag := "<" + name + ">"; Unclosed(tag) == [name] && |CloseTags([name])| == |tag| + 1
  {
    var tag := "<" + name + ">";
    OpenTagToken(name);
    ScanToken([], tag, "");
    assert tag + "" == tag && [] + [name] == [name];
    assert [name][..0] == [];
  }

  /** With no safe point and closing tags longer than the space for a part, the cut is at that length. */
  lemma CutWithoutRoom(s: string, chunk: nat)
    requires 0 < chunk < |s| && RuneStart(s[chunk]) && SafeCut(s, chunk) == 0 && |CloseTags(Unclosed(s[..chunk]))| > chunk
    ensures CutPoint(s, chunk) == chunk
  {
    assert RuneBoundary(s, chunk) == chunk;
  }

  /** A message that begins with a bare opening tag exactly as long as the space for a part: that tag is
      cut off, closed, and reopened, for ever. */
  lemma EndlessSplit(name: string, text: string, n: nat)
    requires IsName(name) && text != "" && RuneStart(text[0])
    ensures !HaltsIn("<" + name + ">" + text, |name| + 2, n)
  {
    var tag := "<" + name + ">";
    var chunk := |tag|;
    var s := tag + text;
    forall m | 0 < m <= chunk ensures !Safe(s[..m]) {
      BareTagUnsafe(name, text, m);
    }
    NothingFoundBack(s, chunk - 1, Limit(chunk));
    assert s[chunk] == text[0] && s[..chunk] == tag;
    TagAlone(name);
    TagIsBare(name);
    CutWithoutRoom(s, chunk);
    NeverHalts(s, chunk, n);
  }

  lemma TagIsBare(name: string)
    requires IsName(name)
    ensures BareOpenTags("<" + name + ">")
  {
    var tag := "<" + name + ">";
    OpenTagToken(name);
    assert forall i :: 1 <= i < |tag| - 1 ==> tag[i] == name[i - 1];
    assert tag[|tag|..] == "";
  }

  lemma NeverHalts(msg: string, chunk: nat, n: nat)
    requires chunk > 0 && Stuck(msg, chunk)
    ensures !HaltsIn(msg, chunk, n)
  {
    RoundsProgress(chunk);
    StuckForever(Round(chunk), (s: string) => |s| <= chunk, (s: string) => Stuck(s, chunk), (s: string) => |s|, msg, n);
  }

  // ---- Messages with little markup ----

  /** The bytes from a '<' up to the next '>', given whether the text begins inside such a stretch. */
  function Markup(s: string, inside: bool): nat {
    if s == "" then 0
    else
      var here := inside || s[0] == '<';
      (if here then 1 else 0) + Markup(s[1..], here && s[0] != '>')
  }

  lemma {:induction false} MarkupMonotone(s: string)
    ensures Markup(s, false) <= Markup(s, true)
  {
    if s != "" {
      MarkupMonotone(s[1..]);
    }
  }

  lemma {:induction false} MarkupConcat(a: string, b: string, inside: bool)
    ensures Markup(a + b, inside) >= Markup(a, inside) + Markup(b, false)
  {
    if a == "" {
      assert a + b == b;
      MarkupMonotone(b);
    } else {
      assert (a + b)[1..] == a[1..] + b;
      MarkupConcat(a[1..], b, (inside || a[0] == '<') && a[0] != '>');
    }
  }

  /** A stretch without '>' that ends in '>' is all markup, and what follows starts outside. */
  lemma {:induction false} MarkupToken(t: string, rest: string)
    requires '>' !in t
    ensures Markup(t + ">" + rest, true) == |t| + 1 + Markup(rest, false)
  {
    if t == "" {
      assert (t + ">" + rest)[1..] == rest;
    } else {
      assert t[0] in t;
      assert (t + ">" + rest)[1..] == t[1..] + ">" + rest;
      MarkupToken(t[1..], rest);
    }
  }

  lemma MarkupAtToken(s: string)
    requires MatchAt(s) > 0
    ensures Markup(s, false) == MatchAt(s) + Markup(s[MatchAt(s)..], false)
  {
    var n := MatchAt(s);
    var t := s[1..n - 1];
    forall i | 0 <= i < |t| ensures t[i] != '>' {
      assert s[..n - 1][i + 1] != '>';
    }
    assert s[1..] == t + ">" + s[n..];
    MarkupToken(t, s[n..]);
  }

  /** Whatever is reopened has stood in the text as markup. */
  lemma {:induction false} ReopenedIsMarkup(open: seq<string>, s: string)
    ensures |ReopenTags(Scan(open, s))| <= |ReopenTags(open)| + Markup(s, false)
    decreases |s|
  {
    if s == "" {
    } else if MatchAt(s) > 0 {
      var tag := s[..MatchAt(s)];
      TokenAlone(s);
      ApplyLength(open, tag);
      MarkupAtToken(s);
      ReopenedIsMarkup(Apply(open, tag), s[MatchAt(s)..]);
    } else {
      ReopenedIsMarkup(open, s[1..]);
      MarkupMonotone(s[1..]);
    }
  }

  lemma MarkupOfTag(name: string, rest: string)
    requires IsName(name)
    ensures Markup("<" + name + ">" + rest, false) == |name| + 2 + Markup(rest, false)
  {
    var tag := "<" + name + ">";
    OpenTagToken(name);
    TokenBefore(tag, rest);
    MarkupAtToken(tag + rest);
  }

  lemma {:induction false} MarkupReopened(open: seq<string>, rest: string)
    requires AreNames(open)
    ensures Markup(ReopenTags(open) + rest, false) == |ReopenTags(open)| + Markup(rest, false)
  {
    if open == [] {
      assert ReopenTags(open) + rest == rest;
    } else {
      var last := |open| - 1;
      var tag := "<" + open[last] + ">";
      MarkupOfTag(open[last], rest);
      MarkupReopened(open[..last], tag + rest);
      Concat3(ReopenTags(open[..last]), tag, rest);
    }
  }

  lemma TokenBefore(tag: string, rest: string)
    requires MatchAt(tag) == |tag| > 0
    ensures MatchAt(tag + rest) == |tag| && (tag + rest)[|tag|..] == rest
  {
    var s, n := tag + rest, |tag|;
    assert s[n - 1] == '>' && s[..n - 1] == tag[..n - 1];
    IndexIs(s, '>', n - 1);
    assert s[1..n - 1] == tag[1..n - 1];
  }

  /** Cutting and reopening makes no markup. */
  lemma CutKeepsMarkup(rest: string, cut: nat)
    requires cut <= |rest|
    ensures |ReopenTags(Unclosed(rest[..cut]))| <= Markup(rest, false)
    ensures Markup(TailAt(rest, cut), false) <= Markup(rest, false)
  {
    var open := Unclosed(rest[..cut]);
    ReopenedIsMarkup([], rest[..cut]);
    ScanKeepsNames([], rest[..cut]);
    MarkupReopened(open, rest[cut..]);
    MarkupConcat(rest[..cut], rest[cut..], false);
    assert rest[..cut] + rest[cut..] == rest;
  }

  lemma {:induction false} ClosersLength(open: seq<string>)
    requires AreNames(open)
    ensures 3 * |CloseTags(open)| <= 4 * |ReopenTags(open)|
  {
    if open != [] {
      ClosersLength(open[..|open| - 1]);
    }
  }

  /** Never more than three continuation bytes in a row, as in any piece of UTF-8 text. */
  predicate ShortRuns(s: string) {
    forall i :: 0 <= i < |s| - 3 ==> StartsAt(s, i)
  }

  predicate StartsAt(s: string, i: nat)
    requires i + 3 < |s|
  {
    RuneStart(s[i]) || RuneStart(s[i + 1]) || RuneStart(s[i + 2]) || RuneStart(s[i + 3])
  }

  lemma BoundaryIsNear(s: string, target: nat)
    requires ShortRuns(s) && 3 <= target < |s|
    ensures RuneBoundary(s, target) >= target - 3
  {
    var r := RuneBoundary(s, target);
    assert StartsAt(s, target - 3);
  }

  /** The tags that are closed and those that are reopened at a cut leave something of a part. */
  predicate LeavesRoom(rest: string, chunk: nat)
    requires 0 < chunk < |rest|
  {
    SafeCut(rest, chunk) > 0 || |ReopenTags(OpenAtCut(rest, chunk))| + FirstClosers(rest, chunk) + 3 < chunk
  }

  /** A cut across tags makes progress if the open tags leave something of a part; how much markup there is
      elsewhere plays no role. */
  lemma RoomMakesProgress(rest: string, chunk: nat)
    requires 0 < chunk < |rest| && ShortRuns(rest) && LeavesRoom(rest, chunk)
    ensures |Tail(rest, chunk)| < |rest|
  {
    if SafeCut(rest, chunk) > 0 {
      SafeCutShrinks(rest, chunk);
    } else {
      BoundaryIsNear(rest, chunk);
      BoundaryIsNear(rest, chunk - FirstClosers(rest, chunk));
    }
  }

  predicate LeavesRoomAfter(msg: string, chunk: nat, n: nat)
    requires chunk > 0
  {
    var rest := RestAfter(msg, chunk, n);
    |rest| > chunk ==> LeavesRoom(rest, chunk)
  }

  lemma RestsHaveShortRuns(msg: string, chunk: nat, n: nat)
    requires chunk > 0 && ShortRuns(msg)
    ensures ShortRuns(RestAfter(msg, chunk, n))
  {
    forall s: string | ShortRuns(s) && |s| > chunk ensures ShortRuns(Tail(s, chunk)) {
      TailHasShortRuns(s, chunk);
    }
    IterateKeeps(Round(chunk), s => ShortRuns(s), msg, n);
  }

  lemma TailHasShortRuns(rest: string, chunk: nat)
    requires 0 < chunk < |rest| && ShortRuns(rest)
    ensures ShortRuns(Tail(rest, chunk))
  {
    var cut := CutPoint(rest, chunk);
    ScanKeepsNames([], rest[..cut]);
    AsciiName(Unclosed(rest[..cut]));
    ShortRunsSuffix(rest, cut);
    ShortRunsConcat(ReopenTags(Unclosed(rest[..cut])), rest[cut..]);
  }

  /** A UTF-8 message whose cuts all leave room is split in finitely many rounds. */
  lemma RoomHalts(msg: string, chunk: nat)
    requires chunk > 0 && ShortRuns(msg) && forall n: nat :: LeavesRoomAfter(msg, chunk, n)
    ensures exists n: nat :: HaltsIn(msg, chunk, n)
  {
    forall n: nat ensures !StuckAfter(msg, chunk, n) {
      var rest := RestAfter(msg, chunk, n);
      RestsHaveShortRuns(msg, chunk, n);
      assert LeavesRoomAfter(msg, chunk, n);
      if |rest| > chunk {
        RoomMakesProgress(rest, chunk);
        CutShrinksIff(rest, chunk);
      }
    }
    HaltsIff(msg, chunk);
  }

  /** Whether the markup is so little that the tags open at a cut cannot fill a part. */
  predicate LittleMarkup(s: string, chunk: nat) {
    7 * Markup(s, false) + 9 < 3 * chunk
  }

  lemma LittleMarkupLeavesRoom(rest: string, chunk: nat)
    requires 0 < chunk < |rest| && LittleMarkup(rest, chunk)
    ensures LeavesRoom(rest, chunk)
  {
    var first := RuneBoundary(rest, chunk);
    CutKeepsMarkup(rest, first);
    ScanKeepsNames([], rest[..first]);
    ClosersLength(Unclosed(rest[..first]));
    CutKeepsMarkup(rest, CutPoint(rest, chunk));
  }

  lemma {:induction false} AsciiName(open: seq<string>)
    requires AreNames(open)
    ensures forall i :: 0 <= i < |ReopenTags(open)| ==> RuneStart(ReopenTags(open)[i])
  {
    if open != [] {
      AsciiName(open[..|open| - 1]);
      var name := open[|open| - 1];
      assert forall i :: 0 <= i < |name| ==> RuneStart(name[i]);
    }
  }

  lemma StartsBehind(a: string, b: string, i: nat)
    requires |a| <= i < |a + b| - 3 && ShortRuns(b)
    ensures StartsAt(a + b, i)
  {
    assert StartsAt(b, i - |a|);
  }

  lemma ShortRunsConcat(a: string, b: string)
    requires (forall i :: 0 <= i < |a| ==> RuneStart(a[i])) && ShortRuns(b)
    ensures ShortRuns(a + b)
  {
    forall i | 0 <= i < |a + b| - 3 ensures StartsAt(a + b, i) {
      if i >= |a| {
        StartsBehind(a, b, i);
      }
    }
  }

  lemma ShortRunsSuffix(s: string, m: nat)
    requires ShortRuns(s) && m <= |s|
    ensures ShortRuns(s[m..])
  {
    forall i | 0 <= i < |s[m..]| - 3 ensures StartsAt(s[m..], i) {
      assert StartsAt(s, m + i);
    }
  }

  lemma RoundKeepsLittleMarkup(rest: string, chunk: nat)
    requires 0 < chunk < |rest| && ShortRuns(rest) && LittleMarkup(rest, chunk)
    ensures ShortRuns(Tail(rest, chunk)) && LittleMarkup(Tail(rest, chunk), chunk)
  {
    var cut := CutPoint(rest, chunk);
    CutKeepsMarkup(rest, cut);
    TailHasShortRuns(rest, chunk);
  }

  function Fine(chunk: nat): string -> bool {
    s => ShortRuns(s) && LittleMarkup(s, chunk)
  }

  lemma FineRound(chunk: nat, s: string)
    requires 0 < chunk < |s| && Fine(chunk)(s)
    ensures |Round(chunk)(s)| < |s| && Fine(chunk)(Round(chunk)(s))
  {
    LittleMarkupLeavesRoom(s, chunk);
    RoomMakesProgress(s, chunk);
    RoundKeepsLittleMarkup(s, chunk);
  }

  /** A UTF-8 message with little markup for the length of a part is split in boundedly many rounds. */
  lemma LittleMarkupHalts(msg: string, chunk: nat)
    requires chunk > 0 && ShortRuns(msg) && LittleMarkup(msg, chunk)
    ensures HaltsIn(msg, chunk, |msg|)
  {
    var done, size := (s: string) => |s| <= chunk, (s: string) => |s|;
    forall s: string | !done(s) && Fine(chunk)(s) ensures size(Round(chunk)(s)) < size(s) && Fine(chunk)(Round(chunk)(s)) {
      FineRound(chunk, s);
    }
    ShrinksToTheEnd(Round(chunk), done, Fine(chunk), size, msg);
  }

  // ---- A part that is too long ----

  /** Without a '/' nothing is closed. */
  lemma {:induction false} NothingCloses(open: seq<string>, s: string)
    requires '/' !in s
    ensures |Scan(open, s)| >= |open|
    decreases |s|
  {
    if s == "" {
    } else if MatchAt(s) > 0 {
      var tag := s[..MatchAt(s)];
      assert tag[1] in s;
      assert !Closes(tag) by {
        assert tag[..2] == [tag[0], tag[1]];
      }
      NothingCloses(Apply(open, tag), s[MatchAt(s)..]);
    } else {
      NothingCloses(open, s[1..]);
    }
  }

  /** Text with neither tags nor slashes. */
  predicate IsWord(s: string) {
    '<' !in s && '>' !in s && '/' !in s && forall i :: 0 <= i < |s| ==> RuneStart(s[i])
  }

  function Tag(name: string): string { "<" + name + ">" }

  function EndTag(name: string): string { "</" + name + ">" }

  lemma AfterTag(open: seq<string>, name: string, rest: string)
    requires IsName(name)
    ensures Scan(open, Tag(name) + rest) == Scan(open + [name], rest)
  {
    ScanOpenTag(open, name, rest);
  }

  lemma NestedOpen(a: string, b: string)
    requires IsName(a) && IsName(b)
    ensures Unclosed(Tag(a) + Tag(b)) == [a, b]
  {
    AfterTag([], a, Tag(b));
    AfterTag([a], b, "");
    assert Tag(b) + "" == Tag(b) && [] + [a] == [a];
  }

  lemma TextThenEnd(a: string, b: string, t: string)
    requires IsName(a) && IsName(b) && IsWord(t)
    ensures Scan([a, b], t + EndTag(b)) == [a]
  {
    SkipText([a, b], t, EndTag(b));
    ScanEndTag([a], b);
    assert [a] + [b] == [a, b];
  }

  lemma UnclosedNested(a: string, b: string, t: string)
    requires IsName(a) && IsName(b) && IsWord(t)
    ensures Unclosed(Tag(a) + Tag(b)) == [a, b]
    ensures Unclosed(Tag(a) + (Tag(b) + (t + EndTag(b)))) == [a]
  {
    NestedOpen(a, b);
    AfterTag([], a, Tag(b) + (t + EndTag(b)));
    AfterTag([a], b, t + EndTag(b));
    assert [] + [a] == [a] && [a] + [b] == [a, b];
    TextThenEnd(a, b, t);
  }

  /** After an opening tag and no complete closing tag, no point is safe. */
  lemma UnsafeInside(a: string, u: string)
    requires IsName(a) && '/' !in u
    ensures !Safe(Tag(a) + u)
  {
    AfterTag([], a, u);
    NothingCloses([a], u);
    assert [] + [a] == [a];
  }

  lemma UnsafeInTag(front: string, t: string)
    requires t != "" && t[0] == '<' && '>' !in t
    ensures !Safe(front + t)
  {
    var p := front + t;
    assert p[|front|] == '<';
    forall i | |front| < i < |p| ensures p[i] != '>' { assert p[i] == t[i - |front|]; }
  }

  lemma NestedUnsafe(a: string, b: string, t: string, s: string, m: nat)
    requires IsName(a) && IsName(b) && IsWord(t) && s == Tag(a) + (Tag(b) + (t + EndTag(b)))
    requires 0 < m <= |s|
    ensures !Safe(s[..m])
  {
    var A, B, C := |Tag(a)|, |Tag(b)|, |EndTag(b)|;
    if m < A {
      assert s[..m] == "" + Tag(a)[..m];
      assert forall i :: 1 <= i < m ==> Tag(a)[..m][i] == a[i - 1];
      UnsafeInTag("", Tag(a)[..m]);
    } else if m <= A + B + |t| {
      var u := (Tag(b) + t)[..m - A];
      assert s[..m] == Tag(a) + u;
      forall i | 0 <= i < |u| ensures u[i] != '/' {
        if i >= B { assert u[i] == t[i - B]; }
      }
      UnsafeInside(a, u);
    } else if m < |s| {
      var k := m - A - B - |t|;
      assert s[..m] == (Tag(a) + Tag(b) + t) + EndTag(b)[..k];
      assert forall i :: 2 <= i < k ==> EndTag(b)[..k][i] == b[i - 2];
      UnsafeInTag(Tag(a) + Tag(b) + t, EndTag(b)[..k]);
    } else {
      assert s[..m] == s;
      UnclosedNested(a, b, t);
    }
  }

  lemma NestedSlices(a: string, b: string, t: string, more: string)
    requires more != "" && IsName(b)
    ensures var s := Tag(a) + (Tag(b) + (t + EndTag(b)));
            var all := s + more;
            && (forall m :: 0 <= m <= |s| ==> all[..m] == s[..m]) && all[..|s|] == s && all[|s|] == more[0]
            && all[..|Tag(a) + Tag(b)|] == Tag(a) + Tag(b) && all[|Tag(a) + Tag(b)|] == (t + EndTag(b))[0]
  {
    var s := Tag(a) + (Tag(b) + (t + EndTag(b)));
    assert s == (Tag(a) + Tag(b)) + (t + EndTag(b));
  }

  /** Making room for the closing tags can uncover another open tag, whose closing tag then does not
      fit. Such is every text <a><b>t</b>... whose t and </b> are as long as </a>. */
  lemma PartTooLong(a: string, b: string, t: string, more: string)
    requires IsName(a) && IsName(b) && IsWord(t) && more != "" && RuneStart(more[0])
    requires |t| + |b| == |a|
    ensures var s := Tag(a) + (Tag(b) + (t + EndTag(b)));
            |Head(s + more, |s|)| == |s| + |b| + 3
  {
    var s := Tag(a) + (Tag(b) + (t + EndTag(b)));
    var all, chunk, back := s + more, |s|, |Tag(a) + Tag(b)|;
    NestedSlices(a, b, t, more);
    forall m | 0 < m <= chunk ensures !Safe(all[..m]) {
      NestedUnsafe(a, b, t, s, m);
    }
    NothingFoundBack(all, chunk - 1, Limit(chunk));
    UnclosedNested(a, b, t);
    CutBack(all, chunk, back, a, b);
  }

  lemma NestedClosers(a: string, b: string)
    ensures |CloseTags([a])| == |a| + 3 && |CloseTags([a, b])| == |a| + |b| + 6
  {
    assert [a][..0] == [] && [a, b][..1] == [a];
  }

  lemma CutBack(all: string, chunk: nat, back: nat, a: string, b: string)
    requires back + |a| + 3 == chunk < |all| && back > 0 && SafeCut(all, chunk) == 0
    requires RuneStart(all[chunk]) && RuneStart(all[back])
    requires Unclosed(all[..chunk]) == [a] && Unclosed(all[..back]) == [a, b]
    ensures |Head(all, chunk)| == chunk + |b| + 3
  {
    NestedClosers(a, b);
    assert FirstClosers(all, chunk) == |a| + 3;
    assert MovedCut(all, chunk) == back;
    CutMoved(all, chunk);
  }
}
