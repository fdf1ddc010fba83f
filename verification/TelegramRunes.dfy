/** Whether the parts of a marked-up message are text (internal/telegram/format.go). The cut goes to the length of a
    part if no tag is open there, without asking whether a rune ends there. */
module TelegramRunes {
  import opened Options
  import opened Strings
  import opened TelegramTags
  import opened TelegramCut
  import opened TelegramLoop
  import opened TelegramHalting
  import opened TelegramInside
  import opened TelegramParts
  import opened TelegramLengths
  import opened TelegramMessage

  /** The bytes of some text. */
  ghost predicate IsText(s: string) {
    exists runes :: Bytes(runes) == s
  }

  // ---- Where runes end ----

  lemma {:induction false} BytesConcat(a: string, b: string)
    ensures Bytes(a + b) == Bytes(a) + Bytes(b)
  {
    if b == "" {
      assert a + b == a;
    } else {
      var front, last := b[..|b| - 1], b[|b| - 1];
      assert (a + b)[..|a + b| - 1] == a + front && (a + b)[|a + b| - 1] == last;
      BytesConcat(a, front);
      Associate(Bytes(a), Bytes(front), Encode(last));
    }
  }

  lemma BytesOfOne(c: char)
    ensures Bytes([c]) == Encode(c)
  {
    assert [c][..0] == "" && "" + Encode(c) == Encode(c);
  }

  lemma BytesFront(s: string)
    requires s != ""
    ensures Bytes(s) == Encode(s[0]) + Bytes(s[1..])
  {
    assert [s[0]] + s[1..] == s;
    BytesConcat([s[0]], s[1..]);
    BytesOfOne(s[0]);
  }

  /** The first byte of a rune tells how many there are. */
  lemma LeadTellsLength(c: char)
    ensures var lead := Encode(c)[0] as int;
            |Encode(c)| == if lead < 0x80 then 1 else if lead < 0xE0 then 2 else if lead < 0xF0 then 3 else 4
  {
  }

  lemma SameFirstRune(c: char, a: string, d: char, b: string)
    requires Encode(c) + a == Encode(d) + b
    ensures c == d && a == b
  {
    var s := Encode(c) + a;
    assert s[0] == Encode(c)[0] && s[0] == Encode(d)[0];
    LeadTellsLength(c);
    LeadTellsLength(d);
    assert Encode(c) == s[..|Encode(c)|] == Encode(d);
    assert a == s[|Encode(c)|..] == b;
    EncodeReadsBack(c);
    EncodeReadsBack(d);
  }

  lemma Cons(r: string, s: string)
    requires r != "" && s != "" && r[0] == s[0] && |r| <= |s| && r[1..] == s[1..][..|r| - 1]
    ensures r == s[..|r|] && s[1..][|r| - 1..] == s[|r|..]
  {
    assert r == [r[0]] + r[1..];
  }

  lemma Associate(a: string, b: string, c: string)
    ensures a + b + c == a + (b + c)
  {
  }

  /** Text whose bytes begin other bytes of text begins that text. */
  lemma {:induction false} PrefixDecodes(r: string, more: string, s: string)
    requires Bytes(r) + more == Bytes(s)
    ensures |r| <= |s| && r == s[..|r|] && Bytes(s[|r|..]) == more
    decreases |r|
  {
    if r == "" {
      assert "" + more == more && s[0..] == s;
    } else {
      FirstRunes(r, more, s);
      PrefixDecodes(r[1..], more, s[1..]);
      Cons(r, s);
    }
  }

  lemma FirstRunes(r: string, more: string, s: string)
    requires r != "" && Bytes(r) + more == Bytes(s)
    ensures s != "" && r[0] == s[0] && Bytes(r[1..]) + more == Bytes(s[1..])
  {
    BytesFront(r);
    assert s != "";
    BytesFront(s);
    Associate(Encode(r[0]), Bytes(r[1..]), more);
    SameFirstRune(r[0], Bytes(r[1..]) + more, s[0], Bytes(s[1..]));
  }

  /** No byte at i of the text, or one that begins a rune. */
  predicate RuneEnds(s: string, i: nat)
    requires i <= |s|
  {
    i == |s| || RuneStart(s[i])
  }

  lemma {:induction false} RuneAt(s: string, i: nat) returns (k: nat)
    requires i <= |Bytes(s)| && RuneEnds(Bytes(s), i)
    ensures k <= |s| && Bytes(s)[..i] == Bytes(s[..k]) && Bytes(s)[i..] == Bytes(s[k..])
    decreases |s|
  {
    if i == 0 {
      k := 0;
      assert s[0..] == s && s[..0] == "";
    } else {
      BytesFront(s);
      var first, rest := Encode(s[0]), Bytes(s[1..]);
      BehindFirst(first, rest, i);
      var m := RuneAt(s[1..], i - |first|);
      k := m + 1;
      BytesFront(s[..k]);
      FrontOfSlice(s, m);
    }
  }

  lemma FrontOfSlice(s: string, m: nat)
    requires s != "" && m < |s|
    ensures s[..m + 1] != "" && s[..m + 1][0] == s[0] && s[..m + 1][1..] == s[1..][..m] && s[1..][m..] == s[m + 1..]
  {
  }

  lemma BehindFirst(first: string, rest: string, i: nat)
    requires |first| >= 1 && (forall j :: 1 <= j < |first| ==> !RuneStart(first[j]))
    requires 0 < i <= |first + rest| && RuneEnds(first + rest, i)
    ensures i >= |first| && RuneEnds(rest, i - |first|)
    ensures (first + rest)[..i] == first + rest[..i - |first|] && (first + rest)[i..] == rest[i - |first|..]
  {
    assert forall j :: 0 <= j < |first| ==> (first + rest)[j] == first[j];
    assert |first| <= i < |first + rest| ==> (first + rest)[i] == rest[i - |first|];
  }

  /** A beginning of text is text exactly if a rune ends there, and so is what remains. */
  lemma BeginningIsTextIff(s: string, i: nat)
    requires i <= |Bytes(s)|
    ensures IsText(Bytes(s)[..i]) <==> RuneEnds(Bytes(s), i)
    ensures IsText(Bytes(s)[i..]) <==> RuneEnds(Bytes(s), i)
  {
    var b := Bytes(s);
    if RuneEnds(b, i) {
      var k := RuneAt(s, i);
    }
    if IsText(b[..i]) {
      var r :| Bytes(r) == b[..i];
      TwoParts(b, i);
      PrefixDecodes(r, b[i..], s);
      FirstByte(s[|r|..]);
    }
    if IsText(b[i..]) {
      var r :| Bytes(r) == b[i..];
      TwoParts(b, i);
      FirstByte(r);
    }
  }

  lemma TwoParts(b: string, i: nat)
    requires i <= |b|
    ensures b[..i] + b[i..] == b && (i < |b| ==> b[i..] != "" && b[i..][0] == b[i])
  {
  }

  lemma FirstByte(s: string)
    ensures Bytes(s) != "" ==> RuneStart(Bytes(s)[0])
  {
    BytesAreUtf8(s);
  }

  // ---- Space ----

  /** The space characters of Unicode. */
  predicate IsUnicodeSpace(c: char) {
    var n := c as int;
    || 0x09 <= n <= 0x0D || n == 0x20 || n == 0x85 || n == 0xA0 || n == 0x1680 || 0x2000 <= n <= 0x200A
    || n == 0x2028 || n == 0x2029 || n == 0x202F || n == 0x205F || n == 0x3000
  }

  /** Trimming takes off exactly these, rune by rune, at either end. */
  lemma SpaceIsWhole(c: char, more: string)
    ensures SpaceFront(Encode(c) + more) == if IsUnicodeSpace(c) then |Encode(c)| else 0
    ensures SpaceBack(more + Encode(c)) == if IsUnicodeSpace(c) then |Encode(c)| else 0
  {
    EncodeReadsBack(c);
    LeadTellsLength(c);
    FrontBytes(Encode(c), more);
    BackBytes(more, Encode(c));
  }

  lemma FrontBytes(e: string, more: string)
    requires e != ""
    ensures forall i :: 0 <= i < |e| ==> (e + more)[i] == e[i]
  {
  }

  lemma BackBytes(more: string, e: string)
    requires e != ""
    ensures forall i :: 0 <= i < |e| ==> (more + e)[|more + e| - |e| + i] == e[i]
  {
  }

  // ---- Tags are text ----

  predicate IsAscii(s: string) {
    forall i :: 0 <= i < |s| ==> s[i] as int < 0x80
  }

  lemma {:induction false} AsciiIsText(s: string)
    requires IsAscii(s)
    ensures Bytes(s) == s
  {
    if s != "" {
      AsciiIsText(s[..|s| - 1]);
      assert s == s[..|s| - 1] + [s[|s| - 1]];
    }
  }

  lemma {:induction false} TagsAreAscii(open: seq<string>)
    requires AreNames(open)
    ensures IsAscii(CloseTags(open)) && IsAscii(ReopenTags(open))
  {
    if open != [] {
      TagsAreAscii(open[..|open| - 1]);
      assert IsName(open[|open| - 1]);
    }
  }

  /** Whether it is text does not depend on tags behind it or before it. */
  lemma BeforeAscii(a: string, tags: string)
    requires IsAscii(tags)
    ensures IsText(a + tags) <==> IsText(a)
  {
    AsciiIsText(tags);
    if IsText(a) {
      var r :| Bytes(r) == a;
      BytesConcat(r, tags);
    }
    if IsText(a + tags) {
      var r :| Bytes(r) == a + tags;
      assert (a + tags)[..|a|] == a;
      assert tags != "" ==> (a + tags)[|a|] == tags[0];
      BeginningIsTextIff(r, |a|);
    }
  }

  lemma BehindAscii(tags: string, a: string)
    requires IsAscii(tags)
    ensures IsText(tags + a) <==> IsText(a)
  {
    AsciiIsText(tags);
    if IsText(a) {
      var r :| Bytes(r) == a;
      BytesConcat(tags, r);
    }
    if IsText(tags + a) {
      var r :| Bytes(r) == tags + a;
      assert (tags + a)[..|tags|] == tags && (tags + a)[|tags|..] == a;
      BeginningIsTextIff(r, |tags|);
    }
  }

  // ---- One cut ----

  /** No tag is open at the length of a part, and a rune does not end there. */
  predicate SplitsRune(rest: string, maxLen: nat)
    requires maxLen < |rest|
  {
    Unclosed(rest[..maxLen]) == [] && !Dangling(rest[..maxLen]) && !RuneStart(rest[maxLen])
  }

  lemma CutAtRuneIff(rest: string, maxLen: nat)
    requires 0 < maxLen < |rest| && RuneStart(rest[0])
    ensures RuneStart(rest[CutPoint(rest, maxLen)]) <==> !SplitsRune(rest, maxLen)
  {
  }

  /** The part and the rest of a cut are text exactly if the cut does not split a rune. */
  lemma CutIsTextIff(rest: string, maxLen: nat)
    requires 0 < maxLen < |rest| && IsText(rest)
    ensures IsText(Head(rest, maxLen)) <==> !SplitsRune(rest, maxLen)
    ensures IsText(Tail(rest, maxLen)) <==> !SplitsRune(rest, maxLen)
  {
    var s :| Bytes(s) == rest;
    var cut := CutPoint(rest, maxLen);
    var open := Unclosed(rest[..cut]);
    FirstByte(s);
    CutAtRuneIff(rest, maxLen);
    BeginningIsTextIff(s, cut);
    ScanKeepsNames([], rest[..cut]);
    TagsAreAscii(open);
    BeforeAscii(rest[..cut], CloseTags(open));
    BehindAscii(ReopenTags(open), rest[cut..]);
  }

  // ---- The whole split ----

  ghost predicate AllText(parts: seq<string>) {
    forall i :: 0 <= i < |parts| ==> IsText(parts[i])
  }

  lemma TextFront(part: string, parts: seq<string>)
    ensures AllText([part] + parts) <==> IsText(part) && AllText(parts)
  {
    assert ([part] + parts)[0] == part;
    assert forall i :: 0 <= i < |parts| ==> ([part] + parts)[i + 1] == parts[i];
  }

  /** Cuts that are all good, while the remainders are text, make parts that are text. */
  ghost predicate CutsText(good: string -> bool, head: string -> string, tail: string -> string, chunk: nat) {
    forall s :: IsText(s) && |s| > chunk ==> (IsText(head(s)) <==> good(s)) && (good(s) ==> IsText(tail(s)))
  }

  lemma {:induction false} HeadsAreTextIff(good: string -> bool, head: string -> string, tail: string -> string, chunk: nat,
                                          rest: string, n: nat)
    requires CutsText(good, head, tail, chunk) && IsText(rest) && SplitBy(head, tail, chunk, rest, n).Some?
    ensures AllText(SplitBy(head, tail, chunk, rest, n).value) <==> AlongRests(good, tail, chunk, rest, n)
    decreases n
  {
    if |rest| > chunk {
      var fewer := n - 1;
      FirstPart(head, tail, chunk, rest, n, fewer);
      TextFront(head(rest), SplitBy(head, tail, chunk, tail(rest), fewer).value);
      if good(rest) {
        HeadsAreTextIff(good, head, tail, chunk, tail(rest), fewer);
      }
    }
  }

  lemma FirstPart(head: string -> string, tail: string -> string, chunk: nat, rest: string, n: nat, fewer: nat)
    requires |rest| > chunk && n == fewer + 1 && SplitBy(head, tail, chunk, rest, n).Some?
    ensures SplitBy(head, tail, chunk, tail(rest), fewer).Some?
    ensures SplitBy(head, tail, chunk, rest, n).value == [head(rest)] + SplitBy(head, tail, chunk, tail(rest), fewer).value
  {
  }

  function SplitsNoRune(chunk: nat): string -> bool
    requires chunk > 0
  {
    rest => |rest| > chunk && !SplitsRune(rest, chunk)
  }

  lemma CountersAreAscii(i: nat, total: nat)
    ensures IsAscii(Counter(i, total))
  {
  }

  lemma NumberedText(parts: seq<string>)
    ensures AllText(Numbered(parts)) <==> AllText(parts)
  {
    var all := Numbered(parts);
    forall i: nat | i < |parts| ensures IsText(all[i]) <==> IsText(parts[i]) {
      CountersAreAscii(i + 1, |parts|);
      BeforeAscii(parts[i], Counter(i + 1, |parts|));
    }
    if AllText(parts) {
      forall i | 0 <= i < |all| ensures IsText(all[i]) {
        assert IsText(parts[i]);
      }
    }
    if AllText(all) {
      forall i | 0 <= i < |parts| ensures IsText(parts[i]) {
        assert IsText(all[i]);
      }
    }
  }

  /** The parts of a marked-up message are all text exactly if no remainder is cut where no tag is open but a rune
      is not over: bytes are counted, and a cut at the full length does not look for the end of a rune. */
  lemma PartsAreTextIff(runes: string, maxLen: nat, n: nat)
    requires 0 < maxLen < |Bytes(runes)| && SplitResult(Bytes(runes), maxLen, n).Some?
    ensures var chunk := ChunkLen(maxLen);
            AllText(SplitResult(Bytes(runes), maxLen, n).value) <==> AlongRests(SplitsNoRune(chunk), Round(chunk), chunk, Bytes(runes), n)
  {
    var chunk, msg := ChunkLen(maxLen), Bytes(runes);
    SplitResultIs(msg, maxLen, n);
    NumberedText(Split(msg, chunk, n).value);
    forall s: string | IsText(s) && |s| > chunk
      ensures (IsText(Heads(chunk)(s)) <==> SplitsNoRune(chunk)(s)) && (SplitsNoRune(chunk)(s) ==> IsText(Round(chunk)(s)))
    {
      CutIsTextIff(s, chunk);
    }
    HeadsAreTextIff(SplitsNoRune(chunk), Heads(chunk), Round(chunk), chunk, msg, n);
  }

  // ---- For instance ----

  lemma {:induction false} ThreeBytesEach(s: string)
    requires forall i :: 0 <= i < |s| ==> 0x800 <= s[i] as int < 0x10000
    ensures |Bytes(s)| == 3 * |s|
  {
    if s != "" {
      ThreeBytesEach(s[..|s| - 1]);
    }
  }

  /** A message of one bracket and runes of three bytes, as Chinese text has: the first part ends within a rune
      unless its length leaves one, when divided by three. At Telegram's own limit it leaves two. */
  lemma BrokenRune(s: string, maxLen: nat, n: nat)
    requires forall i :: 0 <= i < |s| ==> 0x800 <= s[i] as int < 0x10000
    requires 0 < maxLen <= 3 * |s| && ChunkLen(maxLen) % 3 != 1
    requires SplitResult(Bytes(">" + s), maxLen, n).Some?
    ensures IsMarkedUp(">" + s) && !AllText(SplitResult(Bytes(">" + s), maxLen, n).value)
  {
    var chunk := ChunkLen(maxLen);
    var msg := Bytes(">" + s);
    BracketAndMore(s);
    NoTagWithin(s, msg, chunk);
    InsideARune(s, ">" + s, chunk);
    FirstCutCounts(SplitsNoRune(chunk), Round(chunk), chunk, msg, n);
    PartsAreTextIff(">" + s, maxLen, n);
  }

  lemma FirstCutCounts(good: string -> bool, tail: string -> string, chunk: nat, rest: string, n: nat)
    requires |rest| > chunk && !good(rest) && n > 0
    ensures !AlongRests(good, tail, chunk, rest, n)
  {
  }

  lemma BracketAndMore(s: string)
    requires forall j :: 0 <= j < |s| ==> 0x800 <= s[j] as int < 0x10000
    ensures |Bytes(">" + s)| == 3 * |s| + 1
  {
    BytesConcat(">", s);
    BytesOfOne('>');
    ThreeBytesEach(s);
  }

  lemma RemainderOne(n: nat, k: nat)
    requires n == 3 * k + 1
    ensures n % 3 == 1
  {
  }

  lemma PlaceOfRune(s: string, t: string, k: nat) returns (n: nat)
    requires forall j :: 0 <= j < |s| ==> 0x800 <= s[j] as int < 0x10000
    requires t == ">" + s && k <= |t|
    ensures n == |Bytes(t[..k])| && (n == 0 || n % 3 == 1)
  {
    BracketSlice(s, k);
    n := |Bytes(t[..k])|;
    if k > 0 {
      BracketAndMore(s[..k - 1]);
      RemainderOne(n, k - 1);
    }
  }

  lemma PlacesLeaveOne(s: string, t: string, i: nat)
    requires forall j :: 0 <= j < |s| ==> 0x800 <= s[j] as int < 0x10000
    requires t == ">" + s && i <= |Bytes(t)| && RuneEnds(Bytes(t), i)
    ensures i == 0 || i % 3 == 1
  {
    var k := RuneAt(t, i);
    BeginningLength(Bytes(t), i);
    var n := PlaceOfRune(s, t, k);
  }

  lemma BeginningLength(b: string, i: nat)
    requires i <= |b|
    ensures |b[..i]| == i
  {
  }

  lemma InsideARune(s: string, t: string, i: nat)
    requires forall j :: 0 <= j < |s| ==> 0x800 <= s[j] as int < 0x10000
    requires t == ">" + s && 0 < i < |Bytes(t)| && i % 3 != 1
    ensures !RuneStart(Bytes(t)[i])
  {
    if RuneEnds(Bytes(t), i) {
      PlacesLeaveOne(s, t, i);
    }
  }

  lemma BracketSlice(s: string, k: nat)
    requires k <= |s| + 1
    ensures k > 0 ==> (">" + s)[..k] == ">" + s[..k - 1]
    ensures k == 0 ==> (">" + s)[..k] == ""
  {
  }

  lemma NoTagWithin(s: string, msg: string, chunk: nat)
    requires forall j :: 0 <= j < |s| ==> 0x800 <= s[j] as int < 0x10000
    requires msg == Bytes(">" + s) && chunk <= |msg|
    ensures Unclosed(msg[..chunk]) == [] && !Dangling(msg[..chunk])
  {
    BytesKeepAscii(">" + s, '<');
    assert '<' !in ">" + s;
    assert forall i :: 0 <= i < chunk ==> msg[..chunk][i] == msg[i] && msg[i] in msg;
    PlainScan([], msg[..chunk]);
  }
}
