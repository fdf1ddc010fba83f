/** SplitMessage as a whole (internal/telegram/format.go): a message of runes, its bytes, and the choice between
    plain and marked-up text. */
module TelegramMessage {
  import opened Iteration
  import opened Options
  import opened TelegramTags
  import opened TelegramCut
  import opened TelegramLoop
  import opened TelegramHalting
  import opened TelegramInside
  import opened TelegramParts
  import opened TelegramPlain

  // ---- UTF-8 ----

  function Trailing(n: nat): char { (0x80 + n % 0x40) as char }

  /** The bytes of a rune, one char a byte. */
  function Encode(c: char): (bytes: string)
    ensures 1 <= |bytes| <= 4
    ensures c as int < 0x80 ==> bytes == [c]
    ensures c as int >= 0x80 ==> |bytes| >= 2 && 0xC0 <= bytes[0] as int < 0x100
    ensures forall i :: 1 <= i < |bytes| ==> 0x80 <= bytes[i] as int < 0xC0
  {
    var n := c as int;
    if n < 0x80 then [c]
    else if n < 0x800 then [(0xC0 + n / 0x40) as char, Trailing(n)]
    else if n < 0x10000 then [(0xE0 + n / 0x1000) as char, Trailing(n / 0x40), Trailing(n)]
    else [(0xF0 + n / 0x40000) as char, Trailing(n / 0x1000), Trailing(n / 0x40), Trailing(n)]
  }

  /** The code point that the bytes of a rune stand for. */
  function CodePoint(bytes: string): int {
    if |bytes| == 1 then bytes[0] as int
    else if |bytes| == 2 then (bytes[0] as int - 0xC0) * 0x40 + (bytes[1] as int - 0x80)
    else if |bytes| == 3 then (bytes[0] as int - 0xE0) * 0x1000 + (bytes[1] as int - 0x80) * 0x40 + (bytes[2] as int - 0x80)
    else if |bytes| == 4 then
      (bytes[0] as int - 0xF0) * 0x40000 + (bytes[1] as int - 0x80) * 0x1000 + (bytes[2] as int - 0x80) * 0x40 + (bytes[3] as int - 0x80)
    else -1
  }

  lemma Digits(n: nat) returns (a: nat, b: nat)
    ensures a == n / 0x40 && b == n % 0x40 && n == a * 0x40 + b
  {
    a, b := n / 0x40, n % 0x40;
  }

  lemma Quotients(n: nat)
    ensures n / 0x1000 == n / 0x40 / 0x40 && n / 0x40000 == n / 0x40 / 0x40 / 0x40
  {
  }

  lemma ThreeDigits(n: nat)
    ensures n == n / 0x1000 * 0x1000 + n / 0x40 % 0x40 * 0x40 + n % 0x40
  {
    Quotients(n);
    var a, b := Digits(n);
    var c, d := Digits(a);
  }

  lemma FourDigits(n: nat)
    ensures n == n / 0x40000 * 0x40000 + n / 0x1000 % 0x40 * 0x1000 + n / 0x40 % 0x40 * 0x40 + n % 0x40
  {
    ThreeDigits(n);
    Quotients(n);
    var a, b := Digits(n / 0x1000);
  }

  /** The bytes of a rune determine it. */
  lemma EncodeReadsBack(c: char)
    ensures CodePoint(Encode(c)) == c as int
  {
    var n := c as int;
    if 0x80 <= n < 0x800 {
      var a, b := Digits(n);
    } else if 0x800 <= n < 0x10000 {
      ThreeDigits(n);
    } else if n >= 0x10000 {
      FourDigits(n);
    }
  }

  function Bytes(runes: string): string {
    if runes == "" then "" else Bytes(runes[..|runes| - 1]) + Encode(runes[|runes| - 1])
  }

  /** Text that starts at a rune, where continuation bytes follow as UTF-8 has them. */
  ghost predicate IsUtf8(s: string) {
    RunesWhole(s) && ShortRuns(s) && (s != "" ==> RuneStart(s[0]))
  }

  lemma RuneJoins(s: string, c: char)
    requires RunesWhole(s)
    ensures RunesWhole(s + Encode(c)) && (s + Encode(c) != "" && s == "" ==> RuneStart((s + Encode(c))[0]))
  {
    var e, t := Encode(c), s + Encode(c);
    forall i | 0 < i < |t| && !RuneStart(t[i]) ensures t[i - 1] as int >= 0x80 {
      if i < |s| {
        assert t[i] == s[i] && t[i - 1] == s[i - 1];
      } else {
        assert t[i] == e[i - |s|];
        assert i > |s| && t[i - 1] == e[i - |s| - 1];
      }
    }
  }

  lemma RunsJoin(s: string, c: char)
    requires ShortRuns(s)
    ensures ShortRuns(s + Encode(c))
  {
    var e, t := Encode(c), s + Encode(c);
    assert RuneStart(e[0]);
    forall i | 0 <= i < |t| - 3 ensures StartsAt(t, i) {
      if i + 3 < |s| {
        assert StartsAt(s, i);
      } else {
        assert i <= |s| <= i + 3;
        assert t[|s|] == e[0];
      }
    }
  }

  /** The bytes of any message are what splitting takes them for. */
  lemma {:induction false} BytesAreUtf8(runes: string)
    ensures IsUtf8(Bytes(runes))
  {
    if runes != "" {
      var front := runes[..|runes| - 1];
      BytesAreUtf8(front);
      RuneJoins(Bytes(front), runes[|runes| - 1]);
      RunsJoin(Bytes(front), runes[|runes| - 1]);
    }
  }

  /** A bracket is a bracket in the bytes and in the runes. */
  lemma {:induction false} BytesKeepAscii(runes: string, c: char)
    requires c as int < 0x80
    ensures c in Bytes(runes) <==> c in runes
  {
    if runes != "" {
      var front, last := runes[..|runes| - 1], runes[|runes| - 1];
      BytesKeepAscii(front, c);
      assert runes == front + [last];
      assert c in Encode(last) <==> c == last;
    }
  }

  /** UTF-16 code units, in which Telegram's limit is meant. */
  function Units(runes: string): nat {
    if runes == "" then 0 else Units(runes[..|runes| - 1]) + (if runes[|runes| - 1] as int >= 0x10000 then 2 else 1)
  }

  function Astral(runes: string): nat {
    if runes == "" then 0 else Astral(runes[..|runes| - 1]) + (if runes[|runes| - 1] as int >= 0x10000 then 1 else 0)
  }

  /** Counting runes is not on the safe side of counting code units, counting bytes is. */
  lemma {:induction false} UnitsOfRunes(runes: string)
    ensures Units(runes) == |runes| + Astral(runes) && Astral(runes) <= |runes|
    ensures Units(runes) <= |Bytes(runes)|
  {
    if runes != "" {
      UnitsOfRunes(runes[..|runes| - 1]);
    }
  }

  // ---- The whole function ----

  predicate IsMarkedUp(runes: string) {
    '<' in runes || '>' in runes
  }

  function PlainResult(runes: string, maxLen: nat): seq<string>
    requires maxLen > 0
  {
    if |runes| <= maxLen then [runes] else Numbered(Chunks(runes, ChunkLen(maxLen)))
  }

  function Encoded(parts: seq<string>): seq<string> {
    seq(|parts|, i requires 0 <= i < |parts| => Bytes(parts[i]))
  }

  /** Text without brackets is split by runes, other text by bytes. */
  method SplitMessage(runes: string, maxLen0: int, rounds: nat) returns (parts: Option<seq<string>>)
    ensures '<' !in runes && '>' !in runes ==> parts == Some(Encoded(PlainResult(runes, EffectiveLen(maxLen0))))
    ensures '<' in runes || '>' in runes ==> parts == SplitResult(Bytes(runes), EffectiveLen(maxLen0), rounds)
  {
    var maxLen := EffectiveLen(maxLen0);
    if !('<' in runes || '>' in runes) {
      var plain := SplitPlain(runes, maxLen);
      return Some(Encoded(plain));
    }
    parts := SplitHTML(Bytes(runes), maxLen, rounds);
  }

  /** Plain text that is not split can be longer than Telegram allows, in its code units: it fits exactly if the
      runes outside the basic plane, which count twice, still leave room. */
  lemma UnsplitPlainFitsIff(runes: string, maxLen: nat)
    requires 0 < maxLen && |runes| <= maxLen && !IsMarkedUp(runes)
    ensures PlainResult(runes, maxLen) == [runes]
    ensures Units(runes) <= maxLen <==> Astral(runes) <= maxLen - |runes|
  {
    UnitsOfRunes(runes);
  }

  lemma {:induction false} AllAstral(runes: string)
    requires forall i :: 0 <= i < |runes| ==> runes[i] as int >= 0x10000
    ensures Astral(runes) == |runes|
  {
    if runes != "" {
      AllAstral(runes[..|runes| - 1]);
    }
  }

  /** For instance a full message of such runes takes twice the limit. */
  lemma RunesAreNotUnits(runes: string)
    requires |runes| == MaxTelegramMessageLen && forall i :: 0 <= i < |runes| ==> runes[i] as int >= 0x10000
    ensures PlainResult(runes, MaxTelegramMessageLen) == [runes] && Units(runes) == 2 * MaxTelegramMessageLen
  {
    AllAstral(runes);
    UnitsOfRunes(runes);
  }

  /** Marked-up text that is not split fits: bytes are never fewer than code units. */
  lemma UnsplitMarkupFits(runes: string, maxLen: nat, rounds: nat)
    requires 0 < maxLen && IsMarkedUp(runes) && SplitResult(Bytes(runes), maxLen, rounds) == Some([Bytes(runes)])
    requires |Bytes(runes)| <= maxLen
    ensures Units(runes) <= maxLen
  {
    UnitsOfRunes(runes);
  }

  lemma RestsAreWhole(msg: string, chunk: nat, n: nat)
    requires chunk > 0 && RunesWhole(msg)
    ensures RunesWhole(RestAfter(msg, chunk, n))
  {
    forall s: string | RunesWhole(s) && |s| > chunk ensures RunesWhole(Tail(s, chunk)) {
      TailIsWhole(s, chunk);
    }
    IterateKeeps(Round(chunk), s => RunesWhole(s), msg, n);
  }

  /** So at the first cut of a message and at every later one, the branch marked as unreachable is taken exactly
      when nothing is open at the length of a part, which lies inside a tag that begins further back than the
      search goes. */
  lemma DeadBranchOfMessageIff(runes: string, chunk: nat, n: nat)
    requires chunk > 0 && |RestAfter(Bytes(runes), chunk, n)| > chunk
    ensures var rest := RestAfter(Bytes(runes), chunk, n);
            TakesDeadBranch(rest, chunk) <==>
            Unclosed(rest[..chunk]) == [] && Dangling(rest[..chunk]) && TagStart(rest[..chunk]) <= Limit(chunk)
  {
    BytesAreUtf8(runes);
    RestsAreWhole(Bytes(runes), chunk, n);
    DeadBranchIff(RestAfter(Bytes(runes), chunk, n), chunk);
  }
}
