/** How long the parts of a split message are (internal/telegram/format.go): exactly when they fit, and a
    condition on the message under which they do, and are whole and balanced besides. */
module TelegramLengths {
  import opened Options
  import opened Strings
  import opened TelegramTags
  import opened TelegramCut
  import opened TelegramLoop
  import opened TelegramParts
  import TelegramPlain

  // ---- Parts before they are numbered ----

  /** What holds of every remainder that is cut. */
  predicate AlongRests(good: string -> bool, tail: string -> string, chunk: nat, rest: string, n: nat)
    decreases n
  {
    n == 0 || |rest| <= chunk || (good(rest) && AlongRests(good, tail, chunk, tail(rest), n - 1))
  }

  predicate AllWithin(parts: seq<string>, max: nat) {
    forall i :: 0 <= i < |parts| ==> |parts[i]| <= max
  }

  lemma WithinFront(part: string, parts: seq<string>, max: nat)
    ensures AllWithin([part] + parts, max) <==> |part| <= max && AllWithin(parts, max)
  {
    assert ([part] + parts)[0] == part;
    assert forall i :: 0 <= i < |parts| ==> ([part] + parts)[i + 1] == parts[i];
  }

  lemma {:induction false} HeadsWithinIff(good: string -> bool, head: string -> string, tail: string -> string, chunk: nat,
                                          rest: string, n: nat)
    requires forall s :: |s| > chunk ==> (|head(s)| <= chunk <==> good(s))
    requires SplitBy(head, tail, chunk, rest, n).Some?
    ensures AllWithin(SplitBy(head, tail, chunk, rest, n).value, chunk) <==> AlongRests(good, tail, chunk, rest, n)
    decreases n
  {
    if |rest| > chunk {
      HeadsWithinIff(good, head, tail, chunk, tail(rest), n - 1);
      WithinFront(head(rest), SplitBy(head, tail, chunk, tail(rest), n - 1).value, chunk);
    }
  }

  function Roomy(chunk: nat): string -> bool
    requires chunk > 0
  {
    rest => |rest| > chunk && HasRoom(rest, chunk)
  }

  /** Before they are numbered, all parts fit exactly if every cut has room for its closing tags. */
  lemma PartsFitTheChunkIff(msg: string, chunk: nat, n: nat)
    requires chunk > 0 && Split(msg, chunk, n).Some?
    ensures AllWithin(Split(msg, chunk, n).value, chunk) <==> AlongRests(Roomy(chunk), Round(chunk), chunk, msg, n)
  {
    forall s: string | |s| > chunk ensures |Heads(chunk)(s)| <= chunk <==> Roomy(chunk)(s) {
      HeadFitsIff(s, chunk);
    }
    HeadsWithinIff(Roomy(chunk), Heads(chunk), Round(chunk), chunk, msg, n);
  }

  // ---- Numbered parts ----

  /** Every remainder that is cut, and the last one, fits in the room beside its counter. */
  predicate FitAlong(fits: (string, int) -> bool, tail: string -> string, chunk: nat, maxLen: nat, total: nat,
                     rest: string, i: nat, n: nat)
    decreases n
  {
    if n == 0 || |rest| <= chunk then rest == "" || |rest| <= maxLen - |Counter(i, total)|
    else fits(rest, maxLen - |Counter(i, total)|) && FitAlong(fits, tail, chunk, maxLen, total, tail(rest), i + 1, n - 1)
  }

  predicate FitsAt(parts: seq<string>, k: nat, i: nat, total: nat, maxLen: nat)
    requires k < |parts|
  {
    |parts[k]| + |Counter(i + k, total)| <= maxLen
  }

  predicate FitNumbered(parts: seq<string>, i: nat, total: nat, maxLen: nat) {
    forall k :: 0 <= k < |parts| ==> FitsAt(parts, k, i, total, maxLen)
  }

  lemma FitsOneOn(part: string, parts: seq<string>, k: nat, i: nat, total: nat, maxLen: nat)
    requires k < |parts|
    ensures FitsAt([part] + parts, k + 1, i, total, maxLen) <==> FitsAt(parts, k, i + 1, total, maxLen)
  {
    assert ([part] + parts)[k + 1] == parts[k] && i + (k + 1) == i + 1 + k;
  }

  lemma NumberedFront(part: string, parts: seq<string>, i: nat, total: nat, maxLen: nat)
    ensures FitNumbered([part] + parts, i, total, maxLen)
       <==> |part| + |Counter(i, total)| <= maxLen && FitNumbered(parts, i + 1, total, maxLen)
  {
    var all := [part] + parts;
    assert FitsAt(all, 0, i, total, maxLen) <==> |part| + |Counter(i, total)| <= maxLen;
    var next := i + 1;
    if FitNumbered(all, i, total, maxLen) {
      forall k | 0 <= k < |parts| ensures FitsAt(parts, k, next, total, maxLen) {
        FitsOneOn(part, parts, k, i, total, maxLen);
        assert FitsAt(all, k + 1, i, total, maxLen);
      }
    }
    if |part| + |Counter(i, total)| <= maxLen && FitNumbered(parts, i + 1, total, maxLen) {
      forall k | 0 <= k < |all| ensures FitsAt(all, k, i, total, maxLen) {
        if k > 0 {
          FitsOneOn(part, parts, k - 1, i, total, maxLen);
        }
      }
    }
  }

  lemma {:induction false} NumberedFitIff(fits: (string, int) -> bool, head: string -> string, tail: string -> string, chunk: nat,
                                          maxLen: nat, total: nat, rest: string, i: nat, n: nat)
    requires forall s, room :: |s| > chunk ==> (|head(s)| <= room <==> fits(s, room))
    requires SplitBy(head, tail, chunk, rest, n).Some?
    ensures FitNumbered(SplitBy(head, tail, chunk, rest, n).value, i, total, maxLen)
       <==> FitAlong(fits, tail, chunk, maxLen, total, rest, i, n)
    decreases n
  {
    if |rest| > chunk {
      NumberedFitIff(fits, head, tail, chunk, maxLen, total, tail(rest), i + 1, n - 1);
      NumberedFront(head(rest), SplitBy(head, tail, chunk, tail(rest), n - 1).value, i, total, maxLen);
    } else {
      LastFits(rest, i, total, maxLen);
    }
  }

  lemma LastFits(rest: string, i: nat, total: nat, maxLen: nat)
    ensures FitNumbered(if rest == "" then [] else [rest], i, total, maxLen) <==> rest == "" || |rest| <= maxLen - |Counter(i, total)|
  {
    if rest != "" {
      NumberedFront(rest, [], i, total, maxLen);
      assert [rest] + [] == [rest];
    }
  }

  function Fits(chunk: nat): (string, int) -> bool
    requires chunk > 0
  {
    (rest, room) => |rest| > chunk && FitsIn(rest, chunk, room)
  }

  lemma FitsIff(chunk: nat)
    requires chunk > 0
    ensures forall s, room :: |s| > chunk ==> (|Heads(chunk)(s)| <= room <==> Fits(chunk)(s, room))
  {
    forall s: string, room | |s| > chunk ensures |Heads(chunk)(s)| <= room <==> Fits(chunk)(s, room) {
      HeadFitsInIff(s, chunk, room);
    }
  }

  lemma SplitResultIs(msg: string, maxLen: nat, n: nat)
    requires 0 < maxLen < |msg| && SplitResult(msg, maxLen, n).Some?
    ensures Split(msg, ChunkLen(maxLen), n).Some?
    ensures SplitResult(msg, maxLen, n).value == Numbered(Split(msg, ChunkLen(maxLen), n).value)
  {
    ResultOfLoop(msg, ChunkLen(maxLen), n);
  }

  lemma NumberedWithin(parts: seq<string>, maxLen: nat)
    ensures AllWithin(Numbered(parts), maxLen) <==> FitNumbered(parts, 1, |parts|, maxLen)
  {
    var all := Numbered(parts);
    forall k: nat | k < |parts| ensures |all[k]| <= maxLen <==> FitsAt(parts, k, 1, |parts|, maxLen) {
    }
  }

  /** No finished part of a marked-up message is longer than allowed exactly if at every cut the markup
      before it fits, with its closing tags, beside the counter of the part, and so does what is left at the
      end. */
  lemma FinishedPartsFitIff(msg: string, maxLen: nat, n: nat)
    requires 0 < maxLen < |msg| && SplitResult(msg, maxLen, n).Some?
    ensures var chunk, parts := ChunkLen(maxLen), SplitResult(msg, maxLen, n).value;
            AllWithin(parts, maxLen) <==> FitAlong(Fits(chunk), Round(chunk), chunk, maxLen, |parts|, msg, 1, n)
  {
    var chunk := ChunkLen(maxLen);
    SplitResultIs(msg, maxLen, n);
    var parts := Split(msg, chunk, n).value;
    NumberedWithin(parts, maxLen);
    FitsIff(chunk);
    NumberedFitIff(Fits(chunk), Heads(chunk), Round(chunk), chunk, maxLen, |parts|, msg, 1, n);
  }

  /** In particular up to 99 parts fit if every cut has room for its closing tags. */
  lemma FewFinishedPartsFit(msg: string, maxLen: nat, n: nat)
    requires SuffixSpace < maxLen < |msg| && SplitResult(msg, maxLen, n).Some? && |SplitResult(msg, maxLen, n).value| <= 99
    requires AlongRests(Roomy(ChunkLen(maxLen)), Round(ChunkLen(maxLen)), ChunkLen(maxLen), msg, n)
    ensures AllWithin(SplitResult(msg, maxLen, n).value, maxLen)
  {
    SplitResultIs(msg, maxLen, n);
    PartsFitTheChunkIff(msg, ChunkLen(maxLen), n);
    var parts := Split(msg, ChunkLen(maxLen), n).value;
    forall i | 0 <= i < |parts| ensures |Numbered(parts)[i]| <= maxLen {
      TelegramPlain.FewPartsFit(parts, ChunkLen(maxLen), i);
    }
  }

  // ---- Messages with enough safe points ----

  /** A rune boundary outside every tag and with nothing open, in (low, high]. */
  ghost predicate HasSafePoint(msg: string, low: int, high: int) {
    exists q: nat :: low < q <= high && q < |msg| && RuneStart(msg[q]) && Safe(msg[..q])
  }

  /** There is one in every stretch of 256 bytes, or of the length of a part if that is less, from the place
      where the first part can end. */
  ghost predicate FrequentSafePoints(msg: string, chunk: nat) {
    forall p: nat :: SafePointFrom(msg, chunk, p)
  }

  ghost predicate SafePointFrom(msg: string, chunk: nat, p: nat) {
    p + chunk < |msg| ==> HasSafePoint(msg, p + Limit(chunk), p + chunk)
  }

  lemma SafeBetween(msg: string, p: nat, q: nat)
    requires p <= q <= |msg| && Safe(msg[..p])
    ensures Safe(msg[..q]) <==> Safe(msg[p..q])
  {
    var a, b := msg[..p], msg[p..q];
    assert msg[..q] == a + b;
    ScanConcat([], a, b);
    if !Dangling(b) {
      DanglingConcat(a, b);
    }
    if !Dangling(a + b) {
      NotDangling(a + b);
      assert (a + b)[p..] == b;
      assert a + b != "" || b == "";
    }
  }

  lemma SafeCutFound(msg: string, chunk: nat, p: nat)
    requires chunk > 0 && p + chunk < |msg| && FrequentSafePoints(msg, chunk) && Safe(msg[..p])
    ensures SafeCut(msg[p..], chunk) > Limit(chunk)
  {
    var rest := msg[p..];
    assert SafePointFrom(msg, chunk, p);
    var q: nat :| p + Limit(chunk) < q <= p + chunk && q < |msg| && RuneStart(msg[q]) && Safe(msg[..q]);
    SafeBetween(msg, p, q);
    var m := q - p;
    assert rest[..m] == msg[p..q] && rest[m] == msg[q];
    if m == chunk {
    } else {
      assert Limit(chunk) < m <= chunk - 1;
    }
  }

  /** Cutting the rest of the message at a safe point leaves the rest of the message behind that point. */
  lemma SafeStep(msg: string, chunk: nat, p: nat)
    requires chunk > 0 && p + chunk < |msg| && Safe(msg[..p]) && SafeCut(msg[p..], chunk) > 0
    ensures var q := p + SafeCut(msg[p..], chunk);
            q <= p + chunk && Safe(msg[..q]) && Round(chunk)(msg[p..]) == msg[q..]
  {
    var rest, cut := msg[p..], SafeCut(msg[p..], chunk);
    assert rest[..cut] == msg[p..p + cut] && rest[cut..] == msg[p + cut..];
    SafeBetween(msg, p, p + cut);
    NothingOpen(rest, cut);
  }

  function CutsSafely(chunk: nat): string -> bool
    requires chunk > 0
  {
    rest => |rest| > chunk && SafeCut(rest, chunk) > 0
  }

  lemma NextSafePoint(msg: string, chunk: nat, p: nat) returns (q: nat)
    requires chunk > 0 && p + chunk < |msg| && FrequentSafePoints(msg, chunk) && Safe(msg[..p])
    ensures p + Limit(chunk) < q <= p + chunk && Safe(msg[..q])
    ensures CutsSafely(chunk)(msg[p..]) && Round(chunk)(msg[p..]) == msg[q..]
  {
    SafeCutFound(msg, chunk, p);
    SafeStep(msg, chunk, p);
    q := p + SafeCut(msg[p..], chunk);
  }

  /** The cuts of a remainder are good, the loop ends, and count is the number of parts. */
  ghost predicate CutsUp(good: string -> bool, head: string -> string, tail: string -> string, chunk: nat, rest: string, n: nat, count: nat) {
    && AlongRests(good, tail, chunk, rest, n)
    && SplitBy(head, tail, chunk, rest, n).Some? && |SplitBy(head, tail, chunk, rest, n).value| == count
  }

  /** From place p of the message a good cut leads to a place further on of the same kind. */
  ghost predicate LeadsOn(good: string -> bool, tail: string -> string, kind: nat -> bool, msg: string, apart: nat, p: nat)
    requires p <= |msg|
  {
    exists q :: p + apart <= q <= |msg| && kind(q) && good(msg[p..]) && tail(msg[p..]) == msg[q..]
  }

  lemma LastPart(good: string -> bool, head: string -> string, tail: string -> string, chunk: nat, rest: string, n: nat)
    requires |rest| <= chunk
    ensures CutsUp(good, head, tail, chunk, rest, n, if rest == "" then 0 else 1)
  {
  }

  lemma OneMorePart(good: string -> bool, head: string -> string, tail: string -> string, chunk: nat, rest: string, n: nat,
                    more: string, fewer: nat, count: nat)
    requires |rest| > chunk && n == fewer + 1 && more == tail(rest) && good(rest)
    requires CutsUp(good, head, tail, chunk, more, fewer, count)
    ensures CutsUp(good, head, tail, chunk, rest, n, 1 + count)
  {
  }

  /** If every place leads on, the loop ends, and no part but the last is shorter than the places are
      apart. */
  lemma {:induction false} LeadsToTheEnd(good: string -> bool, head: string -> string, tail: string -> string, kind: nat -> bool,
                                         msg: string, chunk: nat, apart: nat, p: nat, n: nat) returns (count: nat)
    requires forall i: nat :: kind(i) && i + chunk < |msg| ==> LeadsOn(good, tail, kind, msg, apart, i)
    requires apart > 0 && p <= |msg| && kind(p) && |msg| - p <= n
    ensures CutsUp(good, head, tail, chunk, msg[p..], n, count)
    ensures (count - 1) * apart <= |msg| - p
    decreases n
  {
    if |msg| - p <= chunk {
      count := if p == |msg| then 0 else 1;
      LastPart(good, head, tail, chunk, msg[p..], n);
    } else {
      assert LeadsOn(good, tail, kind, msg, apart, p);
      var q :| p + apart <= q <= |msg| && kind(q) && good(msg[p..]) && tail(msg[p..]) == msg[q..];
      var fewer := n - 1;
      var more := LeadsToTheEnd(good, head, tail, kind, msg, chunk, apart, q, fewer);
      OneMorePart(good, head, tail, chunk, msg[p..], n, msg[q..], fewer, more);
      Spread(more, apart, |msg| - q, q - p);
      count := 1 + more;
    }
  }

  lemma Spread(count: nat, apart: nat, length: int, more: int)
    requires (count - 1) * apart <= length && apart <= more
    ensures (1 + count - 1) * apart <= length + more
  {
    assert count * apart == (count - 1) * apart + apart;
  }

  lemma {:induction false} AlongWeaker(good: string -> bool, better: string -> bool, tail: string -> string, chunk: nat, rest: string, n: nat)
    requires forall s :: |s| > chunk && better(s) ==> good(s)
    requires AlongRests(better, tail, chunk, rest, n)
    ensures AlongRests(good, tail, chunk, rest, n)
    decreases n
  {
    if n > 0 && |rest| > chunk {
      AlongWeaker(good, better, tail, chunk, tail(rest), n - 1);
    }
  }

  lemma {:induction false} AlongPieces(good: string -> bool, tail: string -> string, step: Left -> CutOff, clean: Left -> bool, chunk: nat,
                                       l: Left, n: nat)
    requires forall l :: |Rest(l)| > chunk ==> Rest(step(l).left) == tail(Rest(l)) && (good(Rest(l)) ==> clean(l))
    requires AlongRests(good, tail, chunk, Rest(l), n)
    ensures Along(step, chunk, clean, l, n)
    decreases n
  {
    if n > 0 && |Rest(l)| > chunk {
      AlongPieces(good, tail, step, clean, chunk, step(l).left, n - 1);
    }
  }

  lemma SafeCutsAreClean(msg: string, chunk: nat, n: nat)
    requires chunk > 0 && AlongRests(CutsSafely(chunk), Round(chunk), chunk, msg, n)
    ensures CleanRun(CutAt(chunk), chunk, Left("", msg), n)
  {
    forall l | |Rest(l)| > chunk
      ensures Rest(ChunkStep(chunk)(l).left) == Round(chunk)(Rest(l))
      ensures CutsSafely(chunk)(Rest(l)) ==> CleanAt(CutAt(chunk))(l)
    {
      ChunkStepCuts(chunk, l);
      if CutsSafely(chunk)(Rest(l)) {
        SafeCutIsClean(chunk, l);
      }
    }
    assert Rest(Left("", msg)) == msg;
    AlongPieces(CutsSafely(chunk), Round(chunk), ChunkStep(chunk), CleanAt(CutAt(chunk)), chunk, Left("", msg), n);
  }

  /** Such a message is split in boundedly many rounds, at safe points only, in at most 99 parts if it is no
      longer than 99 parts are sure to hold. */
  lemma FrequentSafePointsSplit(msg: string, chunk: nat)
    requires chunk > 0 && FrequentSafePoints(msg, chunk) && |msg| < 99 * (Limit(chunk) + 1)
    ensures Split(msg, chunk, |msg|).Some? && |Split(msg, chunk, |msg|).value| <= 99
    ensures AlongRests(CutsSafely(chunk), Round(chunk), chunk, msg, |msg|)
    ensures AlongRests(Roomy(chunk), Round(chunk), chunk, msg, |msg|)
  {
    var kind := (p: nat) => p <= |msg| && Safe(msg[..p]);
    forall p: nat | kind(p) && p + chunk < |msg| ensures LeadsOn(CutsSafely(chunk), Round(chunk), kind, msg, Limit(chunk) + 1, p) {
      var q := NextSafePoint(msg, chunk, p);
      assert kind(q);
    }
    assert msg[0..] == msg && msg[..0] == "";
    var count := LeadsToTheEnd(CutsSafely(chunk), Heads(chunk), Round(chunk), kind, msg, chunk, Limit(chunk) + 1, 0, |msg|);
    AtMost99(count, Limit(chunk) + 1, |msg|);
    AlongWeaker(Roomy(chunk), CutsSafely(chunk), Round(chunk), chunk, msg, |msg|);
  }

  lemma AtMost99(count: nat, apart: nat, length: nat)
    requires apart > 0 && (count - 1) * apart <= length < 99 * apart
    ensures count <= 99
  {
    assert (100 - count) * apart == 99 * apart - (count - 1) * apart > 0;
  }

  lemma SplitGivesResult(msg: string, maxLen: nat, n: nat)
    requires 0 < maxLen < |msg| && Split(msg, ChunkLen(maxLen), n).Some?
    ensures SplitResult(msg, maxLen, n) == Some(Numbered(Split(msg, ChunkLen(maxLen), n).value))
  {
    ResultOfLoop(msg, ChunkLen(maxLen), n);
  }

  /** A message with frequent safe points is split in boundedly many rounds, its finished parts all fit, and
      no cut falls inside a tag, so that every part keeps the formatting and is balanced if the message is. */
  lemma FrequentSafePointsSuffice(msg: string, maxLen: nat)
    requires SuffixSpace < maxLen < |msg| && FrequentSafePoints(msg, maxLen - SuffixSpace)
    requires |msg| < 99 * (Limit(maxLen - SuffixSpace) + 1)
    ensures SplitResult(msg, maxLen, |msg|).Some? && AllWithin(SplitResult(msg, maxLen, |msg|).value, maxLen)
    ensures CleanRun(CutAt(maxLen - SuffixSpace), maxLen - SuffixSpace, Left("", msg), |msg|)
    ensures Safe(msg) ==> AllSafe(Pieces(Step(CutAt(maxLen - SuffixSpace)), maxLen - SuffixSpace, Left("", msg), |msg|))
  {
    var chunk := maxLen - SuffixSpace;
    FrequentSafePointsSplit(msg, chunk);
    SafeCutsAreClean(msg, chunk, |msg|);
    if Safe(msg) {
      EveryPartIsSafe(CutAt(chunk), chunk, msg, |msg|);
    }
    SplitGivesResult(msg, maxLen, |msg|);
    FewFinishedPartsFit(msg, maxLen, |msg|);
  }
}
