/** The parts SplitMessage produces (internal/telegram/format.go): losslessness, balance, formatting.
    What holds wherever the cuts are made is stated for an arbitrary choice of cut points. */
module TelegramParts {
  import opened Options
  import opened Iteration
  import opened Strings
  import opened TelegramTags
  import opened TelegramCut
  import opened TelegramLoop

  /** One part of a split message: the reopened tags, its share of the message, the closing tags. */
  datatype Piece = Piece(seam: string, body: string, closers: string)

  function Render(p: Piece): string {
    p.seam + p.body + p.closers
  }

  function Take(s: string, n: nat): string {
    if n <= |s| then s[..n] else s
  }

  function Drop(s: string, n: nat): string {
    if n <= |s| then s[n..] else ""
  }

  /** Cutting seam + text, of which only text is message. */
  function PieceBefore(seam: string, text: string, cut: nat, closers: string): Piece {
    if cut <= |seam| then Piece(Take(seam, cut), "", closers) else Piece(seam, Take(text, cut - |seam|), closers)
  }

  function TextAfter(seam: string, text: string, cut: nat): string {
    if cut <= |seam| then text else Drop(text, cut - |seam|)
  }

  function SeamAfter(seam: string, cut: nat, reopened: string): string {
    reopened + Drop(seam, cut)
  }

  lemma CutInTwo(seam: string, text: string, cut: nat, closers: string, reopened: string)
    requires cut <= |seam| + |text|
    ensures Render(PieceBefore(seam, text, cut, closers)) == (seam + text)[..cut] + closers
    ensures SeamAfter(seam, cut, reopened) + TextAfter(seam, text, cut) == reopened + (seam + text)[cut..]
    ensures PieceBefore(seam, text, cut, closers).body + TextAfter(seam, text, cut) == text
  {
    var rest := seam + text;
    if cut <= |seam| {
      assert rest[..cut] == seam[..cut] && rest[cut..] == seam[cut..] + text;
    } else {
      assert rest[..cut] == seam + text[..cut - |seam|] && rest[cut..] == text[cut - |seam|..];
    }
  }

  /** A choice of cut points for texts longer than chunk. */
  ghost predicate Cuts(at: string -> nat) {
    forall s :: at(s) <= |s|
  }

  function CutAt(chunk: nat): string -> nat
    requires chunk > 0
  {
    s => if |s| > chunk then CutPoint(s, chunk) else |s|
  }

  /** The remainder while the parts are cut: the seam and what is left of the message. */
  datatype Left = Left(seam: string, text: string)

  function Rest(l: Left): string {
    l.seam + l.text
  }

  datatype CutOff = CutOff(piece: Piece, left: Left)

  function CutLeft(l: Left, cut: nat, closers: string, reopened: string): CutOff {
    CutOff(PieceBefore(l.seam, l.text, cut, closers), Left(SeamAfter(l.seam, cut, reopened), TextAfter(l.seam, l.text, cut)))
  }

  function Step(at: string -> nat): Left -> CutOff {
    l =>
      var open := Unclosed(Take(Rest(l), at(Rest(l))));
      CutLeft(l, at(Rest(l)), CloseTags(open), ReopenTags(open))
  }

  /** The pieces of a remainder, in at most n rounds. */
  function Pieces(step: Left -> CutOff, chunk: nat, l: Left, n: nat): seq<Piece>
    decreases n
  {
    if n == 0 || |Rest(l)| <= chunk then (if Rest(l) == "" then [] else [Piece(l.seam, l.text, "")])
    else [step(l).piece] + Pieces(step, chunk, step(l).left, n - 1)
  }

  lemma StepCuts(at: string -> nat, l: Left)
    requires Cuts(at)
    ensures Render(Step(at)(l).piece) == HeadAt(Rest(l), at(Rest(l)))
    ensures Rest(Step(at)(l).left) == TailAt(Rest(l), at(Rest(l)))
    ensures Step(at)(l).piece.body + Step(at)(l).left.text == l.text
  {
    var open := Unclosed(Rest(l)[..at(Rest(l))]);
    CutInTwo(l.seam, l.text, at(Rest(l)), CloseTags(open), ReopenTags(open));
  }

  // ---- The loop ----

  function Renders(ps: seq<Piece>): seq<string> {
    if ps == [] then [] else [Render(ps[0])] + Renders(ps[1..])
  }

  function Counter(i: nat, total: nat): string {
    "\n(" + Decimal(i) + "/" + Decimal(total) + ")"
  }

  /** The parts with their counters. */
  function Numbered(parts: seq<string>): (r: seq<string>)
    ensures |r| == |parts| && forall i :: 0 <= i < |parts| ==> r[i] == parts[i] + Counter(i + 1, |parts|)
  {
    seq(|parts|, i requires 0 <= i < |parts| => parts[i] + Counter(i + 1, |parts|))
  }

  method NumberParts(parts: seq<string>) returns (numbered: seq<string>)
    ensures numbered == Numbered(parts)
  {
    numbered := parts;
    for i := 0 to |parts|
      invariant |numbered| == |parts|
      invariant forall j :: 0 <= j < |parts| ==> numbered[j] == if j < i then Numbered(parts)[j] else parts[j]
    {
      numbered := numbered[i := numbered[i] + Counter(i + 1, |parts|)];
    }
  }

  const MaxTelegramMessageLen := 4096
  const SuffixSpace := 8

  /** Without a usable limit Telegram's own is taken. */
  function EffectiveLen(maxLen: int): (len: nat)
    ensures len > 0 && (maxLen > 0 ==> len == maxLen)
  {
    if maxLen <= 0 then MaxTelegramMessageLen else maxLen
  }

  /** Room is left for the counter unless that would leave nothing. */
  function ChunkLen(maxLen: nat): nat {
    if maxLen <= SuffixSpace then maxLen else maxLen - SuffixSpace
  }

  lemma Regroup(parts: seq<string>, head: string, more: seq<string>)
    ensures parts + ([head] + more) == parts + [head] + more
  {
  }

  lemma RendersFront(step: Left -> CutOff, chunk: nat, l: Left, n: nat)
    requires |Rest(l)| > chunk && n > 0
    ensures Renders(Pieces(step, chunk, l, n)) ==
            [Render(step(l).piece)] + Renders(Pieces(step, chunk, step(l).left, n - 1))
  {
    var p, ps := step(l).piece, Pieces(step, chunk, step(l).left, n - 1);
    assert ([p] + ps)[0] == p && ([p] + ps)[1..] == ps;
  }

  lemma LastPiece(step: Left -> CutOff, chunk: nat, l: Left, n: nat)
    requires |Rest(l)| <= chunk
    ensures Renders(Pieces(step, chunk, l, n)) == if Rest(l) == "" then [] else [Rest(l)]
  {
    if Rest(l) != "" {
      var p := Piece(l.seam, l.text, "");
      assert [p][1..] == [] && Render(p) == Rest(l);
    }
  }

  function ChunkStep(chunk: nat): Left -> CutOff
    requires chunk > 0
  {
    Step(CutAt(chunk))
  }

  lemma ChunkStepCuts(chunk: nat, l: Left)
    requires 0 < chunk < |Rest(l)|
    ensures Render(ChunkStep(chunk)(l).piece) == Head(Rest(l), chunk)
    ensures Rest(ChunkStep(chunk)(l).left) == Tail(Rest(l), chunk)
  {
    StepCuts(CutAt(chunk), l);
  }

  /** Steps that do what the cuts of the source do. */
  ghost predicate Follows(step: Left -> CutOff, chunk: nat)
    requires chunk > 0
  {
    forall l :: |Rest(l)| > chunk ==>
      Render(step(l).piece) == Head(Rest(l), chunk) && Rest(step(l).left) == Tail(Rest(l), chunk)
  }

  /** The remainder is short enough after at most n steps. */
  predicate Ends(step: Left -> CutOff, chunk: nat, l: Left, n: nat)
    decreases n
  {
    |Rest(l)| <= chunk || (n > 0 && Ends(step, chunk, step(l).left, n - 1))
  }

  lemma {:induction false} EndsIffHalting(step: Left -> CutOff, chunk: nat, round: string -> string, l: Left, n: nat)
    requires forall l :: |Rest(l)| > chunk ==> Rest(step(l).left) == round(Rest(l))
    requires forall s :: |s| <= chunk ==> round(s) == s
    ensures Ends(step, chunk, l, n) <==> |Iterate(round, Rest(l), n)| <= chunk
    decreases n
  {
    if |Rest(l)| <= chunk {
      IterateFixed(round, Rest(l), n);
    } else if n > 0 {
      EndsIffHalting(step, chunk, round, step(l).left, n - 1);
    }
  }

  /** The parts the loop makes of a text, if it ends in so many rounds. */
  function SplitBy(head: string -> string, tail: string -> string, chunk: nat, rest: string, rounds: nat): Option<seq<string>>
    decreases rounds
  {
    if |rest| <= chunk then Some(if rest == "" then [] else [rest])
    else if rounds == 0 then None
    else Prepend([head(rest)], SplitBy(head, tail, chunk, tail(rest), rounds - 1))
  }

  function Heads(chunk: nat): string -> string
    requires chunk > 0
  {
    rest => if |rest| > chunk then Head(rest, chunk) else rest
  }

  function Split(rest: string, chunk: nat, rounds: nat): Option<seq<string>>
    requires chunk > 0
  {
    SplitBy(Heads(chunk), Round(chunk), chunk, rest, rounds)
  }

  function Prepend(front: seq<string>, more: Option<seq<string>>): Option<seq<string>> {
    if more.Some? then Some(front + more.value) else None
  }

  lemma PrependNothing(more: Option<seq<string>>)
    ensures Prepend([], more) == more
  {
    if more.Some? {
      assert [] + more.value == more.value;
    }
  }

  lemma PrependTwice(done: seq<string>, head: string, more: Option<seq<string>>)
    ensures Prepend(done, Prepend([head], more)) == Prepend(done + [head], more)
  {
    if more.Some? {
      Regroup(done, head, more.value);
    }
  }

  lemma OneRound(head: string -> string, tail: string -> string, chunk: nat, done: seq<string>, rest: string, left: nat,
                 part: string, more: string, fewer: nat)
    requires |rest| > chunk && left == fewer + 1 && part == head(rest) && more == tail(rest)
    ensures Prepend(done, SplitBy(head, tail, chunk, rest, left)) == Prepend(done + [part], SplitBy(head, tail, chunk, more, fewer))
  {
    PrependTwice(done, part, SplitBy(head, tail, chunk, more, fewer));
  }

  /** The loop, cutting one part after the other off the front, given up after a number of rounds. */
  method CutParts(msg: string, chunk: nat, rounds: nat) returns (parts: Option<seq<string>>)
    requires chunk > 0
    ensures parts == Split(msg, chunk, rounds)
  {
    var left, rest := rounds, msg;
    var done: seq<string> := [];
    PrependNothing(Split(msg, chunk, rounds));
    while |rest| > chunk
      invariant Prepend(done, Split(rest, chunk, left)) == Split(msg, chunk, rounds)
      decreases left
    {
      if left == 0 {
        return None;
      }
      var part, more := CutHTMLChunk(rest, chunk);
      var fewer := left - 1;
      OneRound(Heads(chunk), Round(chunk), chunk, done, rest, left, part, more, fewer);
      done, rest, left := done + [part], more, fewer;
    }
    if rest != "" {
      done := done + [rest];
    } else {
      assert done + [] == done;
    }
    return Some(done);
  }

  lemma {:induction false} SplitIsPieces(step: Left -> CutOff, head: string -> string, tail: string -> string, chunk: nat,
                                         l: Left, n: nat)
    requires forall l :: |Rest(l)| > chunk ==> Render(step(l).piece) == head(Rest(l)) && Rest(step(l).left) == tail(Rest(l))
    ensures SplitBy(head, tail, chunk, Rest(l), n)
            == if Ends(step, chunk, l, n) then Some(Renders(Pieces(step, chunk, l, n))) else None
    decreases n
  {
    if |Rest(l)| <= chunk {
      LastPiece(step, chunk, l, n);
    } else if n > 0 {
      SplitIsPieces(step, head, tail, chunk, step(l).left, n - 1);
      RendersFront(step, chunk, l, n);
    }
  }

  /** What the loop yields, if it ends in so many rounds. */
  function SplitResult(msg: string, maxLen: nat, rounds: nat): Option<seq<string>>
    requires maxLen > 0
  {
    var chunk := ChunkLen(maxLen);
    if |msg| <= maxLen then Some([msg])
    else if HaltsIn(msg, chunk, rounds) then Some(Numbered(Renders(Pieces(ChunkStep(chunk), chunk, Left("", msg), rounds))))
    else None
  }

  lemma ChunkStepFollows(chunk: nat)
    requires chunk > 0
    ensures Follows(ChunkStep(chunk), chunk)
  {
    forall l | |Rest(l)| > chunk
      ensures Render(ChunkStep(chunk)(l).piece) == Head(Rest(l), chunk) && Rest(ChunkStep(chunk)(l).left) == Tail(Rest(l), chunk)
    {
      ChunkStepCuts(chunk, l);
    }
  }

  lemma ChunkEndsIff(msg: string, chunk: nat, n: nat)
    requires chunk > 0
    ensures Ends(ChunkStep(chunk), chunk, Left("", msg), n) <==> HaltsIn(msg, chunk, n)
  {
    ChunkStepFollows(chunk);
    assert Rest(Left("", msg)) == msg;
    EndsIffHalting(ChunkStep(chunk), chunk, Round(chunk), Left("", msg), n);
  }

  /** A message with tags. The source's loop goes on until it ends, which it need not; here it is given up
      after a number of rounds. */
  method SplitHTML(msg: string, maxLen0: int, rounds: nat) returns (parts: Option<seq<string>>)
    ensures parts == SplitResult(msg, EffectiveLen(maxLen0), rounds)
  {
    var maxLen := EffectiveLen(maxLen0);
    if |msg| <= maxLen {
      return Some([msg]);
    }
    ResultOfLoop(msg, ChunkLen(maxLen), rounds);
    var cut := CutParts(msg, ChunkLen(maxLen), rounds);
    match cut {
      case None => return None;
      case Some(pieces) =>
        var numbered := NumberParts(pieces);
        return Some(numbered);
    }
  }

  lemma ResultOfLoop(msg: string, chunk: nat, rounds: nat)
    requires chunk > 0
    ensures Split(msg, chunk, rounds) ==
            if HaltsIn(msg, chunk, rounds) then Some(Renders(Pieces(ChunkStep(chunk), chunk, Left("", msg), rounds))) else None
  {
    ChunkStepFollows(chunk);
    ChunkEndsIff(msg, chunk, rounds);
    assert Rest(Left("", msg)) == msg;
    SplitIsPieces(ChunkStep(chunk), Heads(chunk), Round(chunk), chunk, Left("", msg), rounds);
  }

  /** More rounds do not change what a loop that ends yields. */
  lemma {:induction false} PiecesStay(step: Left -> CutOff, chunk: nat, l: Left, n: nat, m: nat)
    requires Ends(step, chunk, l, n) && n <= m
    ensures Pieces(step, chunk, l, m) == Pieces(step, chunk, l, n) && Ends(step, chunk, l, m)
    decreases n
  {
    if |Rest(l)| > chunk {
      PiecesStay(step, chunk, step(l).left, n - 1, m - 1);
    }
  }

  /** So a message has one result, or none, however many rounds it is given beyond what it needs. */
  lemma ResultIsDetermined(msg: string, maxLen: nat, n: nat, m: nat)
    requires maxLen > 0 && SplitResult(msg, maxLen, n).Some? && n <= m
    ensures SplitResult(msg, maxLen, m) == SplitResult(msg, maxLen, n)
  {
    if |msg| > maxLen {
      var chunk := ChunkLen(maxLen);
      ChunkEndsIff(msg, chunk, n);
      ChunkEndsIff(msg, chunk, m);
      PiecesStay(ChunkStep(chunk), chunk, Left("", msg), n, m);
    }
  }

  // ---- Nothing is lost ----

  function Bodies(ps: seq<Piece>): string {
    if ps == [] then "" else ps[0].body + Bodies(ps[1..])
  }

  lemma BodiesFront(p: Piece, ps: seq<Piece>)
    ensures Bodies([p] + ps) == p.body + Bodies(ps)
  {
    assert ([p] + ps)[1..] == ps;
  }

  ghost predicate Lossless(step: Left -> CutOff) {
    forall l :: step(l).piece.body + step(l).left.text == l.text
  }

  lemma {:induction false} PiecesAreTheText(step: Left -> CutOff, chunk: nat, l: Left, n: nat)
    requires Lossless(step)
    ensures Bodies(Pieces(step, chunk, l, n)) == l.text
    decreases n
  {
    if n > 0 && |Rest(l)| > chunk {
      PiecesAreTheText(step, chunk, step(l).left, n - 1);
      BodiesFront(step(l).piece, Pieces(step, chunk, step(l).left, n - 1));
    } else {
      var p := Piece(l.seam, l.text, "");
      BodiesFront(p, []);
      assert [p] + [] == [p];
    }
  }

  /** Without the reopened and closing tags, the parts put together are the message, byte for byte,
      wherever it was cut. */
  lemma NothingIsLost(at: string -> nat, chunk: nat, msg: string, n: nat)
    requires Cuts(at)
    ensures Bodies(Pieces(Step(at), chunk, Left("", msg), n)) == msg
  {
    forall l ensures Step(at)(l).piece.body + Step(at)(l).left.text == l.text {
      StepCuts(at, l);
    }
    PiecesAreTheText(Step(at), chunk, Left("", msg), n);
  }

  // ---- Tags ----

  /** What is asked of every remainder that is cut. */
  predicate Along(step: Left -> CutOff, chunk: nat, clean: Left -> bool, l: Left, n: nat)
    decreases n
  {
    n == 0 || |Rest(l)| <= chunk || (clean(l) && Along(step, chunk, clean, step(l).left, n - 1))
  }

  /** The cut does not fall inside a tag. */
  function CleanAt(at: string -> nat): Left -> bool {
    l => !Dangling(Take(Rest(l), at(Rest(l))))
  }

  predicate CleanRun(at: string -> nat, chunk: nat, l: Left, n: nat) {
    Along(Step(at), chunk, CleanAt(at), l, n)
  }

  lemma EndsWithTag(s: string)
    requires s == "" || s[|s| - 1] == '>'
    ensures !Dangling(s)
  {
  }

  lemma CloseTagsEnd(open: seq<string>)
    ensures !Dangling(CloseTags(open)) && !Dangling(ReopenTags(open))
  {
    CloseTagsLast(open);
    EndsWithTag(CloseTags(open));
    EndsWithTag(ReopenTags(open));
  }

  lemma {:induction false} CloseTagsLast(open: seq<string>)
    ensures open != [] ==> CloseTags(open) != "" && CloseTags(open)[|CloseTags(open)| - 1] == '>'
  {
    if |open| > 0 {
      CloseTagsLast(open[..|open| - 1]);
    }
  }

  lemma DanglingConcat(a: string, b: string)
    requires !Dangling(a) && !Dangling(b)
    ensures !Dangling(a + b)
  {
    var s := a + b;
    var lt := LastIndex(s, '<');
    if lt >= |a| {
      assert b[lt - |a|] == '<';
      assert s[|a| + LastIndex(b, '>')] == '>';
    } else if lt >= 0 {
      assert a[lt] == '<' && s[LastIndex(a, '>')] == '>';
    }
  }

  lemma CleanCut(rest: string, cut: nat)
    requires cut <= |rest| && Safe(rest) && !Dangling(rest[..cut])
    ensures Safe(HeadAt(rest, cut)) && Safe(TailAt(rest, cut))
  {
    var open := Unclosed(rest[..cut]);
    CutIsTransparent(rest[..cut]);
    CloseTagsEnd(open);
    DanglingConcat(rest[..cut], CloseTags(open));
    NotDangling(rest);
    DanglingConcat(ReopenTags(open), rest[cut..]);
    assert rest[..cut] + rest[cut..] == rest;
  }

  ghost predicate AllSafe(ps: seq<Piece>) {
    forall i :: 0 <= i < |ps| ==> Safe(Render(ps[i]))
  }

  lemma SafeFront(p: Piece, ps: seq<Piece>)
    requires Safe(Render(p)) && AllSafe(ps)
    ensures AllSafe([p] + ps)
  {
  }

  ghost predicate StepsSafe(step: Left -> CutOff, clean: Left -> bool) {
    forall l :: clean(l) && Safe(Rest(l)) ==> Safe(Render(step(l).piece)) && Safe(Rest(step(l).left))
  }

  lemma {:induction false} SafeAlong(step: Left -> CutOff, chunk: nat, clean: Left -> bool, l: Left, n: nat)
    requires StepsSafe(step, clean) && Along(step, chunk, clean, l, n) && Safe(Rest(l))
    ensures AllSafe(Pieces(step, chunk, l, n))
    decreases n
  {
    if n > 0 && |Rest(l)| > chunk {
      SafeAlong(step, chunk, clean, step(l).left, n - 1);
      SafeFront(step(l).piece, Pieces(step, chunk, step(l).left, n - 1));
    } else {
      assert Render(Piece(l.seam, l.text, "")) == Rest(l);
    }
  }

  /** If no cut falls inside a tag, every part of a balanced message is balanced and ends outside a tag. */
  lemma EveryPartIsSafe(at: string -> nat, chunk: nat, msg: string, n: nat)
    requires Cuts(at) && Safe(msg) && CleanRun(at, chunk, Left("", msg), n)
    ensures AllSafe(Pieces(Step(at), chunk, Left("", msg), n))
  {
    forall l | CleanAt(at)(l) && Safe(Rest(l))
      ensures Safe(Render(Step(at)(l).piece)) && Safe(Rest(Step(at)(l).left))
    {
      StepCuts(at, l);
      CleanCut(Rest(l), at(Rest(l)));
    }
    assert Rest(Left("", msg)) == msg;
    SafeAlong(Step(at), chunk, CleanAt(at), Left("", msg), n);
  }

  /** A property of every piece, given where in the message its body begins. */
  predicate Throughout(ps: seq<Piece>, same: (Piece, nat) -> bool, pos: nat)
    decreases |ps|
  {
    ps == [] || (same(ps[0], pos) && Throughout(ps[1..], same, pos + |ps[0].body|))
  }

  // The next definitions and lemmas hold for any reading u of a text, not only for its open tags.

  /** The body is the part of the message that begins at pos, and after each of its bytes the piece
      reads as the message does there. */
  ghost predicate ReadsTheSame(u: string -> seq<string>, p: Piece, msg: string, pos: nat) {
    && pos + |p.body| <= |msg| && p.body == msg[pos..pos + |p.body|]
    && (p.body != "" ==> forall j :: pos <= j <= pos + |p.body| ==> u(p.seam + msg[pos..j]) == u(msg[..j]))
  }

  /** What is left of the message, behind its seam, reads as it does in the message. */
  ghost predicate SameReading(u: string -> seq<string>, seam: string, msg: string, pos: nat)
    requires pos <= |msg|
  {
    forall j :: pos <= j <= |msg| ==> u(seam + msg[pos..j]) == u(msg[..j])
  }

  /** The reopened tags stand for everything before the cut. */
  ghost predicate StandsFor(u: string -> seq<string>, reopened: string, head: string) {
    forall suffix :: u(reopened + suffix) == u(head + suffix)
  }

  /** The same cut, seen in the text read only up to byte j of the message. */
  lemma CutOfPrefix(seam: string, msg: string, pos: nat, j: nat, cut: nat, closers: string, reopened: string)
    returns (suffix: string)
    requires pos <= |msg| && cut <= |seam| + |msg[pos..]|
    requires pos + |PieceBefore(seam, msg[pos..], cut, closers).body| <= j <= |msg|
    ensures var rest, pos' := seam + msg[pos..], pos + |PieceBefore(seam, msg[pos..], cut, closers).body|;
            seam + msg[pos..j] == rest[..cut] + suffix && SeamAfter(seam, cut, reopened) + msg[pos'..j] == reopened + suffix
  {
    var rest, upTo := seam + msg[pos..], seam + msg[pos..j];
    var pos' := pos + |PieceBefore(seam, msg[pos..], cut, closers).body|;
    suffix := upTo[cut..];
    assert upTo[..cut] == rest[..cut];
    assert upTo == rest[..cut] + suffix;
    if cut <= |seam| {
      assert suffix == seam[cut..] + msg[pos..j];
    } else {
      assert suffix == msg[pos'..j];
    }
  }

  lemma SeamReads(u: string -> seq<string>, seam: string, msg: string, pos: nat, cut: nat, closers: string, reopened: string)
    requires pos <= |msg| && SameReading(u, seam, msg, pos) && cut <= |seam| + |msg[pos..]|
    requires StandsFor(u, reopened, (seam + msg[pos..])[..cut])
    ensures var pos' := pos + |PieceBefore(seam, msg[pos..], cut, closers).body|;
            pos' <= |msg| && SameReading(u, SeamAfter(seam, cut, reopened), msg, pos')
  {
    var pos' := pos + |PieceBefore(seam, msg[pos..], cut, closers).body|;
    var seam' := SeamAfter(seam, cut, reopened);
    forall j | pos' <= j <= |msg| ensures u(seam' + msg[pos'..j]) == u(msg[..j]) {
      var suffix := CutOfPrefix(seam, msg, pos, j, cut, closers, reopened);
    }
  }

  lemma PieceReads(u: string -> seq<string>, seam: string, msg: string, pos: nat, cut: nat, closers: string)
    requires pos <= |msg| && SameReading(u, seam, msg, pos) && cut <= |seam| + |msg[pos..]|
    ensures var p := PieceBefore(seam, msg[pos..], cut, closers);
            ReadsTheSame(u, p, msg, pos) && TextAfter(seam, msg[pos..], cut) == msg[pos + |p.body|..]
  {
  }

  /** A remainder that carries on the message from byte pos. */
  ghost predicate Continues(u: string -> seq<string>, l: Left, msg: string, pos: nat) {
    pos <= |msg| && l.text == msg[pos..] && SameReading(u, l.seam, msg, pos)
  }

  lemma CutContinues(u: string -> seq<string>, l: Left, msg: string, pos: nat, cut: nat, closers: string, reopened: string)
    requires Continues(u, l, msg, pos) && cut <= |Rest(l)| && StandsFor(u, reopened, Rest(l)[..cut])
    ensures var c := CutLeft(l, cut, closers, reopened);
            ReadsTheSame(u, c.piece, msg, pos) && Continues(u, c.left, msg, pos + |c.piece.body|)
  {
    PieceReads(u, l.seam, msg, pos, cut, closers);
    SeamReads(u, l.seam, msg, pos, cut, closers, reopened);
  }

  lemma WholeRest(u: string -> seq<string>, l: Left, msg: string, pos: nat)
    requires Continues(u, l, msg, pos)
    ensures ReadsTheSame(u, Piece(l.seam, l.text, ""), msg, pos)
  {
  }

  lemma ThroughoutFront(p: Piece, ps: seq<Piece>, same: (Piece, nat) -> bool, pos: nat)
    requires same(p, pos) && Throughout(ps, same, pos + |p.body|)
    ensures Throughout([p] + ps, same, pos)
  {
    assert ([p] + ps)[1..] == ps;
  }

  /** What carries over from one remainder to the next, and makes each piece right. */
  ghost predicate CarriesOn(step: Left -> CutOff, clean: Left -> bool, same: (Piece, nat) -> bool, on: (Left, nat) -> bool) {
    forall l, pos: nat :: clean(l) && on(l, pos) ==>
      same(step(l).piece, pos) && on(step(l).left, pos + |step(l).piece.body|)
  }

  ghost predicate CarriesToTheEnd(same: (Piece, nat) -> bool, on: (Left, nat) -> bool) {
    forall l, pos: nat :: on(l, pos) ==> same(Piece(l.seam, l.text, ""), pos)
  }

  lemma {:induction false} CarriedAlong(step: Left -> CutOff, chunk: nat, clean: Left -> bool,
                                        same: (Piece, nat) -> bool, on: (Left, nat) -> bool, l: Left, pos: nat, n: nat)
    requires CarriesOn(step, clean, same, on) && CarriesToTheEnd(same, on)
    requires Along(step, chunk, clean, l, n) && on(l, pos)
    ensures Throughout(Pieces(step, chunk, l, n), same, pos)
    decreases n
  {
    if n > 0 && |Rest(l)| > chunk {
      var p := step(l).piece;
      CarriedAlong(step, chunk, clean, same, on, step(l).left, pos + |p.body|, n - 1);
      ThroughoutFront(p, Pieces(step, chunk, step(l).left, n - 1), same, pos);
    } else {
      ThroughoutFront(Piece(l.seam, l.text, ""), [], same, pos);
      assert [Piece(l.seam, l.text, "")] + [] == [Piece(l.seam, l.text, "")];
    }
  }

  lemma StartContinues(u: string -> seq<string>, msg: string)
    ensures Continues(u, Left("", msg), msg, 0)
  {
    assert msg[0..] == msg;
    forall j | 0 <= j <= |msg| ensures "" + msg[0..j] == msg[..j] {}
  }

  ghost function SameIn(u: string -> seq<string>, msg: string): (Piece, nat) -> bool {
    (p: Piece, pos: nat) => ReadsTheSame(u, p, msg, pos)
  }

  ghost function ContinuesIn(u: string -> seq<string>, msg: string): (Left, nat) -> bool {
    (l: Left, pos: nat) => Continues(u, l, msg, pos)
  }

  lemma StepIs(at: string -> nat, l: Left, open: seq<string>)
    requires open == Unclosed(Take(Rest(l), at(Rest(l))))
    ensures Step(at)(l) == CutLeft(l, at(Rest(l)), CloseTags(open), ReopenTags(open))
  {
  }

  /** For the reading u, a cut outside a tag is transparent. */
  ghost predicate Transparent(u: string -> seq<string>) {
    forall head :: !Dangling(head) ==> StandsFor(u, ReopenTags(Unclosed(head)), head)
  }

  lemma StepCarries(u: string -> seq<string>, step: Left -> CutOff, l: Left, msg: string, pos: nat,
                    cut: nat, closers: string, reopened: string)
    requires step(l) == CutLeft(l, cut, closers, reopened) && cut <= |Rest(l)|
    requires Continues(u, l, msg, pos) && StandsFor(u, reopened, Rest(l)[..cut])
    ensures ReadsTheSame(u, step(l).piece, msg, pos) && Continues(u, step(l).left, msg, pos + |step(l).piece.body|)
  {
    CutContinues(u, l, msg, pos, cut, closers, reopened);
  }

  /** Every clean step gives a piece that reads right and a remainder that carries on the message. */
  ghost predicate StepsRight(u: string -> seq<string>, step: Left -> CutOff, clean: Left -> bool, msg: string) {
    forall l, pos: nat :: clean(l) && Continues(u, l, msg, pos) ==>
      ReadsTheSame(u, step(l).piece, msg, pos) && Continues(u, step(l).left, msg, pos + |step(l).piece.body|)
  }

  lemma CleanStepCarries(u: string -> seq<string>, at: string -> nat, step: Left -> CutOff, l: Left, msg: string, pos: nat)
    requires Cuts(at) && Transparent(u) && step == Step(at) && CleanAt(at)(l) && Continues(u, l, msg, pos)
    ensures ReadsTheSame(u, step(l).piece, msg, pos) && Continues(u, step(l).left, msg, pos + |step(l).piece.body|)
  {
    var cut := at(Rest(l));
    var open := Unclosed(Take(Rest(l), cut));
    StepIs(at, l, open);
    StepCarries(u, step, l, msg, pos, cut, CloseTags(open), ReopenTags(open));
  }

  lemma CleanCutsCarry(u: string -> seq<string>, at: string -> nat, msg: string)
    requires Cuts(at) && Transparent(u)
    ensures StepsRight(u, Step(at), CleanAt(at), msg)
  {
    var step, clean := Step(at), CleanAt(at);
    forall l, pos: nat | clean(l) && Continues(u, l, msg, pos)
      ensures ReadsTheSame(u, step(l).piece, msg, pos) && Continues(u, step(l).left, msg, pos + |step(l).piece.body|)
    {
      CleanStepCarries(u, at, step, l, msg, pos);
    }
  }

  lemma RightStepsCarry(u: string -> seq<string>, step: Left -> CutOff, clean: Left -> bool, msg: string)
    requires StepsRight(u, step, clean, msg)
    ensures CarriesOn(step, clean, SameIn(u, msg), ContinuesIn(u, msg))
  {
  }

  lemma LastCarries(u: string -> seq<string>, msg: string)
    ensures CarriesToTheEnd(SameIn(u, msg), ContinuesIn(u, msg))
  {
    forall l, pos: nat | ContinuesIn(u, msg)(l, pos) ensures SameIn(u, msg)(Piece(l.seam, l.text, ""), pos) {
      WholeRest(u, l, msg, pos);
    }
  }

  function OpenTags(): string -> seq<string> {
    s => Unclosed(s)
  }

  lemma OpenTagsTransparent()
    ensures Transparent(OpenTags())
  {
    forall head | !Dangling(head) ensures StandsFor(OpenTags(), ReopenTags(Unclosed(head)), head) {
      CutIsTransparent(head);
    }
  }

  /** If no cut falls inside a tag, every byte of the message stands under the same open tags in its
      part as in the message. */
  lemma FormattingIsKept(at: string -> nat, chunk: nat, msg: string, n: nat)
    requires Cuts(at) && CleanRun(at, chunk, Left("", msg), n)
    ensures Throughout(Pieces(Step(at), chunk, Left("", msg), n), SameIn(OpenTags(), msg), 0)
  {
    var u := OpenTags();
    OpenTagsTransparent();
    CleanCutsCarry(u, at, msg);
    RightStepsCarry(u, Step(at), CleanAt(at), msg);
    LastCarries(u, msg);
    StartContinues(u, msg);
    CarriedAlong(Step(at), chunk, CleanAt(at), SameIn(u, msg), ContinuesIn(u, msg), Left("", msg), 0, n);
  }

  // ---- The cuts of the source ----

  /** A cut at a safe point is clean; only the cuts made where there is none can fall inside a tag. */
  lemma SafeCutIsClean(chunk: nat, l: Left)
    requires 0 < chunk < |Rest(l)| && SafeCut(Rest(l), chunk) > 0
    ensures CleanAt(CutAt(chunk))(l)
  {
  }

  lemma {:induction false} PlainScan(open: seq<string>, s: string)
    requires '<' !in s
    ensures Scan(open, s) == open && !Dangling(s)
    decreases |s|
  {
    if s != "" {
      assert s[0] in s;
      PlainScan(open, s[1..]);
    }
  }

  /** The counters leave the parts balanced. */
  lemma CounterIsPlain(part: string, i: nat, total: nat)
    requires Safe(part)
    ensures Safe(part + Counter(i, total))
  {
    PlainScan([], Counter(i, total));
    ScanConcat([], part, Counter(i, total));
    DanglingConcat(part, Counter(i, total));
  }
}
