/** Cuts inside a tag (internal/telegram/format.go): exactly when the branch of cutHTMLChunk that is marked as
    unreachable is taken, and exactly when a part that ends inside a tag is balanced all the same. */
module TelegramInside {
  import opened Strings
  import opened TelegramTags
  import opened TelegramCut
  import opened TelegramParts

  // ---- The unfinished tag ----

  /** Where the unfinished tag at the end of a text begins: at the first '<' after the last '>'. */
  function TagStart(s: string): (p: nat)
    requires Dangling(s)
    ensures LastIndex(s, '>') < p < |s| && s[p] == '<'
    ensures forall i :: LastIndex(s, '>') < i < p ==> s[i] != '<'
  {
    IndexFrom(s, '<', LastIndex(s, '>') + 1)
  }

  lemma {:induction false} NoTokens(open: seq<string>, s: string)
    requires '>' !in s
    ensures Scan(open, s) == open
    decreases |s|
  {
    if s != "" {
      assert MatchAt(s) == 0;
      assert forall i :: 0 <= i < |s| - 1 ==> s[1..][i] == s[i + 1];
      NoTokens(open, s[1..]);
    }
  }

  /** The text before the unfinished tag is outside a tag. */
  lemma OutsideBefore(s: string)
    requires Dangling(s)
    ensures !Dangling(s[..TagStart(s)])
  {
    var t, from := s[..TagStart(s)], LastIndex(s, '>') + 1;
    assert LastIndex(t, '<') < from;
    assert from > 0 ==> t[from - 1] == '>';
  }

  lemma NothingEndsAfter(s: string)
    requires Dangling(s)
    ensures '>' !in s[TagStart(s)..]
  {
    var p := TagStart(s);
    assert forall i :: 0 <= i < |s[p..]| ==> s[p..][i] == s[p + i];
  }

  lemma OpenAsBefore(front: string, tag: string)
    requires !Dangling(front) && '>' !in tag
    ensures Unclosed(front + tag) == Unclosed(front)
  {
    ScanConcat([], front, tag);
    NoTokens(Unclosed(front), tag);
  }

  /** The text in two: what comes before the unfinished tag, where the same tags are open, and that tag. */
  lemma Unfinished(s: string) returns (front: string, tag: string)
    requires Dangling(s)
    ensures front == s[..TagStart(s)] && s == front + tag && tag != "" && tag[0] == '<' && '>' !in tag
    ensures !Dangling(front) && Unclosed(front) == Unclosed(s)
  {
    front, tag := s[..TagStart(s)], s[TagStart(s)..];
    OutsideBefore(s);
    NothingEndsAfter(s);
    OpenAsBefore(front, tag);
    assert s == front + tag;
  }

  /** From the '<' of an unfinished tag on, every prefix is inside it. */
  lemma DanglingFrom(s: string, p: nat, m: nat)
    requires p < m <= |s| && s[p] == '<' && forall i :: p <= i < m ==> s[i] != '>'
    ensures Dangling(s[..m])
  {
    assert s[..m][p] == '<';
    assert forall i :: p <= i < m ==> s[..m][i] == s[i];
  }

  lemma {:induction false} NothingSafe(s: string, n: nat, limit: nat)
    requires n < |s| && forall m :: limit < m <= n ==> !Safe(s[..m])
    ensures SearchBack(s, n, limit) == 0
    decreases n
  {
    if n > limit {
      NothingSafe(s, n - 1, limit);
    }
  }

  // ---- The branch marked as unreachable ----

  /** The branch is taken: no safe point is found, yet nothing is open at the rune boundary. */
  predicate TakesDeadBranch(rest: string, maxLen: nat)
    requires 0 < maxLen < |rest|
  {
    SafeCut(rest, maxLen) == 0 && Unclosed(rest[..RuneBoundary(rest, maxLen)]) == []
  }

  /** A continuation byte never follows an ASCII byte, as in UTF-8. */
  predicate RunesWhole(s: string) {
    forall i :: 0 < i < |s| && !RuneStart(s[i]) ==> s[i - 1] as int >= 0x80
  }

  /** No bracket stands between the rune boundary and the length it was sought from. */
  lemma {:induction false} BoundaryBytes(s: string, target: nat)
    requires RunesWhole(s) && target < |s|
    ensures forall i :: RuneBoundary(s, target) <= i < target ==> s[i] as int >= 0x80
  {
    if target > 0 && !RuneStart(s[target]) {
      BoundaryBytes(s, target - 1);
    }
  }

  lemma BoundaryReads(s: string, target: nat)
    requires RunesWhole(s) && target < |s|
    ensures Unclosed(s[..RuneBoundary(s, target)]) == Unclosed(s[..target])
    ensures Dangling(s[..RuneBoundary(s, target)]) == Dangling(s[..target])
  {
    var r := RuneBoundary(s, target);
    var a, b := s[..r], s[r..target];
    BoundaryBytes(s, target);
    assert forall i :: 0 <= i < |b| ==> b[i] == s[r + i];
    assert s[..target] == a + b;
    DanglingThrough(a, b);
    if Dangling(a) {
      InsideScan(a, b);
    } else {
      ScanConcat([], a, b);
      NoTokens(Unclosed(a), b);
    }
  }

  lemma DanglingThrough(a: string, b: string)
    requires '<' !in b && '>' !in b
    ensures Dangling(a + b) == Dangling(a)
  {
    SameLast(a, b, '<');
    SameLast(a, b, '>');
  }

  lemma SameLast(a: string, b: string, c: char)
    requires c !in b
    ensures LastIndex(a + b, c) == LastIndex(a, c)
  {
    var i, j := LastIndex(a + b, c), LastIndex(a, c);
    assert forall k :: |a| <= k < |a + b| ==> (a + b)[k] == b[k - |a|];
    assert j >= 0 ==> (a + b)[j] == c;
    assert i >= 0 ==> a[i] == c;
  }

  lemma InsideScan(a: string, b: string)
    requires Dangling(a) && '>' !in b
    ensures Unclosed(a + b) == Unclosed(a)
  {
    var front, tag := Unfinished(a);
    Concat3(front, tag, b);
    OpenAsBefore(front, tag + b);
  }

  /** With nothing open at maxLen bytes, there is no safe point exactly if an unfinished tag goes back beyond the
      search. */
  lemma NoSafePointIff(rest: string, maxLen: nat)
    requires 0 < maxLen < |rest| && Unclosed(rest[..maxLen]) == []
    ensures SafeCut(rest, maxLen) == 0 <==> Dangling(rest[..maxLen]) && TagStart(rest[..maxLen]) <= Limit(maxLen)
  {
    if Dangling(rest[..maxLen]) {
      if TagStart(rest[..maxLen]) <= Limit(maxLen) {
        BeyondTheSearch(rest, maxLen);
      } else {
        WithinTheSearch(rest, maxLen);
      }
    }
  }

  lemma BeyondTheSearch(rest: string, maxLen: nat)
    requires 0 < maxLen < |rest| && Dangling(rest[..maxLen]) && TagStart(rest[..maxLen]) <= Limit(maxLen)
    ensures SafeCut(rest, maxLen) == 0
  {
    var p := TagStart(rest[..maxLen]);
    assert forall i :: p <= i < maxLen ==> rest[i] == rest[..maxLen][i] != '>';
    forall m | Limit(maxLen) < m <= maxLen ensures !Safe(rest[..m]) {
      DanglingFrom(rest, p, m);
    }
    NothingSafe(rest, maxLen - 1, Limit(maxLen));
  }

  lemma WithinTheSearch(rest: string, maxLen: nat)
    requires 0 < maxLen < |rest| && Unclosed(rest[..maxLen]) == []
    requires Dangling(rest[..maxLen]) && TagStart(rest[..maxLen]) > Limit(maxLen)
    ensures SafeCut(rest, maxLen) > 0
  {
    var front, tag := Unfinished(rest[..maxLen]);
    assert front == rest[..|front|] && rest[|front|] == '<' && RuneStart(rest[|front|]);
  }

  /** In UTF-8 text the branch is taken exactly when nothing is open at maxLen bytes, which lie inside a tag that
      begins further back than the search for a safe point goes. The part is then the text up to the rune
      boundary, broken inside that tag, and so is not balanced. */
  lemma DeadBranchIff(rest: string, maxLen: nat)
    requires 0 < maxLen < |rest| && RunesWhole(rest)
    ensures TakesDeadBranch(rest, maxLen) <==>
            Unclosed(rest[..maxLen]) == [] && Dangling(rest[..maxLen]) && TagStart(rest[..maxLen]) <= Limit(maxLen)
    ensures TakesDeadBranch(rest, maxLen) ==>
              Head(rest, maxLen) == rest[..RuneBoundary(rest, maxLen)] && Dangling(Head(rest, maxLen)) && !Safe(Head(rest, maxLen))
  {
    BoundaryReads(rest, maxLen);
    if Unclosed(rest[..maxLen]) == [] {
      NoSafePointIff(rest, maxLen);
    }
    if TakesDeadBranch(rest, maxLen) {
      assert CutPoint(rest, maxLen) == RuneBoundary(rest, maxLen);
      NothingOpen(rest, RuneBoundary(rest, maxLen));
    }
  }

  /** For instance wherever a tag is longer than the search goes back, with no tag before it in the part. */
  lemma LongTagReaches(rest: string, maxLen: nat, p: nat)
    requires p <= Limit(maxLen) && p < maxLen < |rest| && rest[p] == '<' && '>' !in rest[..maxLen]
    ensures TakesDeadBranch(rest, maxLen)
  {
    assert forall i :: 0 <= i < maxLen ==> rest[i] == rest[..maxLen][i] != '>';
    forall m | Limit(maxLen) < m <= maxLen ensures !Safe(rest[..m]) {
      DanglingFrom(rest, p, m);
    }
    NothingSafe(rest, maxLen - 1, Limit(maxLen));
    var r := RuneBoundary(rest, maxLen);
    assert rest[..r] == rest[..maxLen][..r];
    NoTokens([], rest[..r]);
  }

  lemma WholeSuffix(s: string, m: nat)
    requires RunesWhole(s) && m <= |s|
    ensures RunesWhole(s[m..])
  {
    assert forall i :: 0 <= i < |s[m..]| ==> s[m..][i] == s[m + i];
  }

  lemma CutAtRune(rest: string, maxLen: nat)
    requires 0 < maxLen < |rest| && OpenAtCut(rest, maxLen) != []
    ensures RuneStart(rest[CutPoint(rest, maxLen)])
  {
    assert CutPoint(rest, maxLen) > 0 by { assert rest[..0] == ""; }
  }

  /** Remainders of UTF-8 text are such text again. */
  lemma TailIsWhole(rest: string, maxLen: nat)
    requires 0 < maxLen < |rest| && RunesWhole(rest)
    ensures RunesWhole(Tail(rest, maxLen))
  {
    var cut, open := CutPoint(rest, maxLen), OpenAtCut(rest, maxLen);
    if open == [] {
      NothingOpen(rest, cut);
      WholeSuffix(rest, cut);
    } else {
      CutAtRune(rest, maxLen);
      ScanKeepsNames([], rest[..cut]);
      AsciiNames(open);
      WholeJoin(ReopenTags(open), rest, cut);
    }
  }

  lemma {:induction false} AsciiNames(open: seq<string>)
    requires AreNames(open)
    ensures forall c :: c in ReopenTags(open) ==> RuneStart(c)
  {
    if open != [] {
      AsciiNames(open[..|open| - 1]);
      var name := open[|open| - 1];
      forall c | c in name ensures RuneStart(c) {
        var i :| 0 <= i < |name| && name[i] == c;
      }
    }
  }

  lemma WholeJoin(front: string, rest: string, cut: nat)
    requires RunesWhole(rest) && cut < |rest| && RuneStart(rest[cut]) && forall c :: c in front ==> RuneStart(c)
    ensures RunesWhole(front + rest[cut..])
  {
    var s := front + rest[cut..];
    assert forall i :: 0 <= i < |front| ==> s[i] in front && RuneStart(s[i]);
    assert forall i :: |front| <= i < |s| ==> s[i] == rest[cut + (i - |front|)];
    forall i | 0 < i < |s| && !RuneStart(s[i]) ensures s[i - 1] as int >= 0x80 {
      var j := cut + (i - |front|);
      assert s[i] == rest[j] && s[i - 1] == rest[j - 1];
    }
  }

  // ---- Parts that end inside a tag ----

  function EndTag(name: string): string { "</" + name + ">" }

  /** The stack after the unfinished tag and the first closing tag have run together. */
  function RunTogether(s: string): seq<string>
    requires Dangling(s) && Unclosed(s) != []
  {
    var open := Unclosed(s);
    Scan(open, s[TagStart(s)..] + EndTag(open[|open| - 1]))
  }

  /** A cut that leaves a balanced part: outside a tag, or inside one that, together with the first closing
      tag, still closes what that was to close. */
  predicate PartStaysSafe(rest: string, cut: nat)
    requires cut <= |rest|
  {
    var s := rest[..cut];
    var open := Unclosed(s);
    !Dangling(s) || (open != [] && RunTogether(s) == open[..|open| - 1])
  }

  /** The only '>' is at the end. */
  predicate OneEnd(s: string) {
    s != "" && s[|s| - 1] == '>' && forall i :: 0 <= i < |s| - 1 ==> s[i] != '>'
  }

  lemma TokenToTheEnd(s: string)
    requires OneEnd(s) && MatchAt(s) > 0
    ensures MatchAt(s) == |s|
  {
    assert s[IndexOf(s, '>')] == '>';
  }

  lemma ApplyPopsOne(open: seq<string>, tag: string)
    ensures |Apply(open, tag)| >= |open| - 1
  {
  }

  /** Text with a single end of a tag closes at most one tag. */
  lemma {:induction false} OneTokenAtMost(open: seq<string>, s: string)
    requires OneEnd(s)
    ensures |Scan(open, s)| >= |open| - 1
    decreases |s|
  {
    if MatchAt(s) > 0 {
      TokenToTheEnd(s);
      assert s[..|s|] == s && s[|s|..] == "";
      ApplyPopsOne(open, s);
    } else if |s| > 1 {
      assert forall i :: 0 <= i < |s| - 1 ==> s[1..][i] == s[i + 1];
      OneTokenAtMost(open, s[1..]);
    } else {
      assert s[1..] == "";
    }
  }

  lemma TagThenEnd(tag: string, name: string)
    requires '>' !in tag && IsName(name)
    ensures OneEnd(tag + EndTag(name))
  {
    NameHasNoMarkup(name, '>');
    var s := tag + ("</" + name);
    assert tag + EndTag(name) == s + ">";
    assert forall i :: 0 <= i < |s| ==> s[i] in s && s[i] != '>';
  }

  lemma ApplyEndTag(stack: seq<string>, name: string)
    requires IsName(name)
    ensures Apply(stack, EndTag(name)) == if stack != [] && stack[|stack| - 1] == name then stack[..|stack| - 1] else stack
    ensures MatchAt(EndTag(name)) == |EndTag(name)| > 0
  {
    CloseTagToken(name);
  }

  lemma CloseTagsFront(open: seq<string>)
    requires open != []
    ensures CloseTags(open) == EndTag(open[|open| - 1]) + CloseTags(open[..|open| - 1])
  {
  }

  lemma CloseOne(stack: seq<string>, open: seq<string>) returns (stack': seq<string>)
    requires open != [] && IsName(open[|open| - 1])
    ensures stack' == if stack != [] && stack[|stack| - 1] == open[|open| - 1] then stack[..|stack| - 1] else stack
    ensures Scan(stack, CloseTags(open)) == Scan(stack', CloseTags(open[..|open| - 1]))
  {
    var name := open[|open| - 1];
    stack' := Apply(stack, EndTag(name));
    ApplyEndTag(stack, name);
    CloseTagsFront(open);
    ScanToken(stack, EndTag(name), CloseTags(open[..|open| - 1]));
  }

  /** Closing tags close exactly the stack they were made for. */
  lemma {:induction false} ClosesExactly(stack: seq<string>, open: seq<string>)
    requires AreNames(open) && |stack| >= |open| && Scan(stack, CloseTags(open)) == []
    ensures stack == open
  {
    if open != [] {
      var stack' := CloseOne(stack, open);
      ClosesExactly(stack', open[..|open| - 1]);
      PushTop(open);
      if stack != [] {
        PushTop(stack);
      }
    }
  }

  /** The stack after a part that ends inside a tag, with its closing tags. */
  lemma DanglingPart(s: string)
    requires Dangling(s) && Unclosed(s) != []
    ensures var open := Unclosed(s);
            && Unclosed(s + CloseTags(open)) == Scan(RunTogether(s), CloseTags(open[..|open| - 1]))
            && !Dangling(s + CloseTags(open))
  {
    var open := Unclosed(s);
    var last := |open| - 1;
    var front, tag := Unfinished(s);
    var first, more := EndTag(open[last]), CloseTags(open[..last]);
    assert tag == s[TagStart(s)..];
    assert s + CloseTags(open) == front + ((tag + first) + more) by {
      Concat3(front, tag, first + more);
      Concat3(tag, first, more);
    }
    ScanConcat([], front, (tag + first) + more);
    EndsWithTag(tag + first);
    ScanConcat(open, tag + first, more);
    CloseTagsLast(open);
    EndsWithTag(s + CloseTags(open));
  }

  lemma ClosesExactlyIff(stack: seq<string>, open: seq<string>)
    requires AreNames(open) && |stack| >= |open|
    ensures Scan(stack, CloseTags(open)) == [] <==> stack == open
  {
    if stack == open {
      ScanCloseTags([], open, "");
      assert [] + open == open && CloseTags(open) + "" == CloseTags(open);
    } else if Scan(stack, CloseTags(open)) == [] {
      ClosesExactly(stack, open);
    }
  }

  lemma LengthAfter(open: seq<string>, tag: string, name: string)
    requires '>' !in tag && IsName(name)
    ensures |Scan(open, tag + EndTag(name))| >= |open| - 1
  {
    TagThenEnd(tag, name);
    OneTokenAtMost(open, tag + EndTag(name));
  }

  lemma LastIsName(s: string)
    requires Unclosed(s) != []
    ensures AreNames(Unclosed(s)) && IsName(Unclosed(s)[|Unclosed(s)| - 1])
  {
    ScanKeepsNames([], s);
  }

  lemma RunTogetherLength(s: string)
    requires Dangling(s) && Unclosed(s) != []
    ensures |RunTogether(s)| >= |Unclosed(s)| - 1
  {
    LastIsName(s);
    NothingEndsAfter(s);
    LengthAfter(Unclosed(s), s[TagStart(s)..], Unclosed(s)[|Unclosed(s)| - 1]);
  }

  lemma DanglingPartIsSafeIff(s: string)
    requires Dangling(s) && Unclosed(s) != []
    ensures var open := Unclosed(s); Safe(s + CloseTags(open)) <==> RunTogether(s) == open[..|open| - 1]
  {
    var open, stack := Unclosed(s), RunTogether(s);
    ScanKeepsNames([], s);
    DanglingPart(s);
    RunTogetherLength(s);
    ClosesExactlyIff(stack, open[..|open| - 1]);
  }

  lemma CleanPartIsSafe(s: string)
    requires !Dangling(s)
    ensures Safe(s + CloseTags(Unclosed(s)))
  {
    CutIsTransparent(s);
    CloseTagsEnd(Unclosed(s));
    DanglingConcat(s, CloseTags(Unclosed(s)));
  }

  /** A part is balanced exactly if its cut is of that kind. In particular a part with nothing to close never
      is when it ends inside a tag. */
  lemma PartIsSafeIff(rest: string, cut: nat)
    requires cut <= |rest|
    ensures Safe(HeadAt(rest, cut)) <==> PartStaysSafe(rest, cut)
  {
    var s := rest[..cut];
    if !Dangling(s) {
      CleanPartIsSafe(s);
    } else if Unclosed(s) == [] {
      NothingOpen(rest, cut);
    } else {
      DanglingPartIsSafeIff(s);
    }
  }

  // ---- All parts of a message ----

  /** What holds of every remainder that is cut; the last one is balanced. */
  predicate AllAlong(stays: string -> bool, step: Left -> CutOff, chunk: nat, l: Left, n: nat)
    decreases n
  {
    if n == 0 || |Rest(l)| <= chunk then Rest(l) == "" || Safe(Rest(l))
    else stays(Rest(l)) && AllAlong(stays, step, chunk, step(l).left, n - 1)
  }

  ghost predicate AllAre(whole: Piece -> bool, ps: seq<Piece>) {
    forall i :: 0 <= i < |ps| ==> whole(ps[i])
  }

  lemma FrontIff(whole: Piece -> bool, p: Piece, ps: seq<Piece>)
    ensures AllAre(whole, [p] + ps) <==> whole(p) && AllAre(whole, ps)
  {
    var all := [p] + ps;
    assert all[0] == p && forall i :: 0 <= i < |ps| ==> all[i + 1] == ps[i];
  }

  lemma LastIff(whole: Piece -> bool, l: Left)
    requires whole(Piece(l.seam, l.text, "")) <==> Safe(Rest(l))
    ensures AllAre(whole, if Rest(l) == "" then [] else [Piece(l.seam, l.text, "")]) <==> Rest(l) == "" || Safe(Rest(l))
  {
    var p := Piece(l.seam, l.text, "");
    FrontIff(whole, p, []);
    assert [p] + [] == [p];
  }

  lemma OneMorePiece(step: Left -> CutOff, chunk: nat, l: Left, n: nat, fewer: nat)
    requires n == fewer + 1 && |Rest(l)| > chunk
    ensures Pieces(step, chunk, l, n) == [step(l).piece] + Pieces(step, chunk, step(l).left, fewer)
  {
    assert fewer == n - 1;
  }

  lemma OneMoreAlong(stays: string -> bool, step: Left -> CutOff, chunk: nat, l: Left, n: nat, fewer: nat)
    requires n == fewer + 1 && |Rest(l)| > chunk
    ensures AllAlong(stays, step, chunk, l, n) <==> stays(Rest(l)) && AllAlong(stays, step, chunk, step(l).left, fewer)
  {
    assert fewer == n - 1;
  }

  lemma LastStep(stays: string -> bool, step: Left -> CutOff, chunk: nat, l: Left, n: nat)
    requires n == 0 || |Rest(l)| <= chunk
    ensures Pieces(step, chunk, l, n) == if Rest(l) == "" then [] else [Piece(l.seam, l.text, "")]
    ensures AllAlong(stays, step, chunk, l, n) <==> Rest(l) == "" || Safe(Rest(l))
  {
  }

  lemma {:induction false} StepsAreSafeIff(whole: Piece -> bool, stays: string -> bool, step: Left -> CutOff, chunk: nat, l: Left, n: nat)
    requires forall l :: |Rest(l)| > chunk ==> (whole(step(l).piece) <==> stays(Rest(l)))
    requires forall l: Left :: whole(Piece(l.seam, l.text, "")) <==> Safe(Rest(l))
    ensures AllAre(whole, Pieces(step, chunk, l, n)) <==> AllAlong(stays, step, chunk, l, n)
    decreases n
  {
    if n > 0 && |Rest(l)| > chunk {
      var c, fewer := step(l), n - 1;
      StepsAreSafeIff(whole, stays, step, chunk, c.left, fewer);
      OneMorePiece(step, chunk, l, n, fewer);
      OneMoreAlong(stays, step, chunk, l, n, fewer);
      FrontIff(whole, c.piece, Pieces(step, chunk, c.left, fewer));
    } else {
      LastStep(stays, step, chunk, l, n);
      LastIff(whole, l);
    }
  }

  function RendersSafe(): Piece -> bool {
    (p: Piece) => Safe(Render(p))
  }

  function StaysSafe(at: string -> nat): string -> bool {
    s => at(s) <= |s| && PartStaysSafe(s, at(s))
  }

  /** The parts of a message, wherever it is cut, are all balanced exactly if every cut leaves its part so and
      what is left at the end is balanced. */
  lemma PartsAreSafeIff(at: string -> nat, chunk: nat, msg: string, n: nat)
    requires Cuts(at)
    ensures AllSafe(Pieces(Step(at), chunk, Left("", msg), n))
       <==> AllAlong(StaysSafe(at), Step(at), chunk, Left("", msg), n)
  {
    forall l ensures RendersSafe()(Step(at)(l).piece) <==> StaysSafe(at)(Rest(l)) {
      StepCuts(at, l);
      PartIsSafeIff(Rest(l), at(Rest(l)));
    }
    forall l: Left ensures RendersSafe()(Piece(l.seam, l.text, "")) <==> Safe(Rest(l)) {
      assert Render(Piece(l.seam, l.text, "")) == Rest(l);
    }
    assert AllSafe(Pieces(Step(at), chunk, Left("", msg), n)) <==> AllAre(RendersSafe(), Pieces(Step(at), chunk, Left("", msg), n));
    StepsAreSafeIff(RendersSafe(), StaysSafe(at), Step(at), chunk, Left("", msg), n);
  }

  lemma NotTagBody(b: string, a: string)
    requires IsName(b)
    ensures !IsTagBody(b + "</" + a)
  {
    var body := b + "</" + a;
    NameHasNoMarkup(b, '/');
    assert TrimPrefix(body, '/') == body;
    assert body[|b|] == '<' && forall i :: 0 <= i < |b| ==> body[i] == b[i];
  }

  lemma NoToken(body: string)
    requires '>' !in body && !IsTagBody(body)
    ensures MatchAt("<" + body + ">") == 0
  {
    var s := "<" + body + ">";
    assert s[|s| - 1] == '>' && s[..|s| - 1] == "<" + body;
    IndexIs(s, '>', |s| - 1);
    assert s[1..|s| - 1] == body;
  }

  lemma BrokenForm(a: string, b: string)
    ensures "<" + b + EndTag(a) == "<" + (b + "</" + a) + ">"
    ensures ("<" + b + EndTag(a))[1..] == b + EndTag(a)
  {
  }

  /** An unfinished opening tag before a closing tag is no token. */
  lemma BrokenTag(a: string, b: string)
    requires IsName(a) && IsName(b)
    ensures MatchAt("<" + b + EndTag(a)) == 0
  {
    NameHasNoMarkup(a, '>');
    NameHasNoMarkup(b, '>');
    NotTagBody(b, a);
    NoToken(b + "</" + a);
    BrokenForm(a, b);
  }

  lemma SkipByte(open: seq<string>, s: string, rest: string)
    requires s != "" && MatchAt(s) == 0 && s[1..] == rest
    ensures Scan(open, s) == Scan(open, rest)
  {
  }

  lemma BrokenIsSkipped(open: seq<string>, a: string, b: string)
    requires IsName(a) && IsName(b)
    ensures Scan(open, "<" + b + EndTag(a)) == Scan(open, EndTag(a))
  {
    BrokenTag(a, b);
    BrokenForm(a, b);
    SkipByte(open, "<" + b + EndTag(a), b + EndTag(a));
    NameHasNoMarkup(b, '<');
    SkipText(open, b, EndTag(a));
  }

  lemma BrokenScan(a: string, b: string)
    requires IsName(a) && IsName(b)
    ensures Scan([a], "<" + b + EndTag(a)) == []
  {
    BrokenIsSkipped([a], a, b);
    ApplyEndTag([a], a);
    ScanToken([a], EndTag(a), "");
    assert EndTag(a) + "" == EndTag(a);
  }

  /** A cut inside a tag can go unnoticed by the scanner: the part <a><b, closed with </a>, counts as balanced
      although it holds a broken tag. */
  lemma BrokenButBalanced(a: string, b: string)
    requires IsName(a) && IsName(b)
    ensures var s := "<" + a + ">" + ("<" + b); Dangling(s) && Unclosed(s) == [a] && Safe(s + CloseTags([a]))
  {
    var tag, open := "<" + a + ">", "<" + b;
    var s := tag + open;
    OpenTagToken(a);
    ScanToken([], tag, open);
    NameHasNoMarkup(b, '>');
    NoTokens([a], open);
    assert Apply([], tag) == [a];
    BrokenTagStart(tag, b);
    assert s[|tag|..] == open;
    BrokenScan(a, b);
    DanglingPartIsSafeIff(s);
  }

  lemma BrokenTagStart(tag: string, b: string)
    requires tag != "" && tag[|tag| - 1] == '>' && IsName(b)
    ensures var s := tag + ("<" + b); Dangling(s) && TagStart(s) == |tag|
  {
    var s := tag + ("<" + b);
    NameHasNoMarkup(b, '>');
    NameHasNoMarkup(b, '<');
    assert s[|tag|] == '<' && s[|tag| - 1] == '>';
    assert forall i :: |tag| < i < |s| ==> s[i] == b[i - |tag| - 1];
  }
}
