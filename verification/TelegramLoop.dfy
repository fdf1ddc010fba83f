/** The loop of SplitMessage over the cuts: when it ends, and what its parts are. */
module TelegramLoop {
  import opened Iteration
  import opened Strings
  import opened TelegramTags
  import opened TelegramCut

  /** One round of the loop. */
  function Round(chunk: nat): string -> string
    requires chunk > 0
  {
    rest => if |rest| > chunk then Tail(rest, chunk) else rest
  }

  /** What is left after at most n rounds. */
  function RestAfter(rest: string, chunk: nat, n: nat): string
    requires chunk > 0
  {
    Iterate(Round(chunk), rest, n)
  }

  predicate HaltsIn(rest: string, chunk: nat, n: nat)
    requires chunk > 0
  {
    |RestAfter(rest, chunk, n)| <= chunk
  }

  /** The next cut takes off nothing but bare opening tags. */
  predicate Stuck(rest: string, chunk: nat)
    requires chunk > 0
  {
    |rest| > chunk && BareOpenTags(rest[..CutPoint(rest, chunk)])
  }

  // ---- Letter case ----

  predicate SameFold(a: string, b: string) {
    |a| == |b| && forall i :: 0 <= i < |a| ==> LowerChar(a[i]) == LowerChar(b[i])
  }

  lemma FoldNameLength(a: string, b: string)
    requires SameFold(a, b)
    ensures NameLength(a) == NameLength(b)
  {
    assert forall i :: 0 <= i < |a| ==> (IsAlnum(a[i]) <==> IsAlnum(b[i]));
  }

  lemma FoldSlice(a: string, b: string, i: nat, j: nat)
    requires SameFold(a, b) && i <= j <= |a|
    ensures SameFold(a[i..j], b[i..j])
  {
  }

  lemma FoldIndex(a: string, b: string, c: char)
    requires SameFold(a, b) && !IsAlnum(c) && c in a
    ensures c in b && IndexOf(b, c) == IndexOf(a, c)
  {
    var k := IndexOf(a, c);
    assert b[k] == c;
    forall i | 0 <= i < k ensures b[..k][i] != c {
      assert a[..k][i] == a[i] != c;
    }
    IndexIs(b, c, k);
  }

  lemma FoldTrim(a: string, b: string)
    requires SameFold(a, b)
    ensures SameFold(TrimPrefix(a, '/'), TrimPrefix(b, '/'))
  {
    if a != "" && a[0] == '/' {
      FoldSlice(a, b, 1, |a|);
    }
  }

  lemma FoldBody(a: string, b: string)
    requires SameFold(a, b)
    ensures IsTagBody(a) == IsTagBody(b)
  {
    FoldTrim(a, b);
    FoldNameLength(TrimPrefix(a, '/'), TrimPrefix(b, '/'));
  }

  lemma FoldSym(a: string, b: string)
    requires SameFold(a, b)
    ensures SameFold(b, a)
  {
  }

  lemma FoldMatch(a: string, b: string)
    requires SameFold(a, b) && MatchAt(a) > 0
    ensures MatchAt(b) == MatchAt(a)
  {
    FoldIndex(a, b, '>');
    var g := IndexOf(a, '>');
    FoldSlice(a, b, 1, g);
    FoldBody(a[1..g], b[1..g]);
  }

  lemma FoldLower(a: string, b: string)
    requires SameFold(a, b)
    ensures ToLower(a) == ToLower(b)
  {
  }

  lemma FoldTagName(a: string, b: string)
    requires SameFold(a, b) && MatchAt(a) == |a| > 0
    ensures MatchAt(b) == |b| && TagName(a) == TagName(b)
  {
    FoldMatch(a, b);
    NameOfToken(a);
    NameOfToken(b);
    var last := |a| - 1;
    FoldSlice(a, b, 1, last);
    FoldTrim(a[1..last], b[1..last]);
    FoldNameLength(Inner(a), Inner(b));
    FoldSlice(Inner(a), Inner(b), 0, NameLength(Inner(a)));
    FoldLower(Inner(a)[..NameLength(Inner(a))], Inner(b)[..NameLength(Inner(b))]);
  }

  lemma FoldKind(a: string, b: string)
    requires SameFold(a, b) && |a| >= 3
    ensures Closes(a) == Closes(b) && SelfCloses(a) == SelfCloses(b)
  {
    assert a[..2] == [a[0], a[1]] && b[..2] == [b[0], b[1]];
    assert a[|a| - 2..] == [a[|a| - 2], a[|a| - 1]] && b[|b| - 2..] == [b[|b| - 2], b[|b| - 1]];
  }

  lemma FoldApply(open: seq<string>, a: string, b: string)
    requires SameFold(a, b) && MatchAt(a) == |a| > 0
    ensures Apply(open, a) == Apply(open, b)
  {
    FoldTagName(a, b);
    FoldKind(a, b);
  }

  lemma FoldMatchAt(a: string, b: string)
    requires SameFold(a, b)
    ensures MatchAt(a) == MatchAt(b)
  {
    FoldSym(a, b);
    if MatchAt(a) > 0 {
      FoldMatch(a, b);
    } else if MatchAt(b) > 0 {
      FoldMatch(b, a);
    }
  }

  /** Letter case is of no account to the scanner. */
  lemma {:induction false} FoldScan(open: seq<string>, a: string, b: string)
    requires SameFold(a, b)
    ensures Scan(open, a) == Scan(open, b)
    decreases |a|
  {
    if a != "" {
      FoldMatchAt(a, b);
      var n := MatchAt(a);
      if n > 0 {
        TokenAlone(a);
        FoldSlice(a, b, 0, n);
        FoldApply(open, a[..n], b[..n]);
        FoldSlice(a, b, n, |a|);
        FoldScan(Apply(open, a[..n]), a[n..], b[n..]);
      } else {
        FoldSlice(a, b, 1, |a|);
        FoldScan(open, a[1..], b[1..]);
      }
    }
  }

  lemma FoldLastIndex(a: string, b: string, c: char)
    requires SameFold(a, b) && !IsAlnum(c)
    ensures LastIndex(a, c) == LastIndex(b, c)
  {
    var i, j := LastIndex(a, c), LastIndex(b, c);
    assert i >= 0 ==> b[i] == c;
    assert j >= 0 ==> a[j] == c;
  }

  lemma FoldSafe(a: string, b: string, n: nat)
    requires SameFold(a, b) && n <= |a|
    ensures Safe(a[..n]) == Safe(b[..n]) && Unclosed(a[..n]) == Unclosed(b[..n])
  {
    FoldSlice(a, b, 0, n);
    FoldScan([], a[..n], b[..n]);
    FoldLastIndex(a[..n], b[..n], '<');
    FoldLastIndex(a[..n], b[..n], '>');
  }

  lemma FoldRune(a: string, b: string, i: nat)
    requires SameFold(a, b) && i < |a|
    ensures RuneStart(a[i]) == RuneStart(b[i])
  {
  }

  lemma {:induction false} FoldBoundary(a: string, b: string, t: nat)
    requires SameFold(a, b) && t < |a|
    ensures RuneBoundary(a, t) == RuneBoundary(b, t)
  {
    FoldRune(a, b, t);
    if t > 0 && !RuneStart(a[t]) {
      FoldBoundary(a, b, t - 1);
    }
  }

  lemma {:induction false} FoldSearch(a: string, b: string, n: nat, limit: nat)
    requires SameFold(a, b) && n < |a|
    ensures SearchBack(a, n, limit) == SearchBack(b, n, limit)
    decreases n
  {
    if n > limit {
      FoldRune(a, b, n);
      FoldSafe(a, b, n);
      FoldSearch(a, b, n - 1, limit);
    }
  }

  lemma FoldSafeCut(a: string, b: string, chunk: nat)
    requires SameFold(a, b) && 0 < chunk < |a|
    ensures SafeCut(a, chunk) == SafeCut(b, chunk)
  {
    FoldSafe(a, b, chunk);
    FoldSearch(a, b, chunk - 1, Limit(chunk));
  }

  lemma FoldCutPoint(a: string, b: string, chunk: nat)
    requires SameFold(a, b) && 0 < chunk < |a|
    ensures CutPoint(a, chunk) == CutPoint(b, chunk)
  {
    FoldSafeCut(a, b, chunk);
    if SafeCut(a, chunk) == 0 {
      FoldBoundary(a, b, chunk);
      var first := RuneBoundary(a, chunk);
      FoldSafe(a, b, first);
      var closing := |CloseTags(Unclosed(a[..first]))|;
      if closing < chunk {
        FoldBoundary(a, b, chunk - closing);
      }
    }
  }

  lemma {:induction false} FoldBare(a: string, b: string)
    requires SameFold(a, b) && BareOpenTags(a)
    ensures BareOpenTags(b)
    decreases |a|
  {
    if a != "" {
      FoldMatchAt(a, b);
      assert forall i :: 0 <= i < |a| ==> (IsAlnum(a[i]) <==> IsAlnum(b[i]));
      FoldSlice(a, b, MatchAt(a), |a|);
      FoldBare(a[MatchAt(a)..], b[MatchAt(a)..]);
    }
  }

  // ---- When the loop ends ----

  /** A bare token is its name between brackets, up to letter case. */
  lemma BareTokenName(tag: string)
    requires MatchAt(tag) == |tag| > 0 && AllAlnumInside(tag)
    ensures TagName(tag) == ToLower(tag[1..|tag| - 1])
  {
    NameOfToken(tag);
    var body := tag[1..|tag| - 1];
    assert forall i :: 0 <= i < |body| ==> body[i] == tag[i + 1];
    assert TrimPrefix(body, '/') == body;
    AllAlnum(body);
  }

  lemma LowerFolds(tag: string)
    requires |tag| >= 2 && tag[0] == '<' && tag[|tag| - 1] == '>'
    ensures SameFold(tag, "<" + ToLower(tag[1..|tag| - 1]) + ">")
  {
    var body := tag[1..|tag| - 1];
    assert tag == "<" + body + ">";
    assert forall i :: 0 <= i < |body| ==> LowerChar(ToLower(body)[i]) == LowerChar(body[i]);
  }

  lemma BareTokenOpens(open: seq<string>, tag: string)
    requires MatchAt(tag) == |tag| > 0 && AllAlnumInside(tag)
    ensures ReopenTags(Apply(open, tag)) == ReopenTags(open) + ("<" + TagName(tag) + ">")
  {
    NameFillsToken(tag);
    var st := open + [TagName(tag)];
    assert st[..|st| - 1] == open;
  }

  lemma BareToken(open: seq<string>, tag: string)
    requires MatchAt(tag) == |tag| > 0 && AllAlnumInside(tag)
    ensures SameFold(tag, "<" + TagName(tag) + ">")
    ensures ReopenTags(Apply(open, tag)) == ReopenTags(open) + ("<" + TagName(tag) + ">")
  {
    BareTokenName(tag);
    LowerFolds(tag);
    BareTokenOpens(open, tag);
  }

  lemma FoldConcat(a: string, b: string, c: string, d: string)
    requires SameFold(a, b) && SameFold(c, d)
    ensures SameFold(a + c, b + d)
  {
  }

  lemma FoldStep(r: string, tag: string, lower: string, rest: string, end: string)
    requires SameFold(tag, lower) && SameFold(r + lower + rest, end)
    ensures SameFold(r + (tag + rest), end)
  {
    FoldConcat(r, r, tag, lower);
    FoldConcat(r + tag, r + lower, rest, rest);
    FoldTrans(r + tag + rest, r + lower + rest, end);
    Concat3(r, tag, rest);
  }

  lemma BareFront(open: seq<string>, s: string)
    requires s != "" && BareOpenTags(s)
    ensures var tag := s[..MatchAt(s)];
            && SameFold(tag, "<" + TagName(tag) + ">")
            && ReopenTags(Apply(open, tag)) == ReopenTags(open) + ("<" + TagName(tag) + ">")
  {
    var n := MatchAt(s);
    var tag := s[..n];
    TokenAlone(s);
    assert forall i :: 1 <= i < n - 1 ==> tag[i] == s[i];
    BareToken(open, tag);
  }

  lemma BareStep(open: seq<string>, s: string, end: string)
    requires s != "" && BareOpenTags(s)
    requires SameFold(ReopenTags(Apply(open, s[..MatchAt(s)])) + s[MatchAt(s)..], end)
    ensures SameFold(ReopenTags(open) + s, end)
  {
    var n := MatchAt(s);
    BareFront(open, s);
    FoldStep(ReopenTags(open), s[..n], "<" + TagName(s[..n]) + ">", s[n..], end);
    Rejoin(s, n);
  }

  lemma Rejoin(s: string, n: nat)
    requires n <= |s|
    ensures s[..n] + s[n..] == s
  {
  }

  /** Bare opening tags are reopened as they stood, in lower case. */
  lemma {:induction false} BareReopens(open: seq<string>, s: string)
    requires BareOpenTags(s)
    ensures SameFold(ReopenTags(open) + s, ReopenTags(Scan(open, s)))
    decreases |s|
  {
    if s == "" {
      assert ReopenTags(open) + s == ReopenTags(open);
    } else {
      BareReopens(Apply(open, s[..MatchAt(s)]), s[MatchAt(s)..]);
      BareStep(open, s, ReopenTags(Scan(open, s)));
    }
  }

  lemma FoldTrans(a: string, b: string, c: string)
    requires SameFold(a, b) && SameFold(b, c)
    ensures SameFold(a, c)
  {
  }

  lemma FrontBack(s: string, cut: nat, front: string)
    requires cut <= |s| && SameFold(s[..cut], front)
    ensures SameFold(s, front + s[cut..])
  {
  }

  lemma StuckFold(rest: string, chunk: nat)
    requires chunk > 0 && Stuck(rest, chunk)
    ensures SameFold(rest, Tail(rest, chunk))
  {
    var cut := CutPoint(rest, chunk);
    BareReopens([], rest[..cut]);
    assert ReopenTags([]) + rest[..cut] == rest[..cut];
    FrontBack(rest, cut, ReopenTags(Unclosed(rest[..cut])));
  }

  /** A cut that makes no progress gives back the same text up to letter case, so the next one makes
      none either. */
  lemma StuckStays(rest: string, chunk: nat)
    requires chunk > 0 && Stuck(rest, chunk)
    ensures Stuck(Tail(rest, chunk), chunk) && |Tail(rest, chunk)| == |rest|
  {
    var cut := CutPoint(rest, chunk);
    StuckFold(rest, chunk);
    StuckLike(rest, Tail(rest, chunk), chunk);
  }

  lemma StuckLike(rest: string, tail: string, chunk: nat)
    requires chunk > 0 && Stuck(rest, chunk) && SameFold(rest, tail)
    ensures Stuck(tail, chunk)
  {
    var cut := CutPoint(rest, chunk);
    FoldCutPoint(rest, tail, chunk);
    FoldSlice(rest, tail, 0, cut);
    FoldBare(rest[..cut], tail[..cut]);
  }

  lemma RoundsProgress(chunk: nat)
    requires chunk > 0
    ensures Progress(Round(chunk), (s: string) => |s| <= chunk, (s: string) => Stuck(s, chunk), (s: string) => |s|)
  {
    forall s: string | |s| > chunk ensures if Stuck(s, chunk) then Stuck(Tail(s, chunk), chunk) else |Tail(s, chunk)| < |s| {
      if Stuck(s, chunk) {
        StuckStays(s, chunk);
      } else {
        CutShrinksIff(s, chunk);
      }
    }
  }

  predicate StuckAfter(msg: string, chunk: nat, n: nat)
    requires chunk > 0
  {
    Stuck(RestAfter(msg, chunk, n), chunk)
  }

  /** The loop ends exactly when no remainder it reaches begins with a cut of bare opening tags. */
  lemma HaltsIff(msg: string, chunk: nat)
    requires chunk > 0
    ensures (exists n: nat :: HaltsIn(msg, chunk, n)) <==> (forall n: nat :: !StuckAfter(msg, chunk, n))
  {
    var done, stuck, size := (s: string) => |s| <= chunk, (s: string) => Stuck(s, chunk), (s: string) => |s|;
    RoundsProgress(chunk);
    EndsIff(Round(chunk), done, stuck, size, msg);
    forall n: nat ensures Reaches(done, Round(chunk), msg, n) == HaltsIn(msg, chunk, n) {}
    forall n: nat ensures Reaches(stuck, Round(chunk), msg, n) == StuckAfter(msg, chunk, n) {}
  }
}
