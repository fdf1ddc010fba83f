/** Splitting long messages (internal/telegram/format.go): where one cut is made, and whether the loop
    over the cuts ends. */
module TelegramCut {
  import opened Strings
  import opened TelegramTags

  /** A byte that does not continue a UTF-8 sequence. */
  predicate RuneStart(c: char) {
    !(0x80 <= c as int < 0xC0)
  }

  function RuneBoundary(s: string, target: nat): (r: nat)
    requires target < |s|
    ensures r <= target && (r > 0 ==> RuneStart(s[r]))
    ensures forall j :: r < j <= target ==> !RuneStart(s[j])
  {
    if target > 0 && !RuneStart(s[target]) then RuneBoundary(s, target - 1) else target
  }

  /** The callers stay below the length of s: at the length itself the source would index out of range. */
  method LastRuneBoundary(s: string, target: nat) returns (r: nat)
    requires target < |s|
    ensures r == RuneBoundary(s, target)
  {
    r := target;
    while r > 0 && !RuneStart(s[r])
      invariant r <= target && RuneBoundary(s, r) == RuneBoundary(s, target)
    {
      r := r - 1;
    }
  }

  const LookBack := 256

  function Limit(target: nat): nat {
    if target < LookBack then 0 else target - LookBack
  }

  /** The largest safe rune boundary in (limit, n], or 0. */
  function SearchBack(s: string, n: nat, limit: nat): (cut: nat)
    requires n < |s|
    ensures cut == 0 || (limit < cut <= n && RuneStart(s[cut]) && Safe(s[..cut]))
    ensures forall m :: limit < m <= n && m > cut && RuneStart(s[m]) ==> !Safe(s[..m])
    decreases n
  {
    if n <= limit then 0
    else if RuneStart(s[n]) && Safe(s[..n]) then n
    else SearchBack(s, n - 1, limit)
  }

  /** The target itself if the text up to it is balanced and not inside a tag (even when it splits a
      rune), else the largest such rune boundary less than 256 bytes before it, else 0. */
  function SafeCut(s: string, target: nat): (cut: nat)
    requires 0 < target < |s|
    ensures cut <= target && (cut > 0 ==> Safe(s[..cut]))
  {
    if Safe(s[..target]) then target else SearchBack(s, target - 1, Limit(target))
  }

  method LastSafeCut(s: string, target: nat) returns (cut: nat)
    requires 0 < target < |s|
    ensures cut == SafeCut(s, target)
  {
    var p := s[..target];
    var open := UnclosedTags(p);
    if |open| == 0 && !Dangling(p) {
      return target;
    }
    var limit := if target < LookBack then 0 else target - LookBack;
    var n := target - 1;
    while n > limit
      invariant limit <= n < target
      invariant SearchBack(s, n, limit) == SearchBack(s, target - 1, limit)
    {
      if RuneStart(s[n]) {
        var open' := UnclosedTags(s[..n]);
        if |open'| == 0 && !Dangling(s[..n]) {
          return n;
        }
      }
      n := n - 1;
    }
    return 0;
  }

  /** Where the text is cut: at a safe point if there is one; else at the rune boundary before maxLen
      bytes, moved back by the length of the closing tags when that leaves something. */
  function CutPoint(rest: string, maxLen: nat): (cut: nat)
    requires 0 < maxLen < |rest|
    ensures cut <= maxLen
  {
    var safe := SafeCut(rest, maxLen);
    if safe > 0 then safe
    else
      var first := RuneBoundary(rest, maxLen);
      var closing := |CloseTags(Unclosed(rest[..first]))|;
      if closing == 0 || maxLen <= closing || RuneBoundary(rest, maxLen - closing) == 0 then first
      else RuneBoundary(rest, maxLen - closing)
  }

  function OpenAtCut(rest: string, maxLen: nat): seq<string>
    requires 0 < maxLen < |rest|
  {
    Unclosed(rest[..CutPoint(rest, maxLen)])
  }

  /** The part made by cutting at a given point: the text before it with its closing tags. */
  function HeadAt(rest: string, cut: nat): string
    requires cut <= |rest|
  {
    rest[..cut] + CloseTags(Unclosed(rest[..cut]))
  }

  /** The remainder after cutting at a given point: the reopened tags and the text after it. */
  function TailAt(rest: string, cut: nat): string
    requires cut <= |rest|
  {
    ReopenTags(Unclosed(rest[..cut])) + rest[cut..]
  }

  function Head(rest: string, maxLen: nat): string
    requires 0 < maxLen < |rest|
  {
    HeadAt(rest, CutPoint(rest, maxLen))
  }

  function Tail(rest: string, maxLen: nat): string
    requires 0 < maxLen < |rest|
  {
    TailAt(rest, CutPoint(rest, maxLen))
  }

  /** Whatever branch makes the cut, the part is the text before it plus its closing tags and the
      remainder is the reopened tags plus the text after it. */
  method CutHTMLChunk(rest: string, maxLen: nat) returns (head: string, tail: string)
    requires 0 < maxLen < |rest|
    ensures head == Head(rest, maxLen) && tail == Tail(rest, maxLen)
  {
    var cut := LastSafeCut(rest, maxLen);
    if cut > 0 {
      NothingOpen(rest, cut);
      return rest[..cut], rest[cut..];
    }
    var open, closing;
    cut, open, closing := CutAcrossTags(rest, maxLen);
    if |open| == 0 || |closing| == 0 {
      NoClosers(open);
      NothingOpen(rest, cut);
      return rest[..cut], rest[cut..];
    }
    var reopen := ReopenTags(open);
    return rest[..cut] + closing, reopen + rest[cut..];
  }

  /** The cut where there is no safe point: room for the closing tags is made once, by the length they
      have at the first cut. */
  method CutAcrossTags(rest: string, maxLen: nat) returns (cut: nat, open: seq<string>, closing: string)
    requires 0 < maxLen < |rest| && SafeCut(rest, maxLen) == 0
    ensures cut == CutPoint(rest, maxLen) && open == Unclosed(rest[..cut]) && closing == CloseTags(open)
  {
    cut := LastRuneBoundary(rest, maxLen);
    open := UnclosedTags(rest[..cut]);
    closing := CloseTags(open);
    if |open| == 0 || |closing| == 0 {
      NoClosers(open);
      return;
    }
    if maxLen > |closing| {
      var c2 := LastRuneBoundary(rest, maxLen - |closing|);
      if c2 > 0 {
        cut := c2;
        open := UnclosedTags(rest[..cut]);
        closing := CloseTags(open);
      }
    }
  }

  lemma NothingOpen(rest: string, cut: nat)
    requires cut <= |rest| && Unclosed(rest[..cut]) == []
    ensures HeadAt(rest, cut) == rest[..cut] && TailAt(rest, cut) == rest[cut..]
  {
    assert rest[..cut] + "" == rest[..cut] && "" + rest[cut..] == rest[cut..];
  }

  lemma NoClosers(open: seq<string>)
    ensures open == [] || CloseTags(open) == "" ==> open == [] && CloseTags(open) == "" && ReopenTags(open) == ""
  {
  }

  // ---- Progress of one cut ----

  /** Nothing but opening tags without attributes, one after the other. */
  predicate BareOpenTags(s: string)
    decreases |s|
  {
    s == "" || (MatchAt(s) > 0 && (forall i :: 1 <= i < MatchAt(s) - 1 ==> IsAlnum(s[i])) && BareOpenTags(s[MatchAt(s)..]))
  }

  predicate AllAlnumInside(tag: string) {
    forall i :: 1 <= i < |tag| - 1 ==> IsAlnum(tag[i])
  }

  lemma SlashIsNotAlnum(tag: string)
    requires |tag| >= 3 && (Closes(tag) || SelfCloses(tag))
    ensures !AllAlnumInside(tag)
  {
    if Closes(tag) {
      assert tag[1] == '/' && !IsAlnum(tag[1]);
    } else {
      assert tag[|tag| - 2] == tag[|tag| - 2..][0] == '/' && !IsAlnum(tag[|tag| - 2]);
    }
  }

  lemma InnerOfOpenTag(tag: string)
    requires MatchAt(tag) == |tag| > 0 && !Closes(tag)
    ensures Inner(tag) == tag[1..|tag| - 1]
  {
    assert tag[..2] == [tag[0], tag[1]];
  }

  lemma NameFillsToken(tag: string)
    requires MatchAt(tag) == |tag| > 0
    ensures |TagName(tag)| + 2 <= |tag|
    ensures !Closes(tag) && !SelfCloses(tag) ==> (|TagName(tag)| + 2 == |tag| <==> AllAlnumInside(tag))
    ensures Closes(tag) || SelfCloses(tag) ==> !AllAlnumInside(tag)
  {
    NameOfToken(tag);
    if Closes(tag) || SelfCloses(tag) {
      SlashIsNotAlnum(tag);
    } else {
      InnerOfOpenTag(tag);
      var body := tag[1..|tag| - 1];
      assert forall i :: 0 <= i < |body| ==> body[i] == tag[i + 1];
      assert forall i :: 1 <= i < |tag| - 1 ==> tag[i] == body[i - 1];
    }
  }

  /** What one token adds to the bytes to be reopened: at most its own length, and its own length only
      if it is a bare opening tag. */
  lemma ApplyLength(open: seq<string>, tag: string)
    requires MatchAt(tag) == |tag| > 0
    ensures |ReopenTags(Apply(open, tag))| <= |ReopenTags(open)| + |tag|
    ensures |ReopenTags(Apply(open, tag))| == |ReopenTags(open)| + |tag| <==>
            AllAlnumInside(tag)
  {
    NameFillsToken(tag);
    if !Closes(tag) && !SelfCloses(tag) {
      var st := open + [TagName(tag)];
      assert st[..|st| - 1] == open && st[|st| - 1] == TagName(tag);
    }
  }

  /** Reopening never costs more bytes than were cut, and as many only for bare opening tags. */
  lemma {:induction false} ReopenedLength(open: seq<string>, s: string)
    ensures |ReopenTags(Scan(open, s))| <= |ReopenTags(open)| + |s|
    ensures |ReopenTags(Scan(open, s))| == |ReopenTags(open)| + |s| <==> BareOpenTags(s)
    decreases |s|
  {
    if s == "" {
    } else if MatchAt(s) > 0 {
      var n := MatchAt(s);
      var tag := s[..n];
      TokenAlone(s);
      ApplyLength(open, tag);
      assert forall i :: 1 <= i < n - 1 ==> tag[i] == s[i];
      ReopenedLength(Apply(open, tag), s[n..]);
    } else {
      ReopenedLength(open, s[1..]);
    }
  }

  /** One cut never makes the remainder longer, and leaves it as long exactly when everything that was
      cut off is bare opening tags: only then does the loop make no progress. */
  lemma CutShrinksIff(rest: string, maxLen: nat)
    requires 0 < maxLen < |rest|
    ensures |Tail(rest, maxLen)| <= |rest|
    ensures |Tail(rest, maxLen)| == |rest| <==> BareOpenTags(rest[..CutPoint(rest, maxLen)])
  {
    ReopenedLength([], rest[..CutPoint(rest, maxLen)]);
  }

  /** At a safe cut there is always progress. */
  lemma SafeCutShrinks(rest: string, maxLen: nat)
    requires 0 < maxLen < |rest| && SafeCut(rest, maxLen) > 0
    ensures |Tail(rest, maxLen)| < |rest| && |Head(rest, maxLen)| <= maxLen
  {
    assert OpenAtCut(rest, maxLen) == [];
  }

  /** Where there is no safe point: the closing tags at the rune boundary before maxLen bytes, for which
      room is made. */
  function FirstClosers(rest: string, maxLen: nat): nat
    requires maxLen < |rest|
  {
    |CloseTags(Unclosed(rest[..RuneBoundary(rest, maxLen)]))|
  }

  /** Where the cut is moved back to make that room. */
  function MovedCut(rest: string, maxLen: nat): nat
    requires maxLen < |rest| && FirstClosers(rest, maxLen) <= maxLen
  {
    RuneBoundary(rest, maxLen - FirstClosers(rest, maxLen))
  }

  /** When a part fits: at a safe point, or where nothing needs closing, or where the cut could be moved
      back and the tags open there need no more than the room this made. */
  predicate HasRoom(rest: string, maxLen: nat)
    requires 0 < maxLen < |rest|
  {
    var closing := FirstClosers(rest, maxLen);
    SafeCut(rest, maxLen) > 0 || closing == 0 ||
    (closing < maxLen && MovedCut(rest, maxLen) > 0 &&
     |CloseTags(Unclosed(rest[..MovedCut(rest, maxLen)]))| <= maxLen - MovedCut(rest, maxLen))
  }

  lemma NothingToClose(rest: string, maxLen: nat)
    requires 0 < maxLen < |rest| && SafeCut(rest, maxLen) == 0 && FirstClosers(rest, maxLen) == 0
    ensures |Head(rest, maxLen)| <= maxLen
  {
    assert CutPoint(rest, maxLen) == RuneBoundary(rest, maxLen);
  }

  lemma CutMoved(rest: string, maxLen: nat)
    requires 0 < maxLen < |rest| && SafeCut(rest, maxLen) == 0 && 0 < FirstClosers(rest, maxLen) < maxLen
    requires MovedCut(rest, maxLen) > 0
    ensures |Head(rest, maxLen)| == MovedCut(rest, maxLen) + |CloseTags(Unclosed(rest[..MovedCut(rest, maxLen)]))|
  {
    assert CutPoint(rest, maxLen) == MovedCut(rest, maxLen);
  }

  lemma CutNotMoved(rest: string, maxLen: nat)
    requires 0 < maxLen < |rest| && SafeCut(rest, maxLen) == 0 && FirstClosers(rest, maxLen) > 0
    requires FirstClosers(rest, maxLen) < maxLen ==> MovedCut(rest, maxLen) == 0
    ensures |Head(rest, maxLen)| > maxLen
  {
    var first := RuneBoundary(rest, maxLen);
    assert CutPoint(rest, maxLen) == first;
    assert first > 0 by {
      assert rest[..0] == "";
    }
    assert FirstClosers(rest, maxLen) < maxLen ==> first > maxLen - FirstClosers(rest, maxLen);
  }

  /** A part is no longer than allowed exactly then. In particular it never fits when the closing tags fill
      the whole length or the cut cannot be moved back to a rune boundary. */
  lemma HeadFitsIff(rest: string, maxLen: nat)
    requires 0 < maxLen < |rest|
    ensures |Head(rest, maxLen)| <= maxLen <==> HasRoom(rest, maxLen)
  {
    if SafeCut(rest, maxLen) > 0 {
      SafeCutShrinks(rest, maxLen);
    } else if FirstClosers(rest, maxLen) == 0 {
      NothingToClose(rest, maxLen);
    } else if FirstClosers(rest, maxLen) < maxLen && MovedCut(rest, maxLen) > 0 {
      CutMoved(rest, maxLen);
    } else {
      CutNotMoved(rest, maxLen);
    }
  }

  /** The same for any room: what the part takes, by the branch that cuts. */
  predicate FitsIn(rest: string, maxLen: nat, room: int)
    requires 0 < maxLen < |rest|
  {
    var first, closing := RuneBoundary(rest, maxLen), FirstClosers(rest, maxLen);
    if SafeCut(rest, maxLen) > 0 then SafeCut(rest, maxLen) <= room
    else if closing == 0 then first <= room
    else if closing < maxLen && MovedCut(rest, maxLen) > 0 then
      |CloseTags(Unclosed(rest[..MovedCut(rest, maxLen)]))| <= room - MovedCut(rest, maxLen)
    else closing <= room - first
  }

  lemma HeadFitsInIff(rest: string, maxLen: nat, room: int)
    requires 0 < maxLen < |rest|
    ensures |Head(rest, maxLen)| <= room <==> FitsIn(rest, maxLen, room)
  {
    if SafeCut(rest, maxLen) > 0 {
      NothingOpen(rest, SafeCut(rest, maxLen));
    } else if 0 < FirstClosers(rest, maxLen) < maxLen && MovedCut(rest, maxLen) > 0 {
      CutMoved(rest, maxLen);
    } else {
      assert CutPoint(rest, maxLen) == RuneBoundary(rest, maxLen);
    }
  }
}
