/** The tag scanner of internal/telegram/format.go. A string is a sequence of bytes, one char a byte. */
module TelegramTags {
  import opened Strings

  predicate IsAlnum(c: char) {
    'a' <= c <= 'z' || 'A' <= c <= 'Z' || '0' <= c <= '9'
  }

  function LowerChar(c: char): char {
    if 'A' <= c <= 'Z' then (c as int + 32) as char else c
  }

  function ToLower(s: string): (r: string)
    ensures |r| == |s| && forall i :: 0 <= i < |s| ==> r[i] == LowerChar(s[i])
  {
    if s == "" then "" else ToLower(s[..|s| - 1]) + [LowerChar(s[|s| - 1])]
  }

  /** The length of the longest alphanumeric prefix. */
  function NameLength(s: string): (n: nat)
    ensures n <= |s| && (forall i :: 0 <= i < n ==> IsAlnum(s[i])) && (n < |s| ==> !IsAlnum(s[n]))
  {
    if s != "" && IsAlnum(s[0]) then
      var n := NameLength(s[1..]);
      assert forall i :: 1 <= i < n + 1 ==> s[i] == s[1..][i - 1];
      n + 1
    else 0
  }

  function TrimPrefix(s: string, c: char): string {
    if s != "" && s[0] == c then s[1..] else s
  }

  function TrimSuffix(s: string, c: char): string {
    if s != "" && s[|s| - 1] == c then s[..|s| - 1] else s
  }

  /** Between '<' and '>' the token pattern allows /?[a-zA-Z0-9]+(?: [^>]*)?/? */
  predicate IsTagBody(body: string) {
    var t := TrimPrefix(body, '/');
    var n := NameLength(t);
    n > 0 && (n == |t| || t[n] == ' ' || (t[n] == '/' && n + 1 == |t|))
  }

  /** The length of the tag token at the front of s, or 0. Since nothing inside a token is '>', a token
      can only end at the first '>'. */
  function MatchAt(s: string): (n: nat)
    ensures n == 0 || 3 <= n <= |s|
    ensures n > 0 ==> s[0] == '<' && '>' in s && n == IndexOf(s, '>') + 1 && IsTagBody(s[1..n - 1])
  {
    if s != "" && s[0] == '<' && '>' in s && IsTagBody(s[1..IndexOf(s, '>')]) then IndexOf(s, '>') + 1 else 0
  }

  /** The text before the first space or tab. */
  function FirstWord(s: string): string {
    if s == "" || s[0] == ' ' || s[0] == '\t' then "" else [s[0]] + FirstWord(s[1..])
  }

  function TagName(tag: string): string {
    var inner := TrimSuffix(TrimSuffix(TrimPrefix(TrimPrefix(tag, '<'), '/'), '>'), '/');
    ToLower(FirstWord(TrimRight(TrimLeft(inner))))
  }

  predicate Closes(tag: string) {
    "</" <= tag
  }

  predicate SelfCloses(tag: string) {
    |tag| >= 2 && tag[|tag| - 2..] == "/>"
  }

  /** One token's effect on the stack of open tags. */
  function Apply(open: seq<string>, tag: string): seq<string> {
    if Closes(tag) then
      if open != [] && open[|open| - 1] == TagName(tag) then open[..|open| - 1] else open
    else if SelfCloses(tag) then open
    else open + [TagName(tag)]
  }

  /** The stack of open tags after s, from a given stack: tokens are found from left to right. */
  function Scan(open: seq<string>, s: string): seq<string>
    decreases |s|
  {
    if s == "" then open
    else if MatchAt(s) > 0 then Scan(Apply(open, s[..MatchAt(s)]), s[MatchAt(s)..])
    else Scan(open, s[1..])
  }

  /** All tokens of s, from left to right. */
  function Tokens(s: string): seq<string>
    decreases |s|
  {
    if s == "" then []
    else if MatchAt(s) > 0 then [s[..MatchAt(s)]] + Tokens(s[MatchAt(s)..])
    else Tokens(s[1..])
  }

  function ApplyAll(open: seq<string>, tags: seq<string>): seq<string>
    decreases |tags|
  {
    if tags == [] then open else ApplyAll(Apply(open, tags[0]), tags[1..])
  }

  lemma {:induction false} ScanAppliesTokens(open: seq<string>, s: string)
    ensures Scan(open, s) == ApplyAll(open, Tokens(s))
    decreases |s|
  {
    if s == "" {
    } else if MatchAt(s) > 0 {
      var tag := s[..MatchAt(s)];
      ScanAppliesTokens(Apply(open, tag), s[MatchAt(s)..]);
      assert ([tag] + Tokens(s[MatchAt(s)..]))[1..] == Tokens(s[MatchAt(s)..]);
    } else {
      ScanAppliesTokens(open, s[1..]);
    }
  }

  method UnclosedTags(s: string) returns (stack: seq<string>)
    ensures stack == Unclosed(s)
  {
    stack := [];
    var tags := Tokens(s);
    ScanAppliesTokens([], s);
    for i := 0 to |tags|
      invariant ApplyAll(stack, tags[i..]) == ApplyAll([], tags)
    {
      var tag := tags[i];
      assert tags[i..][0] == tag && tags[i..][1..] == tags[i + 1..];
      if Closes(tag) {
        if |stack| > 0 && stack[|stack| - 1] == TagName(tag) {
          stack := stack[..|stack| - 1];
        }
        continue;
      }
      if SelfCloses(tag) {
        continue;
      }
      stack := stack + [TagName(tag)];
    }
  }

  function Unclosed(s: string): seq<string> {
    Scan([], s)
  }

  predicate Dangling(s: string) {
    LastIndex(s, '<') >= 0 && LastIndex(s, '>') < LastIndex(s, '<')
  }

  predicate Safe(s: string) {
    Unclosed(s) == [] && !Dangling(s)
  }

  function CloseTags(open: seq<string>): string {
    if open == [] then "" else "</" + open[|open| - 1] + ">" + CloseTags(open[..|open| - 1])
  }

  function ReopenTags(open: seq<string>): string {
    if open == [] then "" else ReopenTags(open[..|open| - 1]) + ("<" + open[|open| - 1] + ">")
  }

  // ---- Tag names ----

  /** What TagName yields: a non-empty lower-case alphanumeric name. */
  predicate IsName(s: string) {
    s != "" && forall i :: 0 <= i < |s| ==> IsAlnum(s[i]) && LowerChar(s[i]) == s[i]
  }

  predicate AreNames(open: seq<string>) {
    forall i :: 0 <= i < |open| ==> IsName(open[i])
  }

  lemma {:induction false} FirstWordOf(name: string, tail: string)
    requires forall i :: 0 <= i < |name| ==> IsAlnum(name[i])
    requires tail == "" || tail[0] == ' '
    ensures FirstWord(name + tail) == name
  {
    if name == "" {
      assert name + tail == tail;
    } else {
      assert (name + tail)[1..] == name[1..] + tail;
      FirstWordOf(name[1..], tail);
    }
  }

  /** Trimming the right end cannot reach the name. */
  lemma {:induction false} TrimRightKeepsName(name: string, tail: string) returns (kept: string)
    requires name != "" && forall i :: 0 <= i < |name| ==> IsAlnum(name[i])
    requires tail == "" || tail[0] == ' '
    ensures (kept == "" || kept[0] == ' ') && TrimRight(name + tail) == name + kept
    decreases |tail|
  {
    var s := name + tail;
    var n := SpaceBack(s);
    NameStays(name, tail);
    if n > 0 {
      assert s[..|s| - n] == name + tail[..|tail| - n];
      kept := TrimRightKeepsName(name, tail[..|tail| - n]);
    } else {
      kept := tail;
    }
  }

  /** White space at the end lies behind the name. */
  lemma NameStays(name: string, tail: string)
    requires name != "" && forall i :: 0 <= i < |name| ==> IsAlnum(name[i])
    requires tail == "" || tail[0] == ' '
    ensures SpaceBack(name + tail) <= |tail|
  {
    var s := name + tail;
    assert s[|name| - 1] == name[|name| - 1];
    assert tail != "" ==> s[|name|] == ' ';
  }

  /** The bytes of a token between its optional leading '/' and its '>'. */
  function Inner(tag: string): string
    requires MatchAt(tag) == |tag| > 0
  {
    TrimPrefix(tag[1..|tag| - 1], '/')
  }

  /** Trimming and cutting at white space leaves the name. */
  lemma TrimmedName(name: string, tail: string)
    requires name != "" && forall i :: 0 <= i < |name| ==> IsAlnum(name[i])
    requires tail == "" || tail[0] == ' '
    ensures FirstWord(TrimRight(TrimLeft(name + tail))) == name
  {
    assert (name + tail)[0] == name[0] && TrimLeft(name + tail) == name + tail;
    var kept := TrimRightKeepsName(name, tail);
    FirstWordOf(name, kept);
  }

  /** What stands between the brackets of a token: a name and nothing, or attributes. */
  lemma TokenText(tag: string) returns (name: string, tail: string)
    requires MatchAt(tag) == |tag| > 0
    ensures name == Inner(tag)[..NameLength(Inner(tag))] && name != "" && forall i :: 0 <= i < |name| ==> IsAlnum(name[i])
    ensures TrimSuffix(Inner(tag), '/') == name + tail && (tail == "" || tail[0] == ' ')
  {
    var t := Inner(tag);
    var n := NameLength(t);
    name, tail := t[..n], TrimSuffix(t, '/')[n..];
  }

  lemma LowerName(name: string)
    requires name != "" && forall i :: 0 <= i < |name| ==> IsAlnum(name[i])
    ensures IsName(ToLower(name))
  {
    var lower := ToLower(name);
    forall i | 0 <= i < |lower| ensures IsAlnum(lower[i]) && LowerChar(lower[i]) == lower[i] {
      LowerAlnum(name[i]);
    }
  }

  lemma LowerAlnum(c: char)
    requires IsAlnum(c)
    ensures IsAlnum(LowerChar(c)) && LowerChar(LowerChar(c)) == LowerChar(c)
  {
  }

  /** The name of a token is the lower-cased alphanumeric run after its '<' or '</'. */
  lemma NameOfToken(tag: string)
    requires MatchAt(tag) == |tag| > 0
    ensures TagName(tag) == ToLower(Inner(tag)[..NameLength(Inner(tag))]) && IsName(TagName(tag))
  {
    var name, tail := TokenText(tag);
    StripToken(tag);
    TrimmedName(name, tail);
    LowerName(name);
  }

  lemma StripToken(tag: string)
    requires MatchAt(tag) == |tag| > 0
    ensures TrimSuffix(TrimPrefix(TrimPrefix(tag, '<'), '/'), '>') == Inner(tag)
  {
    var u := tag[1..];
    assert u[0] == tag[1] && u[|u| - 1] == tag[|tag| - 1] == '>';
    assert tag[1..|tag| - 1] == u[..|u| - 1];
    assert u[1..][..|u| - 2] == u[..|u| - 1][1..];
  }

  lemma PushKeepsNames(open: seq<string>, tag: string)
    requires AreNames(open) && IsName(TagName(tag))
    ensures AreNames(Apply(open, tag))
  {
  }

  lemma ApplyKeepsNames(open: seq<string>, s: string)
    requires AreNames(open) && MatchAt(s) > 0
    ensures AreNames(Apply(open, s[..MatchAt(s)]))
  {
    TokenAlone(s);
    NameOfToken(s[..MatchAt(s)]);
    PushKeepsNames(open, s[..MatchAt(s)]);
  }

  lemma {:induction false} ScanKeepsNames(open: seq<string>, s: string)
    requires AreNames(open)
    ensures AreNames(Scan(open, s))
    decreases |s|
  {
    if s == "" {
    } else if MatchAt(s) > 0 {
      ApplyKeepsNames(open, s);
      ScanKeepsNames(Apply(open, s[..MatchAt(s)]), s[MatchAt(s)..]);
    } else {
      ScanKeepsNames(open, s[1..]);
    }
  }

  /** A token is a token whatever follows it. */
  lemma TokenAlone(s: string)
    requires MatchAt(s) > 0
    ensures MatchAt(s[..MatchAt(s)]) == MatchAt(s)
  {
    var n := MatchAt(s);
    var tag := s[..n];
    assert tag[..n - 1] == s[..n - 1];
    assert tag[n - 1] == '>';
    IndexIs(tag, '>', n - 1);
    assert tag[1..n - 1] == s[1..n - 1];
  }

  // ---- Scanning in two parts ----

  lemma NotDangling(s: string)
    requires !Dangling(s)
    ensures s != "" && s[0] == '<' ==> '>' in s
    ensures s != "" ==> forall m :: 0 <= m <= |s| ==> !Dangling(s[m..])
  {
    forall m | 0 <= m <= |s| ensures !Dangling(s[m..]) {
      var lt := LastIndex(s[m..], '<');
      if lt >= 0 {
        assert s[m..][lt] == s[m + lt];
        assert LastIndex(s, '>') > m + lt;
        assert s[m..][LastIndex(s, '>') - m] == '>';
      }
    }
  }

  lemma MatchExtends(a: string, b: string)
    requires a != "" && !Dangling(a)
    ensures MatchAt(a + b) == MatchAt(a)
  {
    NotDangling(a);
    assert (a + b)[0] == a[0];
    if a[0] == '<' {
      var g := IndexOf(a, '>');
      assert (a + b)[g] == '>' && (a + b)[..g] == a[..g];
      IndexIs(a + b, '>', g);
      assert (a + b)[1..g] == a[1..g];
    }
  }

  /** After a cut that is not inside a tag, scanning goes on as if there were no cut. */
  lemma {:induction false} ScanConcat(open: seq<string>, a: string, b: string)
    requires !Dangling(a)
    ensures Scan(open, a + b) == Scan(Scan(open, a), b)
    decreases |a|
  {
    if a == "" {
      assert a + b == b;
    } else {
      MatchExtends(a, b);
      NotDangling(a);
      var n := MatchAt(a);
      if n > 0 {
        assert (a + b)[..n] == a[..n] && (a + b)[n..] == a[n..] + b;
        ScanConcat(Apply(open, a[..n]), a[n..], b);
      } else {
        assert (a + b)[1..] == a[1..] + b;
        ScanConcat(open, a[1..], b);
      }
    }
  }

  /** Text without a bracket is passed over. */
  lemma {:induction false} SkipText(open: seq<string>, text: string, rest: string)
    requires '<' !in text
    ensures Scan(open, text + rest) == Scan(open, rest)
    decreases |text|
  {
    if text == "" {
      assert text + rest == rest;
    } else {
      assert text[0] in text && (text + rest)[1..] == text[1..] + rest;
      SkipText(open, text[1..], rest);
    }
  }

  // ---- Closing and reopening ----

  lemma AllAlnum(s: string)
    requires forall i :: 0 <= i < |s| ==> IsAlnum(s[i])
    ensures NameLength(s) == |s| && s[..|s|] == s
  {
  }

  lemma LowerFixed(s: string)
    requires forall i :: 0 <= i < |s| ==> LowerChar(s[i]) == s[i]
    ensures ToLower(s) == s
  {
  }

  lemma NameRun(name: string)
    requires IsName(name)
    ensures NameLength(name) == |name| && ToLower(name) == name && name[..|name|] == name
  {
    AllAlnum(name);
    LowerFixed(name);
  }

  /** A token is '<', a body that the pattern allows, and the first '>'. */
  lemma BodyMakesToken(body: string)
    requires '>' !in body && IsTagBody(body)
    ensures var tag := "<" + body + ">"; MatchAt(tag) == |tag| && tag[1..|tag| - 1] == body
  {
    var tag := "<" + body + ">";
    assert tag[|tag| - 1] == '>' && tag[..|tag| - 1] == "<" + body;
    IndexIs(tag, '>', |tag| - 1);
    assert tag[1..|tag| - 1] == body;
  }

  lemma NameHasNoMarkup(name: string, c: char)
    requires IsName(name) && !IsAlnum(c)
    ensures c !in name && name[0] != c && name[|name| - 1] != c
  {
  }

  lemma OpenTagBody(name: string)
    requires IsName(name)
    ensures var tag := "<" + name + ">"; MatchAt(tag) == |tag| && Inner(tag) == name
  {
    NameRun(name);
    NameHasNoMarkup(name, '>');
    NameHasNoMarkup(name, '/');
    assert TrimPrefix(name, '/') == name;
    BodyMakesToken(name);
  }

  lemma OpenTagKind(name: string)
    requires IsName(name)
    ensures var tag := "<" + name + ">"; !Closes(tag) && !SelfCloses(tag)
  {
    var tag := "<" + name + ">";
    NameHasNoMarkup(name, '/');
    assert tag[1] == name[0] && tag[|tag| - 2] == name[|name| - 1];
    assert tag[..2] == [tag[0], tag[1]] && tag[|tag| - 2..] == [tag[|tag| - 2], tag[|tag| - 1]];
  }

  lemma OpenTagToken(name: string)
    requires IsName(name)
    ensures var tag := "<" + name + ">"; MatchAt(tag) == |tag| && TagName(tag) == name && !Closes(tag) && !SelfCloses(tag)
  {
    OpenTagBody(name);
    OpenTagKind(name);
    NameOfToken("<" + name + ">");
    NameRun(name);
  }

  lemma CloseTagForm(name: string)
    ensures "<" + ("/" + name) + ">" == "</" + name + ">"
    ensures "</" <= "</" + name + ">"
  {
  }

  lemma CloseTagBody(name: string)
    requires IsName(name)
    ensures var tag := "<" + ("/" + name) + ">"; MatchAt(tag) == |tag| && Inner(tag) == name
  {
    NameRun(name);
    NameHasNoMarkup(name, '>');
    assert TrimPrefix("/" + name, '/') == name;
    BodyMakesToken("/" + name);
  }

  lemma CloseTagToken(name: string)
    requires IsName(name)
    ensures var tag := "</" + name + ">"; MatchAt(tag) == |tag| && TagName(tag) == name && Closes(tag)
  {
    CloseTagForm(name);
    CloseTagBody(name);
    NameOfToken("<" + ("/" + name) + ">");
    NameRun(name);
  }

  lemma ScanToken(open: seq<string>, tag: string, rest: string)
    requires MatchAt(tag) == |tag| > 0
    ensures Scan(open, tag + rest) == Scan(Apply(open, tag), rest)
  {
    var s := tag + rest;
    var n := |tag|;
    assert s[n - 1] == '>' && s[..n - 1] == tag[..n - 1];
    IndexIs(s, '>', n - 1);
    assert s[1..n - 1] == tag[1..n - 1];
    assert MatchAt(s) == n && s[..n] == tag && s[n..] == rest;
  }

  lemma ScanEndTag(open: seq<string>, name: string)
    requires IsName(name)
    ensures Scan(open + [name], "</" + name + ">") == open
  {
    var tag := "</" + name + ">";
    CloseTagToken(name);
    ScanToken(open + [name], tag, "");
    assert tag + "" == tag && (open + [name])[..|open|] == open;
  }

  lemma Concat3(a: string, b: string, c: string)
    ensures (a + b) + c == a + (b + c)
  {
  }

  lemma PopTop(below: seq<string>, open: seq<string>)
    requires open != []
    ensures var st := below + open;
            st != [] && st[|st| - 1] == open[|open| - 1] && st[..|st| - 1] == below + open[..|open| - 1]
  {
  }

  lemma PushTop(open: seq<string>)
    requires open != []
    ensures open[..|open| - 1] + [open[|open| - 1]] == open
  {
  }

  /** The closing tags close exactly the tags that are open. */
  lemma {:induction false} ScanCloseTags(below: seq<string>, open: seq<string>, rest: string)
    requires AreNames(open)
    ensures Scan(below + open, CloseTags(open) + rest) == Scan(below, rest)
  {
    if open == [] {
      assert below + open == below && CloseTags(open) + rest == rest;
    } else {
      var last := |open| - 1;
      var tag := "</" + open[last] + ">";
      CloseTagToken(open[last]);
      Concat3(tag, CloseTags(open[..last]), rest);
      ScanToken(below + open, tag, CloseTags(open[..last]) + rest);
      PopTop(below, open);
      ScanCloseTags(below, open[..last], rest);
    }
  }

  lemma ScanOpenTag(open: seq<string>, name: string, rest: string)
    requires IsName(name)
    ensures Scan(open, "<" + name + ">" + rest) == Scan(open + [name], rest)
  {
    OpenTagToken(name);
    ScanToken(open, "<" + name + ">", rest);
  }

  /** The reopening tags open exactly the tags that were open. */
  lemma {:induction false} ScanReopenTags(open: seq<string>, rest: string)
    requires AreNames(open)
    ensures Scan([], ReopenTags(open) + rest) == Scan(open, rest)
  {
    if open == [] {
      assert ReopenTags(open) + rest == rest;
    } else {
      var last := |open| - 1;
      Concat3(ReopenTags(open[..last]), "<" + open[last] + ">", rest);
      ScanReopenTags(open[..last], "<" + open[last] + ">" + rest);
      ScanOpenTag(open[..last], open[last], rest);
      PushTop(open);
    }
  }

  /** A cut outside a tag is transparent: the part before it with its closing tags is balanced, and for
      whatever follows, the reopened tags put the scanner in the state it had. */
  lemma CutIsTransparent(head: string)
    requires !Dangling(head)
    ensures Unclosed(head + CloseTags(Unclosed(head))) == []
    ensures forall suffix :: Unclosed(ReopenTags(Unclosed(head)) + suffix) == Unclosed(head + suffix)
  {
    var open := Unclosed(head);
    ScanKeepsNames([], head);
    ScanConcat([], head, CloseTags(open));
    ScanCloseTags([], open, "");
    assert [] + open == open && CloseTags(open) + "" == CloseTags(open);
    forall suffix ensures Unclosed(ReopenTags(open) + suffix) == Unclosed(head + suffix) {
      ScanConcat([], head, suffix);
      ScanReopenTags(open, suffix);
    }
  }
}
