/** Searching in strings and trimming them. */
module Strings {
  /** The first occurrence of c. */
  function IndexOf(s: string, c: char): (k: nat)
    requires c in s
    ensures k < |s| && s[k] == c && c !in s[..k]
  {
    if s[0] == c then 0 else
      assert s == [s[0]] + s[1..];
      var k := IndexOf(s[1..], c);
      assert s[..k + 1] == [s[0]] + s[1..][..k];
      k + 1
  }

  lemma IndexIs(s: string, c: char, k: nat)
    requires k < |s| && s[k] == c && c !in s[..k]
    ensures IndexOf(s, c) == k
  {
    forall i | 0 <= i < k ensures s[i] != c {
      assert s[..k][i] == s[i];
    }
    var i := IndexOf(s, c);
    assert forall j :: 0 <= j < i ==> s[..i][j] == s[j];
  }

  /** The first occurrence of c from position i on, or |s|. */
  function IndexFrom(s: string, c: char, i: nat): (k: nat)
    requires i <= |s|
    ensures i <= k <= |s| && (k < |s| ==> s[k] == c)
    ensures forall j :: i <= j < k ==> s[j] != c
    decreases |s| - i
  {
    if i == |s| || s[i] == c then i else IndexFrom(s, c, i + 1)
  }

  /** The last occurrence of c, or -1. */
  function LastIndex(s: string, c: char): (k: int)
    ensures -1 <= k < |s| && (k >= 0 ==> s[k] == c)
    ensures forall i :: k < i < |s| ==> s[i] != c
  {
    if s == "" then -1
    else if s[|s| - 1] == c then |s| - 1
    else LastIndex(s[..|s| - 1], c)
  }

  /** ASCII white space. */
  predicate IsBlank(c: char) {
    c == ' ' || '\t' <= c <= '\r'
  }

  /** The white space of Unicode beyond ASCII, in the two or three bytes of UTF-8. */
  predicate IsWide2(a: char, b: char) {
    a as int == 0xC2 && (b as int == 0x85 || b as int == 0xA0)
  }

  predicate IsWide3(a: char, b: char, c: char) {
    var x, y, z := a as int, b as int, c as int;
    || (x == 0xE1 && y == 0x9A && z == 0x80)
    || (x == 0xE2 && y == 0x80 && (0x80 <= z <= 0x8A || z == 0xA8 || z == 0xA9 || z == 0xAF))
    || (x == 0xE2 && y == 0x81 && z == 0x9F)
    || (x == 0xE3 && y == 0x80 && z == 0x80)
  }

  /** The length of the white space character at the front, or 0. */
  function SpaceFront(s: string): (n: nat)
    ensures n <= |s| && n <= 3
    ensures n > 0 ==> IsBlank(s[0]) || s[0] as int >= 0x80
    ensures s != "" && IsBlank(s[0]) ==> n == 1
  {
    if s != "" && IsBlank(s[0]) then 1
    else if |s| >= 2 && IsWide2(s[0], s[1]) then 2
    else if |s| >= 3 && IsWide3(s[0], s[1], s[2]) then 3
    else 0
  }

  /** The length of the white space character at the back, or 0. */
  function SpaceBack(s: string): (n: nat)
    ensures n <= |s| && n <= 3 && (s != "" && IsBlank(s[|s| - 1]) ==> n == 1)
    ensures n == 1 ==> IsBlank(s[|s| - 1])
    ensures n >= 2 ==> s[|s| - 1] as int >= 0x80 && s[|s| - 2] as int >= 0x80
    ensures n >= 3 ==> s[|s| - 3] as int >= 0x80
  {
    var k := |s|;
    if k >= 1 && IsBlank(s[k - 1]) then 1
    else if k >= 2 && IsWide2(s[k - 2], s[k - 1]) then 2
    else if k >= 3 && IsWide3(s[k - 3], s[k - 2], s[k - 1]) then 3
    else 0
  }

  function TrimRight(s: string): string {
    var n := SpaceBack(s);
    if n > 0 then TrimRight(s[..|s| - n]) else s
  }

  function TrimLeft(s: string): string {
    var n := SpaceFront(s);
    if n > 0 then TrimLeft(s[n..]) else s
  }

  predicate IsDigit(c: char) {
    '0' <= c <= '9'
  }

  /** The decimal numeral of n. */
  function Decimal(n: nat): (s: string)
    ensures s != "" && forall i :: 0 <= i < |s| ==> IsDigit(s[i])
    ensures (n < 10 <==> |s| == 1) && (n < 100 <==> |s| <= 2)
  {
    var last := [('0' as int + n % 10) as char];
    if n < 10 then last else Decimal(n / 10) + last
  }

  /** Lines joined by line feeds. */
  function JoinLines(lines: seq<string>): string {
    if lines == [] then "" else if |lines| == 1 then lines[0] else JoinLines(lines[..|lines| - 1]) + "\n" + lines[|lines| - 1]
  }

  /** Seen from the front they are joined in the same way. */
  lemma {:induction false} JoinedByLineFeeds(first: string, more: seq<string>)
    requires more != []
    ensures JoinLines([first] + more) == first + "\n" + JoinLines(more) && JoinLines([first]) == first
  {
    var n := |more| - 1;
    assert ([first] + more)[..n + 1] == [first] + more[..n];
    if n == 0 {
      assert [first] + more[..0] == [first];
    } else {
      JoinedByLineFeeds(first, more[..n]);
      Regrouped(first + "\n", JoinLines(more[..n]), "\n" + more[n]);
    }
  }

  lemma Regrouped(a: string, b: string, c: string)
    ensures a + b + c == a + (b + c)
  {
  }
}
