/** The small print of splitting (internal/telegram/format.go): which characters make a tag, what opens and closes
    one, how far the search for a safe point goes, what a counter says. */
module TelegramWords {
  import opened Strings
  import opened TelegramTags
  import opened TelegramCut
  import opened TelegramParts

  const Capitals := "ABCDEFGHIJKLMNOPQRSTUVWXYZ"
  const Letters := "abcdefghijklmnopqrstuvwxyz"
  const Digits := "0123456789"

  lemma CapitalAt(i: nat)
    ensures |Capitals| == 26 && (i < 26 ==> Capitals[i] as int == 65 + i)
  {
  }

  lemma LetterAt(i: nat)
    ensures |Letters| == 26 && (i < 26 ==> Letters[i] as int == 97 + i)
  {
  }

  lemma DigitAt(i: nat)
    ensures |Digits| == 10 && (i < 10 ==> Digits[i] as int == 48 + i)
  {
  }

  lemma InCapitals(c: char)
    ensures c in Capitals <==> 'A' <= c <= 'Z'
  {
    forall i | 0 <= i < |Capitals| ensures Capitals[i] as int == 65 + i {
      CapitalAt(i);
    }
    if 'A' <= c <= 'Z' {
      CapitalAt(c as int - 65);
    }
  }

  lemma InLetters(c: char)
    ensures c in Letters <==> 'a' <= c <= 'z'
  {
    forall i | 0 <= i < |Letters| ensures Letters[i] as int == 97 + i {
      LetterAt(i);
    }
    if 'a' <= c <= 'z' {
      LetterAt(c as int - 97);
    }
  }

  lemma InDigits(c: char)
    ensures c in Digits <==> '0' <= c <= '9'
  {
    forall i | 0 <= i < |Digits| ensures Digits[i] as int == 48 + i {
      DigitAt(i);
    }
    if '0' <= c <= '9' {
      DigitAt(c as int - 48);
    }
  }

  /** Names are made of letters and digits; capitals stand for their small letters. */
  lemma NamesAreLettersAndDigits(c: char, i: nat)
    ensures IsAlnum(c) <==> c in Capitals || c in Letters || c in Digits
    ensures |Capitals| == 26 == |Letters| && (i < 26 ==> LowerChar(Capitals[i]) == Letters[i])
    ensures c !in Capitals ==> LowerChar(c) == c
  {
    InCapitals(c);
    InLetters(c);
    InDigits(c);
    CapitalAt(i);
    LetterAt(i);
  }

  // ---- Tags ----

  /** What may follow the name: nothing, or a space and whatever does not end the tag. */
  predicate AreAttributes(s: string) {
    s == "" || (s[0] == ' ' && '>' !in s)
  }

  lemma TagBody(name: string, attributes: string)
    requires name != "" && (forall i :: 0 <= i < |name| ==> IsAlnum(name[i])) && AreAttributes(attributes)
    ensures var body := name + attributes;
            IsTagBody(body) && '>' !in body && TrimPrefix(body, '/') == body && NameLength(body) == |name| && body[..|name|] == name
  {
    var body := name + attributes;
    assert body[0] == name[0] && IsAlnum(name[0]);
    assert forall i :: 0 <= i < |name| ==> body[i] == name[i];
    assert attributes != "" ==> body[|name|] == attributes[0];
    assert forall i :: 0 <= i < |name| ==> name[i] != '>';
  }

  lemma TokenShape(body: string)
    requires body != ""
    ensures var tag := "<" + body + ">";
            tag[0] == '<' && tag[1] == body[0] && tag[|tag| - 2] == body[|body| - 1] && tag[|tag| - 1] == '>' && tag[1..|tag| - 1] == body
  {
  }

  /** A tag with a name, in capitals or not, and attributes or not, is open from here on; one that ends with a slash
      is not. */
  lemma TagOpens(open: seq<string>, name: string, attributes: string, rest: string)
    requires name != "" && (forall i :: 0 <= i < |name| ==> IsAlnum(name[i])) && AreAttributes(attributes)
    ensures Scan(open, "<" + (name + attributes) + ">" + rest) ==
            if attributes != "" && attributes[|attributes| - 1] == '/' then Scan(open, rest) else Scan(open + [ToLower(name)], rest)
  {
    var body := name + attributes;
    var tag := "<" + body + ">";
    TagBody(name, attributes);
    BodyMakesToken(body);
    ScanToken(open, tag, rest);
    TokenShape(body);
    assert body[|body| - 1] == if attributes == "" then name[|name| - 1] else attributes[|attributes| - 1];
    NameOfToken(tag);
    KindOfTag(tag);
  }

  lemma KindOfTag(tag: string)
    requires |tag| >= 3
    ensures Closes(tag) <==> tag[0] == '<' && tag[1] == '/'
    ensures SelfCloses(tag) <==> tag[|tag| - 2] == '/' && tag[|tag| - 1] == '>'
  {
    assert tag[..2] == [tag[0], tag[1]];
    assert tag[|tag| - 2..] == [tag[|tag| - 2], tag[|tag| - 1]];
  }

  /** An end tag closes the last open one of its name, and nothing else. */
  lemma EndTagCloses(open: seq<string>, name: string, rest: string)
    requires IsName(name)
    ensures Scan(open, "</" + name + ">" + rest) ==
            if open != [] && open[|open| - 1] == name then Scan(open[..|open| - 1], rest) else Scan(open, rest)
  {
    CloseTagToken(name);
    ScanToken(open, "</" + name + ">", rest);
  }

  // ---- The search for a safe point ----

  /** The cut is the length of a part if that is safe; else the last safe end of a rune less than 256 bytes before
      it, or none. */
  lemma SafeCutIs(s: string, target: nat)
    requires 0 < target < |s|
    ensures var cut := SafeCut(s, target);
            if Unclosed(s[..target]) == [] && !Dangling(s[..target]) then cut == target
            else
              && (cut != 0 ==> target - 256 < cut < target && RuneStart(s[cut]) && Unclosed(s[..cut]) == [] && !Dangling(s[..cut]))
              && forall m :: cut < m < target && target - 256 < m && RuneStart(s[m]) ==> Unclosed(s[..m]) != [] || Dangling(s[..m])
  {
  }

  // ---- Counters ----

  function Value(digits: string): nat {
    if digits == "" then 0 else 10 * Value(digits[..|digits| - 1]) + DigitValue(digits[|digits| - 1])
  }

  function DigitValue(c: char): nat {
    if c in Digits then IndexOf(Digits, c) else 0
  }

  lemma DigitIs(k: nat)
    requires k < 10
    ensures ('0' as int + k) as char == Digits[k] && DigitValue(Digits[k]) == k
  {
    DigitAt(k);
    forall i: nat | i < k ensures Digits[i] != Digits[k] {
      DigitAt(i);
    }
    IndexIs(Digits, Digits[k], k);
  }

  lemma {:induction false} DecimalReads(n: nat)
    ensures Value(Decimal(n)) == n
  {
    DigitIs(n % 10);
    var last := [('0' as int + n % 10) as char];
    if n < 10 {
      assert last[..0] == "";
    } else {
      DecimalReads(n / 10);
      var front := Decimal(n / 10);
      assert (front + last)[..|front|] == front;
    }
  }

  /** The counter of a part says which one it is, and of how many. */
  lemma CounterReads(i: nat, total: nat) returns (which: string, of: string)
    ensures Counter(i, total) == ['\n', '('] + which + ['/'] + of + [')'] && Value(which) == i && Value(of) == total
    ensures forall c :: c in which || c in of ==> c in Digits
  {
    which, of := Decimal(i), Decimal(total);
    DecimalReads(i);
    DecimalReads(total);
    forall c | c in which || c in of ensures c in Digits {
      InDigits(c);
    }
  }

  /** A marked-up message is left alone exactly if it is no longer than the limit; otherwise every part has a counter. */
  lemma LeftAloneIff(msg: string, maxLen: nat, rounds: nat)
    requires maxLen > 0 && SplitResult(msg, maxLen, rounds).Some?
    ensures |msg| <= maxLen ==> SplitResult(msg, maxLen, rounds).value == [msg]
    ensures |msg| > maxLen ==> forall part :: part in SplitResult(msg, maxLen, rounds).value ==> part != "" && part[|part| - 1] == ')'
  {
    if |msg| > maxLen {
      var parts := SplitResult(msg, maxLen, rounds).value;
      forall part | part in parts ensures part != "" && part[|part| - 1] == ')' {
        var i: nat :| i < |parts| && parts[i] == part;
        EndsWithCounter(part[..|part| - |Counter(i + 1, |parts|)|], i + 1, |parts|);
      }
    }
  }

  lemma EndsWithCounter(text: string, i: nat, total: nat)
    ensures var part := text + Counter(i, total); part != "" && part[|part| - 1] == ')'
  {
    var which, of := CounterReads(i, total);
  }

  /** Without a limit parts take 4096, and eight of them are for the counter if there are more. */
  lemma LengthsAre(maxLen: int)
    ensures EffectiveLen(maxLen) == if maxLen > 0 then maxLen else 4096
    ensures ChunkLen(EffectiveLen(maxLen)) == if 0 < maxLen <= 8 then maxLen else if maxLen > 8 then maxLen - 8 else 4088
  {
  }
}
