/** Splitting plain text by runes (internal/telegram/format.go, splitPlain). */
module TelegramPlain {
  import opened Strings
  import opened TelegramParts

  /** The text in pieces of the given length; the last may be shorter. */
  function Chunks(runes: string, chunk: nat): (parts: seq<string>)
    requires chunk > 0
    decreases |runes|
  {
    if runes == "" then []
    else if |runes| <= chunk then [runes]
    else [runes[..chunk]] + Chunks(runes[chunk..], chunk)
  }

  function Concat(parts: seq<string>): string {
    if parts == [] then "" else parts[0] + Concat(parts[1..])
  }

  method SplitPlain(runes: string, maxLen0: int) returns (parts: seq<string>)
    ensures |runes| <= EffectiveLen(maxLen0) ==> parts == [runes]
    ensures |runes| > EffectiveLen(maxLen0) ==> parts == Numbered(Chunks(runes, ChunkLen(EffectiveLen(maxLen0)))) && |parts| > 1
  {
    var maxLen := EffectiveLen(maxLen0);
    if |runes| <= maxLen {
      return [runes];
    }
    var chunk := ChunkLen(maxLen);
    var rest := runes;
    parts := [];
    while |rest| > 0
      invariant parts + Chunks(rest, chunk) == Chunks(runes, chunk)
      invariant rest == runes || |parts| > 0
      invariant |parts| == 1 ==> |rest| > 0
      decreases |rest|
    {
      var n := if chunk > |rest| then |rest| else chunk;
      var part := rest[..n];
      assert Chunks(rest, chunk) == [part] + Chunks(rest[n..], chunk) by {
        if |rest| <= chunk {
          assert rest[n..] == "" && part == rest && [part] + [] == [part];
        }
      }
      TelegramParts.Regroup(parts, part, Chunks(rest[n..], chunk));
      parts := parts + [part];
      rest := rest[n..];
    }
    if |parts| == 1 {
      return [runes];
    }
    parts := NumberParts(parts);
  }

  lemma ChunksFront(runes: string, chunk: nat)
    requires 0 < chunk < |runes|
    ensures Chunks(runes, chunk) == [runes[..chunk]] + Chunks(runes[chunk..], chunk)
    ensures |Chunks(runes[chunk..], chunk)| >= 1
  {
    assert runes[chunk..] != "";
  }

  lemma ConcatFront(part: string, parts: seq<string>)
    ensures Concat([part] + parts) == part + Concat(parts)
  {
    assert ([part] + parts)[1..] == parts;
  }

  /** No rune is lost. */
  lemma {:induction false} ChunksAreTheText(runes: string, chunk: nat)
    requires chunk > 0
    ensures Concat(Chunks(runes, chunk)) == runes
    decreases |runes|
  {
    if |runes| > chunk {
      ChunksFront(runes, chunk);
      ChunksAreTheText(runes[chunk..], chunk);
      ConcatFront(runes[..chunk], Chunks(runes[chunk..], chunk));
    } else if runes != "" {
      ConcatFront(runes, []);
      assert [runes] + [] == [runes];
    }
  }

  /** Every part but the last is full, and none is empty. */
  lemma {:induction false} ChunkLengths(runes: string, chunk: nat)
    requires chunk > 0
    ensures forall i :: 0 <= i < |Chunks(runes, chunk)| - 1 ==> |Chunks(runes, chunk)[i]| == chunk
    ensures forall i :: 0 <= i < |Chunks(runes, chunk)| ==> 0 < |Chunks(runes, chunk)[i]| <= chunk
    decreases |runes|
  {
    if |runes| > chunk {
      ChunksFront(runes, chunk);
      ChunkLengths(runes[chunk..], chunk);
    }
  }

  lemma {:induction false} ChunkCount(runes: string, chunk: nat, k: nat)
    requires chunk > 0
    ensures |Chunks(runes, chunk)| <= k <==> |runes| <= k * chunk
    decreases |runes|
  {
    if |runes| > chunk {
      if k > 0 {
        ChunkCount(runes[chunk..], chunk, k - 1);
        assert k * chunk == (k - 1) * chunk + chunk;
      }
    } else if k > 0 {
      assert k * chunk >= chunk;
    }
  }

  lemma CounterLength(i: nat, total: nat)
    ensures |Counter(i, total)| == 4 + |Decimal(i)| + |Decimal(total)|
  {
  }

  lemma FewPartsFit(chunks: seq<string>, chunk: nat, i: nat)
    requires i < |chunks| <= 99 && |chunks[i]| <= chunk
    ensures |Numbered(chunks)[i]| <= chunk + SuffixSpace
  {
    CounterLength(i + 1, |chunks|);
  }

  lemma TenthPartOverflows(chunks: seq<string>, chunk: nat)
    requires |chunks| >= 100 && |chunks[9]| == chunk
    ensures |Numbered(chunks)[9]| > chunk + SuffixSpace
  {
    CounterLength(10, |chunks|);
  }

  /** With room for the counters, no part is longer than maxLen exactly when there are at most 99: the
      eight runes set aside hold two two-digit numbers. */
  lemma PartsFitIff(runes: string, maxLen: nat)
    requires SuffixSpace < maxLen < |runes|
    ensures var parts := Numbered(Chunks(runes, maxLen - SuffixSpace));
            (forall i :: 0 <= i < |parts| ==> |parts[i]| <= maxLen) <==> |runes| <= 99 * (maxLen - SuffixSpace)
  {
    var chunk := maxLen - SuffixSpace;
    var chunks := Chunks(runes, chunk);
    ChunkLengths(runes, chunk);
    ChunkCount(runes, chunk, 99);
    if |chunks| <= 99 {
      forall i | 0 <= i < |chunks| ensures |Numbered(chunks)[i]| <= maxLen {
        FewPartsFit(chunks, chunk, i);
      }
    } else {
      TenthPartOverflows(chunks, chunk);
    }
  }
}
