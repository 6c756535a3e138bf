/** Cutting a line into pieces that fit one encrypted message each. */
module Chunker {
  import opened Basics
  import opened Utf8

  const MAX_PT_PER_CHUNK := 180
  const MAX_CHUNKS := 16

  datatype ChunkError = Empty | TooManyChunks

  // ---------------------------------------------------------------- what a legal cut is

  function Concat(pieces: seq<string>): string {
    if pieces == [] then "" else pieces[0] + Concat(pieces[1..])
  }

  /** Some way of cutting `s` into non-empty pieces that fit. */
  predicate LegalSplit(pieces: seq<string>, s: string) {
    && Concat(pieces) == s
    && forall i | 0 <= i < |pieces| :: pieces[i] != "" && Size(pieces[i]) <= MAX_PT_PER_CHUNK
  }

  /** How many characters a first piece can take. */
  function Take(s: string, budget: nat): (k: nat)
    ensures k <= |s|
  {
    if s == "" || |Utf8.EncodeChar(s[0])| > budget then 0
    else 1 + Take(s[1..], budget - |Utf8.EncodeChar(s[0])|)
  }

  lemma {:induction false} TakeFits(s: string, budget: nat)
    ensures Size(s[..Take(s, budget)]) <= budget
    ensures s != "" && budget >= 4 ==> Take(s, budget) > 0
  {
    if s != "" && |Utf8.EncodeChar(s[0])| <= budget {
      var k := Take(s, budget);
      TakeFits(s[1..], budget - |Utf8.EncodeChar(s[0])|);
      assert s[..k][1..] == s[1..][..k - 1];
    }
  }

  /** No longer piece fits. */
  lemma {:induction false} TakeIsMost(s: string, budget: nat, k: nat)
    requires k <= |s| && Size(s[..k]) <= budget
    ensures k <= Take(s, budget)
  {
    if k > 0 {
      assert s[..k][1..] == s[1..][..k - 1];
      TakeIsMost(s[1..], budget - |Utf8.EncodeChar(s[0])|, k - 1);
    }
  }

  /** Each piece as long as it can be. */
  function Greedy(s: string): seq<string>
    decreases |s|
  {
    if s == "" then []
    else
      TakeFits(s, MAX_PT_PER_CHUNK);
      var k := Take(s, MAX_PT_PER_CHUNK);
      [s[..k]] + Greedy(s[k..])
  }

  lemma LegalCons(first: string, rest: seq<string>, s: string)
    requires first != "" && Size(first) <= MAX_PT_PER_CHUNK && LegalSplit(rest, s)
    ensures LegalSplit([first] + rest, first + s)
  {
    assert ([first] + rest)[1..] == rest;
  }

  lemma {:induction false} GreedyIsLegal(s: string)
    ensures LegalSplit(Greedy(s), s)
    decreases |s|
  {
    if s != "" {
      TakeFits(s, MAX_PT_PER_CHUNK);
      var k := Take(s, MAX_PT_PER_CHUNK);
      GreedyIsLegal(s[k..]);
      LegalCons(s[..k], Greedy(s[k..]), s[k..]);
      assert s[..k] + s[k..] == s;
    }
  }

  // ---------------------------------------------------------------- greedy is best

  lemma SizeOfSuffixPrefix(s: string, i: nat, j: nat)
    requires i <= j <= |s|
    ensures Size(s[i..j]) <= Size(s[..j])
  {
    assert s[..j] == s[..i] + s[i..j];
    Utf8.EncodeConcat(s[..i], s[i..j]);
  }

  /** Starting later never needs more pieces. */
  lemma {:induction false} GreedyOfSuffix(s: string, i: nat)
    requires i <= |s|
    ensures |Greedy(s[i..])| <= |Greedy(s)|
    decreases |s|
  {
    if s != "" {
      TakeFits(s, MAX_PT_PER_CHUNK);
      var k := Take(s, MAX_PT_PER_CHUNK);
      if i == |s| {
        assert s[i..] == "";
      } else if k <= i {
        assert s[i..] == s[k..][i - k..];
        GreedyOfSuffix(s[k..], i - k);
      } else {
        var t := s[i..];
        SizeOfSuffixPrefix(s, i, k);
        assert s[i..k] == t[..k - i];
        TakeIsMost(t, MAX_PT_PER_CHUNK, k - i);
        TakeFits(t, MAX_PT_PER_CHUNK);
        var m := Take(t, MAX_PT_PER_CHUNK);
        assert t[m..] == s[k..][i + m - k..];
        GreedyOfSuffix(s[k..], i + m - k);
      }
    }
  }

  /** No legal way of cutting needs fewer pieces. */
  lemma {:induction false} GreedyIsBest(s: string, pieces: seq<string>)
    requires LegalSplit(pieces, s)
    ensures |Greedy(s)| <= |pieces|
    decreases |pieces|
  {
    if s != "" {
      var p, rest := pieces[0], Concat(pieces[1..]);
      CutAfter(p, rest);
      TakeIsMost(s, MAX_PT_PER_CHUNK, |p|);
      TakeFits(s, MAX_PT_PER_CHUNK);
      var k := Take(s, MAX_PT_PER_CHUNK);
      GreedyIsBest(rest, pieces[1..]);
      SuffixOfRest(p, rest, k);
      GreedyOfSuffix(rest, k - |p|);
    }
  }

  lemma CutAfter(p: string, rest: string)
    ensures (p + rest)[..|p|] == p && (p + rest)[|p|..] == rest
  {
  }

  lemma SuffixOfRest(p: string, rest: string, k: nat)
    requires |p| <= k <= |p + rest|
    ensures (p + rest)[k..] == rest[k - |p|..]
  {
  }

  // ---------------------------------------------------------------- how many pieces a size needs

  /** Every piece but the last is filled up to the last three bytes. */
  lemma TakeFills(s: string, budget: nat)
    ensures Take(s, budget) < |s| ==> Size(s[..Take(s, budget)]) > budget - 4
  {
    var k := Take(s, budget);
    if k < |s| {
      assert s[..k + 1] == s[..k] + [s[k]];
      Utf8.EncodeConcat(s[..k], [s[k]]);
      assert [s[k]][1..] == "";
      if Size(s[..k + 1]) <= budget {
        TakeIsMost(s, budget, k + 1);
      }
    }
  }

  lemma {:induction false} GreedyCount(s: string)
    ensures s != "" ==> 177 * (|Greedy(s)| - 1) < Size(s) <= 180 * |Greedy(s)|
    decreases |s|
  {
    if s != "" {
      TakeFits(s, MAX_PT_PER_CHUNK);
      TakeFills(s, MAX_PT_PER_CHUNK);
      var k := Take(s, MAX_PT_PER_CHUNK);
      assert s[..k] + s[k..] == s;
      Utf8.EncodeConcat(s[..k], s[k..]);
      GreedyCount(s[k..]);
    }
  }

  // ---------------------------------------------------------------- the program

  function EncodeAll(pieces: seq<string>): (chunks: seq<Bytes>)
    ensures |chunks| == |pieces|
  {
    seq(|pieces|, i requires 0 <= i < |pieces| => Utf8.Encode(pieces[i]))
  }

  /** Every position of an encoded text that does not hold a continuation byte begins a character. */
  lemma {:induction false} BoundaryAt(s: string, j: nat) returns (k: nat)
    requires j <= Size(s) && (j < Size(s) ==> !Utf8.IsContinuation(Utf8.Encode(s)[j]))
    ensures k <= |s| && Size(s[..k]) == j
  {
    if j == 0 {
      k := 0;
      assert s[..0] == "";
    } else {
      var n := |Utf8.EncodeChar(s[0])|;
      assert forall i | 1 <= i < n :: Utf8.Encode(s)[i] == Utf8.EncodeChar(s[0])[i];
      assert j >= n;
      var m := BoundaryAt(s[1..], j - n);
      k := m + 1;
      assert s[..k][1..] == s[1..][..m];
    }
  }

  /** And every position where a character begins holds no continuation byte. */
  lemma BoundaryIsClean(s: string, k: nat)
    requires k <= |s|
    ensures Size(s[..k]) <= Size(s) && Utf8.Encode(s)[Size(s[..k])..] == Utf8.Encode(s[k..])
    ensures Utf8.Encode(s)[..Size(s[..k])] == Utf8.Encode(s[..k])
    ensures k < |s| ==> Size(s[..k]) < Size(s) && !Utf8.IsContinuation(Utf8.Encode(s)[Size(s[..k])])
  {
    assert s == s[..k] + s[k..];
    Utf8.EncodeConcat(s[..k], s[k..]);
    Utf8.EncodeStartsClean(s[k..]);
  }

  /** The last boundary within the budget is where the greedy first piece ends. */
  lemma LastBoundary(s: string, j: nat, budget: nat)
    requires j <= Size(s) && j <= budget && (j < Size(s) ==> !Utf8.IsContinuation(Utf8.Encode(s)[j]))
    requires forall p | j < p <= budget && p < Size(s) :: Utf8.IsContinuation(Utf8.Encode(s)[p])
    requires j < Size(s) ==> budget < Size(s)
    ensures Size(s[..Take(s, budget)]) == j
  {
    var k := BoundaryAt(s, j);
    TakeIsMost(s, budget, k);
    var m := Take(s, budget);
    TakeFits(s, budget);
    BoundaryIsClean(s, m);
    LongerIsNoSmaller(s, k, m);
  }

  lemma LongerIsNoSmaller(s: string, k: nat, m: nat)
    requires k <= m <= |s|
    ensures Size(s[..k]) <= Size(s[..m])
  {
    assert s[..m] == s[..k] + s[k..m];
    Utf8.EncodeConcat(s[..k], s[k..m]);
  }

  /** `split_plaintext`. Its third error, a character that fits no chunk, never arises. */
  method SplitPlaintext(pt: string) returns (r: Result<seq<Bytes>, ChunkError>)
    ensures r == SplitOutcome(pt)
  {
    if pt == "" {
      return Err(Empty);
    }
    var b := Utf8.Encode(pt);
    var chunks: seq<Bytes> := [];
    var i: nat := 0;
    ghost var done: nat := 0;
    StartCutting(pt);
    while i < |b|
      invariant |chunks| <= MAX_CHUNKS && StandsAt(pt, done, i) && CutSoFar(pt, done, chunks)
    {
      var j: nat := if i + MAX_PT_PER_CHUNK < |b| then i + MAX_PT_PER_CHUNK else |b|;
      while j > i && j < |b| && Utf8.IsContinuation(b[j])
        invariant i <= j <= i + MAX_PT_PER_CHUNK && j <= |b|
        invariant j < |b| ==> i + MAX_PT_PER_CHUNK < |b|
        invariant forall p | j < p <= i + MAX_PT_PER_CHUNK && p < |b| :: Utf8.IsContinuation(b[p])
      {
        j := j - 1;
      }
      done := NextPiece(pt, done, i, j, chunks, b);
      chunks := chunks + [b[i..j]];
      i := j;
      CountCutting(pt, done, chunks);
      if |chunks| > MAX_CHUNKS {
        return Err(TooManyChunks);
      }
    }
    DoneCutting(pt, done, chunks);
    return Ok(chunks);
  }

  function SplitOutcome(pt: string): Result<seq<Bytes>, ChunkError> {
    if pt == "" then Err(Empty)
    else if |Greedy(pt)| <= MAX_CHUNKS then Ok(EncodeAll(Greedy(pt)))
    else Err(TooManyChunks)
  }

  lemma WholeText(pt: string, done: nat)
    requires done <= |pt|
    ensures Size(pt[..done]) == Size(pt) <==> pt[done..] == ""
    ensures Size(pt[..done]) <= Size(pt)
  {
    BoundaryIsClean(pt, done);
    if done == |pt| {
      assert pt[..done] == pt;
    }
  }

  /** The inner loop, looking for the end of a chunk that starts at `i`, may stop at `j`. */
  predicate StopsAt(b: Bytes, i: nat, j: nat) {
    && i <= j <= i + MAX_PT_PER_CHUNK && j <= |b|
    && (j == i || j == |b| || !Utf8.IsContinuation(b[j]))
    && (j < |b| ==> i + MAX_PT_PER_CHUNK < |b|)
    && forall p | j < p <= i + MAX_PT_PER_CHUNK && p < |b| :: Utf8.IsContinuation(b[p])
  }

  lemma StopsShifted(b: Bytes, i: nat, j: nat)
    requires StopsAt(b, i, j)
    ensures StopsAt(b[i..], 0, j - i)
  {
  }

  /** Where the inner loop stops, the next greedy piece ends. */
  lemma PieceEnds(s: string, j: nat)
    requires s != "" && StopsAt(Utf8.Encode(s), 0, j)
    ensures j > 0 && Utf8.Encode(s)[..j] == Utf8.Encode(s[..Take(s, MAX_PT_PER_CHUNK)])
    ensures Take(s, MAX_PT_PER_CHUNK) > 0
  {
    Utf8.EncodeStartsClean(s);
    LastBoundary(s, j, MAX_PT_PER_CHUNK);
    TakeFits(s, MAX_PT_PER_CHUNK);
    BoundaryIsClean(s, Take(s, MAX_PT_PER_CHUNK));
  }

  lemma SizeAdds(pt: string, done: nat, k: nat)
    requires done + k <= |pt|
    ensures Size(pt[..done + k]) == Size(pt[..done]) + Size(pt[done..][..k])
    ensures pt[done..][k..] == pt[done + k..]
  {
    assert pt[..done + k] == pt[..done] + pt[done..][..k];
    Utf8.EncodeConcat(pt[..done], pt[done..][..k]);
  }

  /** What the outer loop keeps: where it stands in the text and in its bytes. */
  predicate StandsAt(pt: string, done: nat, i: nat) {
    done <= |pt| && i == Size(pt[..done]) && i <= Size(pt) && (i < Size(pt) ==> done < |pt|)
  }

  /** And that the chunks so far and the greedy pieces still to come make the whole. */
  predicate CutSoFar(pt: string, done: nat, chunks: seq<Bytes>) {
    done <= |pt| && EncodeAll(Greedy(pt)) == chunks + EncodeAll(Greedy(pt[done..]))
  }

  lemma StartCutting(pt: string)
    ensures StandsAt(pt, 0, 0) && CutSoFar(pt, 0, [])
  {
    assert pt[..0] == "" && pt[0..] == pt;
  }

  lemma DoneCutting(pt: string, done: nat, chunks: seq<Bytes>)
    requires StandsAt(pt, done, Size(pt)) && CutSoFar(pt, done, chunks)
    ensures chunks == EncodeAll(Greedy(pt))
  {
    WholeText(pt, done);
  }

  lemma CountCutting(pt: string, done: nat, chunks: seq<Bytes>)
    requires CutSoFar(pt, done, chunks)
    ensures |chunks| <= |Greedy(pt)|
  {
  }

  lemma NextPieceIs(b: Bytes, s: string, i: nat, j: nat)
    requires i <= |b| && b[i..] == Utf8.Encode(s) && s != "" && StopsAt(b, i, j)
    ensures i < j && Take(s, MAX_PT_PER_CHUNK) > 0
    ensures Utf8.Encode(s[..Take(s, MAX_PT_PER_CHUNK)]) == b[i..j]
  {
    StopsShifted(b, i, j);
    PieceEnds(s, j - i);
    assert b[i..][..j - i] == b[i..j];
  }

  /** One round of the loop cuts off one greedy piece. */
  lemma NextPiece(pt: string, done: nat, i: nat, j: nat, chunks: seq<Bytes>, b: Bytes) returns (done1: nat)
    requires b == Utf8.Encode(pt) && StandsAt(pt, done, i) && CutSoFar(pt, done, chunks) && i < |b| && StopsAt(b, i, j)
    ensures i < j && StandsAt(pt, done1, j) && CutSoFar(pt, done1, chunks + [b[i..j]])
  {
    var k := PieceBytes(pt, done, i, j, b);
    done1 := done + k;
    AdvancePosition(pt, done, k, j);
    AdvancePieces(pt, done, chunks, k, b[i..j]);
  }

  lemma PieceBytes(pt: string, done: nat, i: nat, j: nat, b: Bytes) returns (k: nat)
    requires b == Utf8.Encode(pt) && done < |pt| && i == Size(pt[..done]) && i < |b| && StopsAt(b, i, j)
    ensures i < j && done + k <= |pt| && k == Take(pt[done..], MAX_PT_PER_CHUNK) && k > 0
    ensures Utf8.Encode(pt[done..][..k]) == b[i..j] && Size(pt[..done + k]) == j && pt[done..][k..] == pt[done + k..]
  {
    BytesAhead(pt, done, b);
    NextPieceIs(b, pt[done..], i, j);
    k := Take(pt[done..], MAX_PT_PER_CHUNK);
    SizeAdds(pt, done, k);
  }

  lemma BytesAhead(pt: string, done: nat, b: Bytes)
    requires done <= |pt| && b == Utf8.Encode(pt)
    ensures Size(pt[..done]) <= |b| && b[Size(pt[..done])..] == Utf8.Encode(pt[done..])
  {
    BoundaryIsClean(pt, done);
  }

  lemma AdvancePosition(pt: string, done: nat, k: nat, j: nat)
    requires done + k <= |pt| && Size(pt[..done + k]) == j
    ensures StandsAt(pt, done + k, j)
  {
    WholeText(pt, done + k);
  }

  lemma AdvancePieces(pt: string, done: nat, chunks: seq<Bytes>, k: nat, chunk: Bytes)
    requires done < |pt| && k == Take(pt[done..], MAX_PT_PER_CHUNK) && k > 0 && pt[done..][k..] == pt[done + k..]
    requires CutSoFar(pt, done, chunks) && chunk == Utf8.Encode(pt[done..][..k])
    ensures CutSoFar(pt, done + k, chunks + [chunk])
  {
    GreedyUnfolds(pt[done..], k);
    Associate(chunks, [chunk], EncodeAll(Greedy(pt[done + k..])));
  }

  lemma GreedyUnfolds(s: string, k: nat)
    requires s != "" && k == Take(s, MAX_PT_PER_CHUNK) && k > 0
    ensures EncodeAll(Greedy(s)) == [Utf8.Encode(s[..k])] + EncodeAll(Greedy(s[k..]))
  {
    assert Greedy(s) == [s[..k]] + Greedy(s[k..]);
  }

  // ---------------------------------------------------------------- what the outcome means

  function ConcatBytes(chunks: seq<Bytes>): Bytes {
    if chunks == [] then [] else chunks[0] + ConcatBytes(chunks[1..])
  }

  lemma {:induction false} EncodeAllConcat(pieces: seq<string>)
    ensures ConcatBytes(EncodeAll(pieces)) == Utf8.Encode(Concat(pieces))
  {
    if pieces != [] {
      assert EncodeAll(pieces)[1..] == EncodeAll(pieces[1..]);
      EncodeAllConcat(pieces[1..]);
      Utf8.EncodeConcat(pieces[0], Concat(pieces[1..]));
    }
  }

  /** The chunks are the encodings of a shortest legal split, and a non-empty text is refused exactly
      when it has no legal split into sixteen pieces. */
  lemma SplitIsOptimal(pt: string)
    requires pt != ""
    ensures SplitOutcome(pt).Ok? ==>
              var chunks := SplitOutcome(pt).value;
              && LegalSplit(Greedy(pt), pt) && chunks == EncodeAll(Greedy(pt)) && |chunks| <= MAX_CHUNKS
              && ConcatBytes(chunks) == Utf8.Encode(pt)
              && forall pieces | LegalSplit(pieces, pt) :: |chunks| <= |pieces|
    ensures SplitOutcome(pt).Err? <==> forall pieces | LegalSplit(pieces, pt) :: |pieces| > MAX_CHUNKS
  {
    GreedyIsLegal(pt);
    EncodeAllConcat(Greedy(pt));
    forall pieces | LegalSplit(pieces, pt)
      ensures |Greedy(pt)| <= |pieces|
    {
      GreedyIsBest(pt, pieces);
    }
  }

  /** Texts of up to 2832 bytes always fit, texts of more than 2880 bytes never do. */
  lemma SplitLimits(pt: string)
    requires pt != ""
    ensures Size(pt) <= 2832 ==> SplitOutcome(pt).Ok?
    ensures Size(pt) > 2880 ==> SplitOutcome(pt) == Err(TooManyChunks)
  {
    GreedyCount(pt);
  }
}
