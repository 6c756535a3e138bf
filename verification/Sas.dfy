/** The six words two people compare: the start of the BIP-39 mnemonic of a 16-byte fingerprint. */
module Sas {
  import opened Basics
  import opened Text

  const FP_LEN := 16
  const WORD_COUNT := 2048

  /** `n >> bits` */
  function Shr(n: nat, bits: nat): nat {
    if bits == 0 then n else Shr(n / 2, bits - 1)
  }

  /** `int.from_bytes(b, "big")` */
  function Value(b: Bytes): nat {
    if b == [] then 0 else Value(b[..|b| - 1]) * 256 + b[|b| - 1]
  }

  /** The fingerprint's 128 bits and the four checksum bits, as one number. */
  function Combined(fp: Bytes, hash: Bytes -> Bytes): nat
    requires hash(fp) != []
  {
    Value(fp) * 16 + hash(fp)[0] / 16
  }

  function Index(n: nat, i: nat): (k: nat)
    requires i < 12
    ensures k < WORD_COUNT
  {
    Shr(n, 132 - 11 * (i + 1)) % 2048
  }

  function Indices(n: nat, count: nat): (r: seq<nat>)
    requires count <= 12
    ensures |r| == count && forall i | 0 <= i < count :: r[i] == Index(n, i) && r[i] < WORD_COUNT
  {
    seq(count, i requires 0 <= i < count => Index(n, i))
  }

  predicate IsWordList(words: seq<string>) {
    && |words| == WORD_COUNT
    && (forall i | 0 <= i < |words| :: IsWord(words[i]))
    && (forall i, j | 0 <= i < j < |words| :: words[i] != words[j])
  }

  function Chosen(words: seq<string>, indices: seq<nat>): seq<string>
    requires |words| == WORD_COUNT && forall i | 0 <= i < |indices| :: indices[i] < WORD_COUNT
  {
    seq(|indices|, i requires 0 <= i < |indices| => words[indices[i]])
  }

  function SixWords(fp: Bytes, hash: Bytes -> Bytes, words: seq<string>): string
    requires hash(fp) != [] && |words| == WORD_COUNT
  {
    Join(Chosen(words, Indices(Combined(fp, hash), 6)), " ")
  }

  /** `fingerprint_bip39` */
  method FingerprintBip39(fp: Bytes, hash: Bytes -> Bytes, list: seq<string>) returns (sas: string)
    requires hash(fp) != [] && |list| == WORD_COUNT
    ensures sas == SixWords(fp, hash, list)
  {
    var combined := Combined(fp, hash);
    var words: seq<string> := [];
    for i := 0 to 12
      invariant |words| == i && forall j | 0 <= j < i :: words[j] == list[Index(combined, j)]
    {
      var shift := 132 - 11 * (i + 1);
      var idx := Shr(combined, shift) % 2048;
      words := words + [list[idx]];
    }
    assert words[..6] == Chosen(list, Indices(combined, 6));
    sas := Join(words[..6], " ");
  }

  // ---------------------------------------------------------------- shifting

  lemma {:induction false} ShrAdds(n: nat, a: nat, b: nat)
    ensures Shr(n, a + b) == Shr(Shr(n, a), b)
    decreases a
  {
    if a > 0 {
      ShrAdds(n / 2, a - 1, b);
    }
  }

  lemma ShrByTwo(n: nat)
    ensures Shr(n, 1) == n / 2 && Shr(n, 2) == n / 4
  {
    assert Shr(n / 2, 1) == Shr(n / 2 / 2, 0);
  }

  lemma ShrByFour(n: nat)
    ensures Shr(n, 4) == n / 16
  {
    ShrAdds(n, 2, 2);
    ShrByTwo(n);
    ShrByTwo(n / 4);
  }

  lemma ShrByEleven(n: nat)
    ensures Shr(n, 11) == n / 2048
  {
    ShrAdds(n, 4, 7);
    ShrAdds(n / 16, 4, 3);
    ShrAdds(n / 256, 2, 1);
    ShrByFour(n);
    ShrByFour(n / 16);
    ShrByTwo(n / 256);
    ShrByTwo(n / 256 / 4);
  }

  lemma ShrByByte(n: nat, b: Byte)
    ensures Shr(n * 256 + b, 8) == n && Shr(n * 256 + b, 6) == n * 4 + b / 64
  {
    var m: nat := n * 256 + b;
    ShrAdds(m, 4, 4);
    ShrAdds(m, 4, 2);
    ShrByFour(m);
    ShrByFour(m / 16);
    ShrByTwo(m / 16);
  }

  /** Dropping whole bytes off the end. */
  lemma {:induction false} ShrBytes(b: Bytes, k: nat)
    requires k <= |b|
    ensures Shr(Value(b), 8 * k) == Value(b[..|b| - k])
    decreases k
  {
    if k == 0 {
      assert b[..|b|] == b;
    } else {
      var init := b[..|b| - 1];
      ShrByByte(Value(init), b[|b| - 1]);
      ShrAdds(Value(b), 8, 8 * (k - 1));
      ShrBytes(init, k - 1);
      assert init[..|init| - (k - 1)] == b[..|b| - k];
    }
  }

  // ---------------------------------------------------------------- the indices are the number

  /** A number written in base 2048, first digit first. */
  function Recomposed(digits: seq<nat>): nat {
    if digits == [] then 0 else Recomposed(digits[..|digits| - 1]) * 2048 + digits[|digits| - 1]
  }

  /** The first `count` indices are the top `11 * count` bits of a 132-bit number. */
  lemma {:induction false} TopBits(n: nat, count: nat)
    requires count <= 12 && Shr(n, 132) == 0
    ensures Recomposed(Indices(n, count)) == Shr(n, 132 - 11 * count)
  {
    if count > 0 {
      var rest := 132 - 11 * count;
      TopBits(n, count - 1);
      assert Indices(n, count)[..count - 1] == Indices(n, count - 1);
      ShrAdds(n, rest, 11);
      ShrByEleven(Shr(n, rest));
      assert rest + 11 == 132 - 11 * (count - 1);
    }
  }

  lemma CombinedFits(fp: Bytes, hash: Bytes -> Bytes)
    requires |fp| == FP_LEN && hash(fp) != []
    ensures Shr(Combined(fp, hash), 132) == 0 && Shr(Combined(fp, hash), 4) == Value(fp)
  {
    var n := Combined(fp, hash);
    ShrByFour(n);
    ShrAdds(n, 4, 128);
    ShrBytes(fp, 16);
    assert fp[..0] == [];
  }

  /** The twelve indices are in range and make up exactly the 132 bits of entropy and checksum. */
  lemma IndicesAreTheNumber(fp: Bytes, hash: Bytes -> Bytes)
    requires |fp| == FP_LEN && hash(fp) != []
    ensures Recomposed(Indices(Combined(fp, hash), 12)) == Value(fp) * 16 + hash(fp)[0] / 16
  {
    CombinedFits(fp, hash);
    TopBits(Combined(fp, hash), 12);
  }

  // ---------------------------------------------------------------- what comparing the words compares

  /** The first 66 bits: eight bytes and the upper two bits of the ninth. */
  predicate SameStart(fp: Bytes, fp1: Bytes)
    requires |fp| == FP_LEN && |fp1| == FP_LEN
  {
    fp[..8] == fp1[..8] && fp[8] / 64 == fp1[8] / 64
  }

  lemma {:induction false} ValueInjective(a: Bytes, b: Bytes)
    requires |a| == |b| && Value(a) == Value(b)
    ensures a == b
  {
    if a != [] {
      var (x, y) := (a[..|a| - 1], b[..|b| - 1]);
      ValueInjective(x, y);
      assert a == x + [a[|a| - 1]] && b == y + [b[|b| - 1]];
    }
  }

  lemma StartOfNumber(fp: Bytes, hash: Bytes -> Bytes)
    requires |fp| == FP_LEN && hash(fp) != []
    ensures Shr(Combined(fp, hash), 66) == Value(fp[..8]) * 4 + fp[8] / 64
  {
    CombinedFits(fp, hash);
    ShrAdds(Combined(fp, hash), 4, 62);
    ShrAdds(Value(fp), 56, 6);
    ShrBytes(fp, 7);
    assert fp[..9][..8] == fp[..8];
    ShrByByte(Value(fp[..8]), fp[8]);
  }

  lemma {:induction false} SameIndices(m: nat, n: nat, count: nat)
    requires count <= 12 && Shr(m, 132 - 11 * count) == Shr(n, 132 - 11 * count)
    ensures Indices(m, count) == Indices(n, count)
  {
    forall i | 0 <= i < count
      ensures Index(m, i) == Index(n, i)
    {
      var (rest, more) := (132 - 11 * count, 11 * (count - i - 1));
      ShrAdds(m, rest, more);
      ShrAdds(n, rest, more);
      assert rest + more == 132 - 11 * (i + 1);
    }
  }

  lemma ChosenInjective(words: seq<string>, a: seq<nat>, b: seq<nat>)
    requires IsWordList(words) && |a| == |b|
    requires forall i | 0 <= i < |a| :: a[i] < WORD_COUNT && b[i] < WORD_COUNT
    requires Join(Chosen(words, a), " ") == Join(Chosen(words, b), " ")
    ensures a == b
  {
    FieldsOfJoin(Chosen(words, a));
    FieldsOfJoin(Chosen(words, b));
    forall i | 0 <= i < |a|
      ensures a[i] == b[i]
    {
      assert Chosen(words, a)[i] == Chosen(words, b)[i];
    }
  }

  /** Two fingerprints show the same six words exactly when they agree in their first 66 bits. */
  lemma WordsComparePrefixes(fp: Bytes, fp1: Bytes, hash: Bytes -> Bytes, words: seq<string>)
    requires |fp| == FP_LEN && |fp1| == FP_LEN && hash(fp) != [] && hash(fp1) != [] && IsWordList(words)
    ensures SixWords(fp, hash, words) == SixWords(fp1, hash, words) <==> SameStart(fp, fp1)
  {
    var (n, n1) := (Combined(fp, hash), Combined(fp1, hash));
    StartOfNumber(fp, hash);
    StartOfNumber(fp1, hash);
    if SameStart(fp, fp1) {
      SameIndices(n, n1, 6);
    } else if SixWords(fp, hash, words) == SixWords(fp1, hash, words) {
      ChosenInjective(words, Indices(n, 6), Indices(n1, 6));
      CombinedFits(fp, hash);
      CombinedFits(fp1, hash);
      TopBits(n, 6);
      TopBits(n1, 6);
      EqualParts(Value(fp[..8]), fp[8], Value(fp1[..8]), fp1[8]);
      ValueInjective(fp[..8], fp1[..8]);
    }
  }

  lemma EqualParts(v: nat, b: Byte, v1: nat, b1: Byte)
    requires v * 4 + b / 64 == v1 * 4 + b1 / 64
    ensures v == v1 && b / 64 == b1 / 64
  {
  }
}
