/** Stripping mIRC formatting codes from a line: a scan over bytes that must never cut a character. */
module StripFormat {
  import opened Basics
  import Utf8

  predicate IsToggle(n: int) {
    n == 0x02 || n == 0x1D || n == 0x1F || n == 0x1E || n == 0x16 || n == 0x0F
  }

  predicate IsCode(c: char) {
    IsToggle(c as int) || c as int == 0x03 || c as int == 0x04
  }

  /** The digits a colour is written in: decimal behind 0x03, hexadecimal behind 0x04. */
  predicate IsColorDigit(n: int, hex: bool) {
    '0' as int <= n <= '9' as int || (hex && ('a' as int <= n <= 'f' as int || 'A' as int <= n <= 'F' as int))
  }

  // ---------------------------------------------------------------- what stripping means, on characters

  function SkipDigits(s: string, hex: bool, max: nat): (r: string)
    ensures |r| <= |s|
    decreases max
  {
    if max > 0 && s != "" && IsColorDigit(s[0] as int, hex) then SkipDigits(s[1..], hex, max - 1) else s
  }

  /** A colour, and a background behind a comma that a digit follows. */
  function SkipColors(s: string, hex: bool, max: nat): (r: string)
    ensures |r| <= |s|
  {
    var rest := SkipDigits(s, hex, max);
    if |rest| > 1 && rest[0] == ',' && IsColorDigit(rest[1] as int, hex) then SkipDigits(rest[1..], hex, max) else rest
  }

  function Strip(s: string): string
    decreases |s|
  {
    if s == "" then ""
    else if IsToggle(s[0] as int) then Strip(s[1..])
    else if s[0] as int == 0x03 then Strip(SkipColors(s[1..], false, 2))
    else if s[0] as int == 0x04 then Strip(SkipColors(s[1..], true, 6))
    else [s[0]] + Strip(s[1..])
  }

  /** No code is left. */
  lemma {:induction false} StripLeavesNoCode(s: string)
    ensures forall i | 0 <= i < |Strip(s)| :: !IsCode(Strip(s)[i])
    decreases |s|
  {
    if s != "" {
      if IsToggle(s[0] as int) {
        StripLeavesNoCode(s[1..]);
      } else if s[0] as int == 0x03 {
        StripLeavesNoCode(SkipColors(s[1..], false, 2));
      } else if s[0] as int == 0x04 {
        StripLeavesNoCode(SkipColors(s[1..], true, 6));
      } else {
        StripLeavesNoCode(s[1..]);
      }
    }
  }

  lemma {:induction false} StripShortens(s: string)
    ensures |Strip(s)| <= |s|
    ensures (exists i :: 0 <= i < |s| && IsCode(s[i])) ==> |Strip(s)| < |s|
    decreases |s|
  {
    if s != "" {
      if IsToggle(s[0] as int) {
        StripShortens(s[1..]);
      } else if s[0] as int == 0x03 {
        StripShortens(SkipColors(s[1..], false, 2));
      } else if s[0] as int == 0x04 {
        StripShortens(SkipColors(s[1..], true, 6));
      } else {
        StripShortens(s[1..]);
        if i :| 0 <= i < |s| && IsCode(s[i]) {
          assert s[1..][i - 1] == s[i];
        }
      }
    }
  }

  lemma {:induction false} StripKeepsPlain(s: string)
    requires forall i | 0 <= i < |s| :: !IsCode(s[i])
    ensures Strip(s) == s
  {
    if s != "" {
      assert !IsCode(s[0]);
      StripKeepsPlain(s[1..]);
    }
  }

  /** A line is left alone exactly when it holds no code. */
  lemma StripFixesPlain(s: string)
    ensures Strip(s) == s <==> forall i | 0 <= i < |s| :: !IsCode(s[i])
  {
    if forall i | 0 <= i < |s| :: !IsCode(s[i]) {
      StripKeepsPlain(s);
    } else {
      StripShortens(s);
    }
  }

  /** Stripping twice is stripping once. */
  lemma StripIdempotent(s: string)
    ensures Strip(Strip(s)) == Strip(s)
  {
    StripLeavesNoCode(s);
    StripFixesPlain(Strip(s));
  }

  // ---------------------------------------------------------------- the scan over bytes

  lemma FirstByte(s: string)
    requires s != ""
    ensures Utf8.Encode(s) == Utf8.EncodeChar(s[0]) + Utf8.Encode(s[1..])
    ensures Utf8.Encode(s)[0] < 0x80 <==> (s[0] as int) < 0x80
    ensures (s[0] as int) < 0x80 ==> Utf8.Encode(s)[0] == s[0] as int && Utf8.Encode(s)[1..] == Utf8.Encode(s[1..])
  {
    var n := s[0] as int;
    if n < 0x80 {
      assert Utf8.EncodeChar(s[0]) == [n];
    }
  }

  /** At position `i` the bytes that are left encode `rest`. */
  predicate At(b: Bytes, i: nat, rest: string) {
    i <= |b| && b[i..] == Utf8.Encode(rest)
  }

  /** One ASCII byte on is one character on. */
  lemma StepAscii(b: Bytes, i: nat, rest: string)
    requires At(b, i, rest) && i < |b|
    ensures rest != ""
    ensures b[i] < 0x80 <==> (rest[0] as int) < 0x80
    ensures b[i] < 0x80 ==> b[i] == rest[0] as int && At(b, i + 1, rest[1..])
  {
    assert rest != "";
    FirstByte(rest);
    assert b[i] == b[i..][0] && b[i..][1..] == b[i + 1..];
  }

  lemma AtEnd(b: Bytes, i: nat, rest: string)
    requires At(b, i, rest)
    ensures i == |b| <==> rest == ""
  {
  }

  /** The inner loops over the digits of one colour. */
  method SkipRun(b: Bytes, i: nat, hex: bool, max: nat, ghost rest: string) returns (j: nat, ghost after: string)
    requires At(b, i, rest)
    ensures i <= j && after == SkipDigits(rest, hex, max) && At(b, j, after)
  {
    j := i;
    after := rest;
    var n := 0;
    while j < |b| && IsColorDigit(b[j], hex) && n < max
      invariant i <= j && n <= max && At(b, j, after)
      invariant SkipDigits(rest, hex, max) == SkipDigits(after, hex, max - n)
      decreases |b| - j
    {
      StepAscii(b, j, after);
      after := after[1..];
      j := j + 1;
      n := n + 1;
    }
    AtEnd(b, j, after);
    if j < |b| {
      StepAscii(b, j, after);
    }
  }

  method SkipColorCode(b: Bytes, i: nat, hex: bool, max: nat, ghost rest: string) returns (j: nat, ghost after: string)
    requires At(b, i, rest)
    ensures i <= j && after == SkipColors(rest, hex, max) && At(b, j, after)
  {
    j, after := SkipRun(b, i, hex, max, rest);
    CommaAhead(b, j, after, hex);
    if j < |b| && b[j] == ',' as int && j + 1 < |b| && IsColorDigit(b[j + 1], hex) {
      StepAscii(b, j, after);
      j, after := SkipRun(b, j + 1, hex, max, after[1..]);
    }
  }

  lemma CommaAhead(b: Bytes, j: nat, rest: string, hex: bool)
    requires At(b, j, rest)
    ensures (j < |b| && b[j] == ',' as int && j + 1 < |b| && IsColorDigit(b[j + 1], hex))
            <==> (|rest| > 1 && rest[0] == ',' && IsColorDigit(rest[1] as int, hex))
  {
    AtEnd(b, j, rest);
    if j < |b| {
      StepAscii(b, j, rest);
      if b[j] == ',' as int {
        AtEnd(b, j + 1, rest[1..]);
        if j + 1 < |b| {
          StepAscii(b, j + 1, rest[1..]);
        }
      }
    }
  }

  /** The inner loop over one character: where it ends. */
  method CharacterAt(b: Bytes, start: nat, ghost rest: string) returns (i: nat)
    requires At(b, start, rest) && start < |b|
    ensures start < i <= |b| && rest != "" && b[start..i] == Utf8.EncodeChar(rest[0]) && At(b, i, rest[1..])
  {
    AtEnd(b, start, rest);
    i := start + 1;
    while i < |b| && Utf8.IsContinuation(b[i])
      invariant start < i <= |b|
      invariant forall p | start < p < i :: Utf8.IsContinuation(b[p])
    {
      i := i + 1;
    }
    CharacterEnds(b, start, i, rest);
  }

  /** `strip_irc_formatting`: the text that is stripped, and its bytes, which are cut between characters. */
  method StripIrcFormatting(text: string) returns (out: Bytes)
    ensures out == Utf8.Encode(Strip(text))
    ensures Utf8.Decode(out) == Some(Strip(text))
  {
    var b := Utf8.Encode(text);
    var i: nat := 0;
    out := [];
    ghost var rest := text;
    while i < |b|
      invariant At(b, i, rest)
      invariant out + Utf8.Encode(Strip(rest)) == Utf8.Encode(Strip(text))
      decreases |b| - i
    {
      StepAscii(b, i, rest);
      if IsToggle(b[i]) {
        i, rest := i + 1, rest[1..];
      } else if b[i] == 0x03 {
        i, rest := SkipColorCode(b, i + 1, false, 2, rest[1..]);
      } else if b[i] == 0x04 {
        i, rest := SkipColorCode(b, i + 1, true, 6, rest[1..]);
      } else {
        var start := i;
        i := CharacterAt(b, start, rest);
        PlainCharacter(out, rest);
        out := out + b[start..i];
        rest := rest[1..];
      }
    }
    AtEnd(b, i, rest);
    Utf8.DecodeEncode(Strip(text));
  }

  /** Where the continuation bytes end, the character ends. */
  lemma CharacterEnds(b: Bytes, start: nat, i: nat, rest: string)
    requires At(b, start, rest) && rest != "" && start < i <= |b|
    requires forall p | start < p < i :: Utf8.IsContinuation(b[p])
    requires i < |b| ==> !Utf8.IsContinuation(b[i])
    ensures b[start..i] == Utf8.EncodeChar(rest[0]) && At(b, i, rest[1..])
  {
    FirstByte(rest);
    var c := Utf8.EncodeChar(rest[0]);
    var tail := Utf8.Encode(rest[1..]);
    Utf8.EncodeStartsClean(rest[1..]);
    var t := b[start..];
    assert t == c + tail && |t| == |b| - start;
    assert forall p | 0 <= p < |t| :: t[p] == b[start + p];
    assert tail != [] ==> t[|c|] == tail[0];
    assert forall p | 1 <= p < |c| :: t[p] == c[p];
    assert forall p | start < p < start + |c| :: b[p] == t[p - start];
    assert i - start == |c|;
    assert t[..|c|] == c && t[|c|..] == tail;
  }

  lemma EncodeCons(c: char, s: string)
    ensures Utf8.Encode([c] + s) == Utf8.EncodeChar(c) + Utf8.Encode(s)
  {
    assert ([c] + s)[1..] == s;
  }

  lemma PlainCharacter(out: Bytes, rest: string)
    requires rest != "" && !IsCode(rest[0])
    ensures out + Utf8.EncodeChar(rest[0]) + Utf8.Encode(Strip(rest[1..])) == out + Utf8.Encode(Strip(rest))
  {
    EncodeCons(rest[0], Strip(rest[1..]));
    Associate(out, Utf8.EncodeChar(rest[0]), Utf8.Encode(Strip(rest[1..])));
  }
}
