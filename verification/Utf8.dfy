/** UTF-8 as Python's strict codec and Rust's `str` use it: Dafny's `char` is a Unicode scalar
    value, so every string has an encoding and lone surrogates do not arise. */
module Utf8 {
  import opened Basics

  /** `(b & 0xC0) == 0x80` */
  predicate IsContinuation(b: Byte) {
    b / 0x40 == 2
  }

  function EncodeChar(c: char): (b: Bytes)
    ensures 1 <= |b| <= 4
    ensures !IsContinuation(b[0])
    ensures forall i | 1 <= i < |b| :: IsContinuation(b[i])
  {
    var n := c as int;
    if n < 0x80 then [n]
    else if n < 0x800 then [0xC0 + n / 0x40, 0x80 + n % 0x40]
    else if n < 0x1_0000 then [0xE0 + n / 0x1000, 0x80 + n / 0x40 % 0x40, 0x80 + n % 0x40]
    else [0xF0 + n / 0x4_0000, 0x80 + n / 0x1000 % 0x40, 0x80 + n / 0x40 % 0x40, 0x80 + n % 0x40]
  }

  function Encode(s: string): (b: Bytes)
    ensures |s| <= |b| <= 4 * |s|
  {
    if s == "" then [] else EncodeChar(s[0]) + Encode(s[1..])
  }

  /** The length in bytes. */
  function Size(s: string): nat {
    |Encode(s)|
  }

  /** The payload bits of a byte: what is left below `limit`. */
  function Low(b: Byte, limit: int): (n: int)
    requires limit > 0
    ensures 0 <= n < limit
  {
    b as int % limit
  }

  predicate IsScalar(n: int) {
    0 <= n < 0xD800 || 0xE000 <= n < 0x11_0000
  }

  /** Reads one character off the front: overlong forms, surrogates, values past the last plane,
      stray continuation bytes and truncated sequences are all refused. */
  function DecodeChar(b: Bytes): (r: Option<(char, nat)>)
    ensures r.Some? ==> 1 <= r.value.1 <= |b|
  {
    if b == [] then None
    else if b[0] < 0x80 then Some((b[0] as char, 1))
    else if 0xC0 <= b[0] < 0xE0 then
      if |b| >= 2 && IsContinuation(b[1]) then
        var n: int := Low(b[0], 0x20) * 0x40 + Low(b[1], 0x40);
        if n >= 0x80 then Some((n as char, 2)) else None
      else None
    else if 0xE0 <= b[0] < 0xF0 then
      if |b| >= 3 && IsContinuation(b[1]) && IsContinuation(b[2]) then
        var n: int := Low(b[0], 0x10) * 0x1000 + Low(b[1], 0x40) * 0x40 + Low(b[2], 0x40);
        if n >= 0x800 && IsScalar(n) then Some((n as char, 3)) else None
      else None
    else if 0xF0 <= b[0] < 0xF8 then
      if |b| >= 4 && IsContinuation(b[1]) && IsContinuation(b[2]) && IsContinuation(b[3]) then
        var n: int := Low(b[0], 8) * 0x4_0000 + Low(b[1], 0x40) * 0x1000 + Low(b[2], 0x40) * 0x40 + Low(b[3], 0x40);
        if n >= 0x1_0000 && IsScalar(n) then Some((n as char, 4)) else None
      else None
    else None
  }

  function Decode(b: Bytes): Option<string>
    decreases |b|
  {
    if b == [] then Some("")
    else
      match DecodeChar(b)
      case None => None
      case Some((c, n)) =>
        match Decode(b[n..])
        case None => None
        case Some(rest) => Some([c] + rest)
  }

  /** Splitting a number into base-64 digits loses nothing. */
  lemma Digits(n: nat)
    ensures n == n / 0x40 * 0x40 + n % 0x40
    ensures n / 0x1000 == n / 0x40 / 0x40 && n / 0x4_0000 == n / 0x40 / 0x40 / 0x40
  {
  }

  lemma DecodeOne(n: nat, rest: Bytes)
    requires n < 0x80
    ensures DecodeChar([n] + rest) == Some((n as char, 1))
  {
    assert ([n] + rest)[0] == n;
  }

  lemma DecodeTwo(n: nat, rest: Bytes)
    requires 0x80 <= n < 0x800
    ensures DecodeChar([0xC0 + n / 0x40, 0x80 + n % 0x40] + rest) == Some((n as char, 2))
  {
    var b := [0xC0 + n / 0x40, 0x80 + n % 0x40] + rest;
    assert b[0] == 0xC0 + n / 0x40 && b[1] == 0x80 + n % 0x40;
    assert Low(b[0], 0x20) == n / 0x40 && Low(b[1], 0x40) == n % 0x40;
  }

  lemma DecodeThree(n: nat, rest: Bytes)
    requires 0x800 <= n < 0x1_0000 && IsScalar(n)
    ensures DecodeChar([0xE0 + n / 0x1000, 0x80 + n / 0x40 % 0x40, 0x80 + n % 0x40] + rest) == Some((n as char, 3))
  {
    var b := [0xE0 + n / 0x1000, 0x80 + n / 0x40 % 0x40, 0x80 + n % 0x40] + rest;
    assert b[0] == 0xE0 + n / 0x1000 && b[1] == 0x80 + n / 0x40 % 0x40 && b[2] == 0x80 + n % 0x40;
    Digits(n);
    Digits(n / 0x40);
    assert Low(b[0], 0x10) == n / 0x1000 && Low(b[1], 0x40) == n / 0x40 % 0x40 && Low(b[2], 0x40) == n % 0x40;
  }

  lemma DecodeFour(n: nat, rest: Bytes)
    requires 0x1_0000 <= n < 0x11_0000
    ensures DecodeChar([0xF0 + n / 0x4_0000, 0x80 + n / 0x1000 % 0x40, 0x80 + n / 0x40 % 0x40, 0x80 + n % 0x40] + rest)
            == Some((n as char, 4))
  {
    var b := [0xF0 + n / 0x4_0000, 0x80 + n / 0x1000 % 0x40, 0x80 + n / 0x40 % 0x40, 0x80 + n % 0x40] + rest;
    assert b[0] == 0xF0 + n / 0x4_0000 && b[1] == 0x80 + n / 0x1000 % 0x40;
    assert b[2] == 0x80 + n / 0x40 % 0x40 && b[3] == 0x80 + n % 0x40;
    Digits(n);
    Digits(n / 0x40);
    Digits(n / 0x1000);
    assert Low(b[0], 8) == n / 0x4_0000 && Low(b[1], 0x40) == n / 0x1000 % 0x40;
    assert Low(b[2], 0x40) == n / 0x40 % 0x40 && Low(b[3], 0x40) == n % 0x40;
  }

  lemma DecodeEncodeChar(c: char, rest: Bytes)
    ensures DecodeChar(EncodeChar(c) + rest) == Some((c, |EncodeChar(c)|))
  {
    var n := c as int;
    if n < 0x80 {
      DecodeOne(n, rest);
    } else if n < 0x800 {
      DecodeTwo(n, rest);
    } else if n < 0x1_0000 {
      DecodeThree(n, rest);
    } else {
      DecodeFour(n, rest);
    }
  }

  /** Every string survives encoding and strict decoding. */
  lemma {:induction false} DecodeEncode(s: string)
    ensures Decode(Encode(s)) == Some(s)
  {
    if s != "" {
      DecodeEncodeChar(s[0], Encode(s[1..]));
      DecodeEncode(s[1..]);
      assert Encode(s)[|EncodeChar(s[0])|..] == Encode(s[1..]);
      assert [s[0]] + s[1..] == s;
    }
  }

  /** Two numbers put together as digits come apart again. */
  lemma Apart(high: int, low: int)
    requires 0 <= low < 0x40
    ensures (high * 0x40 + low) / 0x40 == high && (high * 0x40 + low) % 0x40 == low
  {
  }

  /** The marker bits of a byte and its payload. */
  lemma LowOf(b: Byte)
    ensures IsContinuation(b) ==> b == 0x80 + Low(b, 0x40)
    ensures 0xC0 <= b < 0xE0 ==> b == 0xC0 + Low(b, 0x20)
    ensures 0xE0 <= b < 0xF0 ==> b == 0xE0 + Low(b, 0x10)
    ensures 0xF0 <= b < 0xF8 ==> b == 0xF0 + Low(b, 8)
  {
  }

  lemma StrictTwo(b: Bytes)
    requires |b| >= 2 && 0xC0 <= b[0] < 0xE0 && DecodeChar(b).Some?
    ensures var (c, n) := DecodeChar(b).value; b[..n] == EncodeChar(c)
  {
    LowOf(b[0]);
    LowOf(b[1]);
    Apart(Low(b[0], 0x20), Low(b[1], 0x40));
  }

  lemma StrictThree(b: Bytes)
    requires |b| >= 3 && 0xE0 <= b[0] < 0xF0 && DecodeChar(b).Some?
    ensures var (c, n) := DecodeChar(b).value; b[..n] == EncodeChar(c)
  {
    LowOf(b[0]);
    LowOf(b[1]);
    LowOf(b[2]);
    var high := Low(b[0], 0x10) * 0x40 + Low(b[1], 0x40);
    var n: nat := high * 0x40 + Low(b[2], 0x40);
    Apart(high, Low(b[2], 0x40));
    Apart(Low(b[0], 0x10), Low(b[1], 0x40));
    Digits(n);
    assert n / 0x1000 == Low(b[0], 0x10) && n / 0x40 % 0x40 == Low(b[1], 0x40) && n % 0x40 == Low(b[2], 0x40);
  }

  lemma StrictFour(b: Bytes)
    requires |b| >= 4 && 0xF0 <= b[0] < 0xF8 && DecodeChar(b).Some?
    ensures var (c, n) := DecodeChar(b).value; b[..n] == EncodeChar(c)
  {
    LowOf(b[0]);
    LowOf(b[1]);
    LowOf(b[2]);
    LowOf(b[3]);
    var top := Low(b[0], 8) * 0x40 + Low(b[1], 0x40);
    var high := top * 0x40 + Low(b[2], 0x40);
    var n: nat := high * 0x40 + Low(b[3], 0x40);
    Apart(high, Low(b[3], 0x40));
    Apart(top, Low(b[2], 0x40));
    Apart(Low(b[0], 8), Low(b[1], 0x40));
    Digits(n);
    assert n / 0x4_0000 == Low(b[0], 8) && n / 0x1000 % 0x40 == Low(b[1], 0x40);
    assert n / 0x40 % 0x40 == Low(b[2], 0x40) && n % 0x40 == Low(b[3], 0x40);
  }

  lemma StrictChar(b: Bytes)
    requires DecodeChar(b).Some?
    ensures var (c, n) := DecodeChar(b).value; b[..n] == EncodeChar(c)
  {
    if b[0] < 0x80 {
    } else if b[0] < 0xE0 {
      StrictTwo(b);
    } else if b[0] < 0xF0 {
      StrictThree(b);
    } else {
      StrictFour(b);
    }
  }

  /** Decoding is strict: the bytes of a text are its encoding, and nothing else is. */
  lemma {:induction false} DecodeStrict(b: Bytes, s: string)
    ensures Decode(b) == Some(s) <==> b == Encode(s)
    decreases |b|
  {
    DecodeEncode(s);
    if b != [] && Decode(b) == Some(s) {
      var (c, n) := DecodeChar(b).value;
      StrictChar(b);
      DecodeStrict(b[n..], s[1..]);
      assert s == [c] + s[1..] && b == b[..n] + b[n..];
    }
  }

  lemma EncodeInjective(s: string, t: string)
    requires Encode(s) == Encode(t)
    ensures s == t
  {
    DecodeEncode(s);
    DecodeEncode(t);
  }

  lemma {:induction false} EncodeConcat(s: string, t: string)
    ensures Encode(s + t) == Encode(s) + Encode(t)
  {
    if s == "" {
      assert s + t == t;
    } else {
      assert (s + t)[1..] == s[1..] + t;
      EncodeConcat(s[1..], t);
    }
  }

  /** A text that starts at all starts with a byte that is not a continuation byte. */
  lemma EncodeStartsClean(s: string)
    ensures s != "" ==> Encode(s) != [] && !IsContinuation(Encode(s)[0])
  {
  }

  predicate IsAscii(s: string) {
    forall i | 0 <= i < |s| :: s[i] < 128 as char
  }

  /** The codes of the characters of an ASCII text. */
  function Codes(s: string): (b: Bytes)
    requires IsAscii(s)
    ensures |b| == |s|
  {
    seq(|s|, i requires 0 <= i < |s| => s[i] as int)
  }

  /** ASCII text takes a byte a character. */
  lemma {:induction false} PlainSize(s: string)
    requires IsAscii(s)
    ensures Size(s) == |s|
  {
    if s != "" {
      PlainSize(s[1..]);
    }
  }
}
