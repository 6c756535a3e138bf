/** Base64 as CPython's `base64` module has it: the padded standard alphabet of section 4 of RFC 4648, the
    unpadded URL alphabet of its section 5, and the lenient scanner behind both decoders. */
module Base64 {
  import opened Basics

  type Sextet = x: int | 0 <= x < 64

  function CharOf(n: Sextet): char {
    if n < 26 then 'A' + n as char
    else if n < 52 then 'a' + (n - 26) as char
    else if n < 62 then '0' + (n - 52) as char
    else if n == 62 then '+' else '/'
  }

  function SextetOf(c: char): Option<Sextet> {
    if 'A' <= c <= 'Z' then Some(c as int - 'A' as int)
    else if 'a' <= c <= 'z' then Some(c as int - 'a' as int + 26)
    else if '0' <= c <= '9' then Some(c as int - '0' as int + 52)
    else if c == '+' then Some(62)
    else if c == '/' then Some(63)
    else None
  }

  function Group(x: Byte, y: Byte, z: Byte): string {
    [CharOf(x / 4), CharOf(x % 4 * 16 + y / 16), CharOf(y % 16 * 4 + z / 64), CharOf(z % 64)]
  }

  /** The digits of the encoding, three bytes to four characters, without padding. */
  function Digits(b: Bytes): (s: string)
    ensures |s| == |b| / 3 * 4 + (if |b| % 3 == 0 then 0 else |b| % 3 + 1)
    ensures forall i | 0 <= i < |s| :: SextetOf(s[i]).Some?
  {
    if b == [] then ""
    else if |b| == 1 then [CharOf(b[0] / 4), CharOf(b[0] % 4 * 16)]
    else if |b| == 2 then [CharOf(b[0] / 4), CharOf(b[0] % 4 * 16 + b[1] / 16), CharOf(b[1] % 16 * 4)]
    else
      Group(b[0], b[1], b[2]) + Digits(b[3..])
  }

  /** `"=" * (-n % 4)` */
  function Padding(n: nat): (s: string)
    ensures forall i | 0 <= i < |s| :: s[i] == '='
    ensures (n + |s|) % 4 == 0 && |s| < 4
  {
    seq((4 - n % 4) % 4, i => '=')
  }

  /** `base64.b64encode` */
  function Encode(b: Bytes): (s: string)
    ensures |s| == (|b| + 2) / 3 * 4
  {
    Digits(b) + Padding(|Digits(b)|)
  }

  /** CPython's scanner: characters outside the alphabet are skipped, and padding that completes a
      group of four ends the input. `left` holds the bits carried over at position `quad` of a group. */
  function Scan(s: string, quad: nat, left: nat, pads: nat): Option<Bytes>
    requires quad < 4 && left < (match quad case 0 => 1 case 1 => 64 case 2 => 16 case _ => 4)
  {
    if s == "" then if quad == 0 then Some([]) else None
    else if s[0] == '=' then
      if quad >= 2 && quad + pads + 1 >= 4 then Some([])
      else Scan(s[1..], quad, left, if quad >= 2 then pads + 1 else pads)
    else
      match SextetOf(s[0])
      case None => Scan(s[1..], quad, left, pads)
      case Some(d) =>
        match quad
        case 0 => Scan(s[1..], 1, d, 0)
        case 1 => Prepend(left * 4 + d / 16, Scan(s[1..], 2, d % 16, 0))
        case 2 => Prepend(left * 16 + d / 4, Scan(s[1..], 3, d % 4, 0))
        case _ => Prepend(left * 64 + d, Scan(s[1..], 0, 0, 0))
  }

  function Prepend(b: Byte, rest: Option<Bytes>): Option<Bytes> {
    if rest.None? then None else Some([b] + rest.value)
  }

  predicate IsAscii(s: string) {
    forall i | 0 <= i < |s| :: s[i] < 128 as char
  }

  /** `base64.b64decode` */
  function Decode(s: string): Option<Bytes> {
    if IsAscii(s) then Scan(s, 0, 0, 0) else None
  }

  function ToUrl(s: string): string {
    seq(|s|, i requires 0 <= i < |s| => if s[i] == '+' then '-' else if s[i] == '/' then '_' else s[i])
  }

  function FromUrl(s: string): string {
    seq(|s|, i requires 0 <= i < |s| => if s[i] == '-' then '+' else if s[i] == '_' then '/' else s[i])
  }

  /** `s.rstrip("=")` */
  function StripPadding(s: string): string {
    if s != "" && s[|s| - 1] == '=' then StripPadding(s[..|s| - 1]) else s
  }

  /** `_b64u_encode` */
  function UrlEncode(b: Bytes): string {
    StripPadding(ToUrl(Encode(b)))
  }

  /** `_b64u_decode` */
  function UrlDecode(s: string): Option<Bytes> {
    Decode(FromUrl(s + Padding(|s|)))
  }

  // ---------------------------------------------------------------- round trips

  lemma SextetRoundTrip(n: Sextet)
    ensures SextetOf(CharOf(n)) == Some(n) && CharOf(n) != '=' && CharOf(n) != '-' && CharOf(n) != '_'
    ensures CharOf(n) < 128 as char
  {
  }

  /** One step of the scanner over a digit. */
  lemma ScanDigit(n: Sextet, rest: string, quad: nat, left: nat, pads: nat)
    requires quad < 4 && left < (match quad case 0 => 1 case 1 => 64 case 2 => 16 case _ => 4)
    ensures Scan([CharOf(n)] + rest, quad, left, pads) ==
            (match quad
             case 0 => Scan(rest, 1, n, 0)
             case 1 => Prepend(left * 4 + n / 16, Scan(rest, 2, n % 16, 0))
             case 2 => Prepend(left * 16 + n / 4, Scan(rest, 3, n % 4, 0))
             case _ => Prepend(left * 64 + n, Scan(rest, 0, 0, 0)))
  {
    SextetRoundTrip(n);
    assert ([CharOf(n)] + rest)[1..] == rest;
  }

  /** Three bytes cut into four digits and put together again. */
  lemma Regroup(x: Byte, y: Byte, z: Byte)
    ensures var d1, d2 := x % 4 * 16 + y / 16, y % 16 * 4 + z / 64;
            && x / 4 * 4 + d1 / 16 == x && d1 % 16 == y / 16
            && y / 16 * 16 + d2 / 4 == y && d2 % 4 == z / 64
            && z / 64 * 64 + z % 64 == z
  {
  }

  lemma ScanTriple(x: Byte, y: Byte, z: Byte, rest: string)
    ensures Scan(Group(x, y, z) + rest, 0, 0, 0) == Prepend(x, Prepend(y, Prepend(z, Scan(rest, 0, 0, 0))))
  {
    var r3 := [CharOf(z % 64)] + rest;
    var r2 := [CharOf(y % 16 * 4 + z / 64)] + r3;
    var r1 := [CharOf(x % 4 * 16 + y / 16)] + r2;
    assert Group(x, y, z) + rest == [CharOf(x / 4)] + r1;
    Regroup(x, y, z);
    ScanDigit(x / 4, r1, 0, 0, 0);
    ScanDigit(x % 4 * 16 + y / 16, r2, 1, x / 4, 0);
    ScanLowHalf(y, z, rest);
  }

  lemma ScanLowHalf(y: Byte, z: Byte, rest: string)
    ensures Scan([CharOf(y % 16 * 4 + z / 64)] + ([CharOf(z % 64)] + rest), 2, y / 16, 0)
            == Prepend(y, Prepend(z, Scan(rest, 0, 0, 0)))
  {
    Regroup(0, y, z);
    ScanDigit(y % 16 * 4 + z / 64, [CharOf(z % 64)] + rest, 2, y / 16, 0);
    ScanDigit(z % 64, rest, 3, z / 64, 0);
  }

  lemma ScanPadding(left: nat)
    ensures left < 16 ==> Scan("==", 2, left, 0) == Some([])
    ensures left < 4 ==> Scan("=", 3, left, 0) == Some([])
  {
    assert "=="[1..] == "=";
  }

  lemma ScanLastByte(x: Byte)
    ensures Scan([CharOf(x / 4)] + ([CharOf(x % 4 * 16)] + "=="), 0, 0, 0) == Some([x])
  {
    assert x / 4 * 4 + x % 4 * 16 / 16 == x && x % 4 * 16 % 16 == 0 && [x] + [] == [x];
    ScanDigit(x / 4, [CharOf(x % 4 * 16)] + "==", 0, 0, 0);
    ScanDigit(x % 4 * 16, "==", 1, x / 4, 0);
    ScanPadding(0);
  }

  lemma ScanLastBytes(x: Byte, y: Byte)
    ensures Scan([CharOf(x / 4)] + ([CharOf(x % 4 * 16 + y / 16)] + ([CharOf(y % 16 * 4)] + "=")), 0, 0, 0)
            == Some([x, y])
  {
    Regroup(x, y, 0);
    assert y / 16 * 16 + y % 16 * 4 / 4 == y && y % 16 * 4 % 4 == 0 && [x] + ([y] + []) == [x, y];
    var r2 := [CharOf(y % 16 * 4)] + "=";
    ScanDigit(x / 4, [CharOf(x % 4 * 16 + y / 16)] + r2, 0, 0, 0);
    ScanDigit(x % 4 * 16 + y / 16, r2, 1, x / 4, 0);
    ScanDigit(y % 16 * 4, "=", 2, y / 16, 0);
    ScanPadding(0);
  }

  lemma EncodeSplits(b: Bytes)
    requires |b| >= 3
    ensures Encode(b) == Group(b[0], b[1], b[2]) + Encode(b[3..])
  {
    var g, d := Group(b[0], b[1], b[2]), Digits(b[3..]);
    assert Digits(b) == g + d;
    PaddingShift(|d|);
    Associate(g, d, Padding(|d|));
  }

  lemma PaddingShift(n: nat)
    ensures Padding(4 + n) == Padding(n)
  {
  }

  lemma EncodeShort(b: Bytes)
    requires 1 <= |b| <= 2
    ensures |b| == 1 ==> Encode(b) == [CharOf(b[0] / 4)] + ([CharOf(b[0] % 4 * 16)] + "==")
    ensures |b| == 2 ==> Encode(b) == [CharOf(b[0] / 4)] + ([CharOf(b[0] % 4 * 16 + b[1] / 16)]
                                      + ([CharOf(b[1] % 16 * 4)] + "="))
  {
    assert Padding(2) == "==" && Padding(3) == "=";
  }

  lemma {:induction false} ScanEncoded(b: Bytes)
    ensures Scan(Encode(b), 0, 0, 0) == Some(b)
  {
    if b == [] {
      assert Encode(b) == "";
    } else if |b| == 1 {
      EncodeShort(b);
      ScanLastByte(b[0]);
      assert b == [b[0]];
    } else if |b| == 2 {
      EncodeShort(b);
      ScanLastBytes(b[0], b[1]);
      assert b == [b[0], b[1]];
    } else {
      EncodeSplits(b);
      ScanEncoded(b[3..]);
      ScanTriple(b[0], b[1], b[2], Encode(b[3..]));
      assert [b[0]] + ([b[1]] + ([b[2]] + b[3..])) == b;
    }
  }

  lemma DigitCharsPlain(c: char)
    requires SextetOf(c).Some?
    ensures c != '=' && c != '-' && c != '_' && c < 128 as char && c != ' ' && c != ':'
  {
  }

  /** Padded base64 survives the round trip. */
  lemma DecodeEncode(b: Bytes)
    ensures Decode(Encode(b)) == Some(b)
  {
    ScanEncoded(b);
    forall i | 0 <= i < |Encode(b)|
      ensures Encode(b)[i] < 128 as char
    {
      if i < |Digits(b)| {
        DigitCharsPlain(Digits(b)[i]);
      }
    }
  }

  lemma {:induction false} StripAll(s: string, pad: string)
    requires (s != "" ==> s[|s| - 1] != '=') && forall i | 0 <= i < |pad| :: pad[i] == '='
    ensures StripPadding(s + pad) == s
  {
    var t := s + pad;
    if pad == "" {
      assert t == s;
    } else {
      assert t[..|t| - 1] == s + pad[..|pad| - 1];
      StripAll(s, pad[..|pad| - 1]);
    }
  }

  /** The URL form is the digits in the other alphabet, the padding gone. */
  lemma UrlEncodeIsDigits(b: Bytes)
    ensures UrlEncode(b) == ToUrl(Digits(b))
  {
    var d := Digits(b);
    var pad := Padding(|d|);
    assert ToUrl(d + pad) == ToUrl(d) + pad;
    if d != "" {
      DigitCharsPlain(d[|d| - 1]);
    }
    StripAll(ToUrl(d), pad);
  }

  /** Unpadded URL-safe base64 survives the round trip through the restored padding. */
  lemma UrlRoundTrip(b: Bytes)
    ensures UrlDecode(UrlEncode(b)) == Some(b)
  {
    UrlEncodeIsDigits(b);
    var d := Digits(b);
    var s := ToUrl(d);
    forall i | 0 <= i < |d|
      ensures FromUrl(s)[i] == d[i]
    {
      DigitCharsPlain(d[i]);
    }
    assert FromUrl(s + Padding(|s|)) == d + Padding(|d|);
    DecodeEncode(b);
  }
}
