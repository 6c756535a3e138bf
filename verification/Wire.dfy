/** The encrypted line: its text form, and the associated data that ties a ciphertext to its place. */
module Wire {
  import opened Basics
  import opened Text
  import opened Numerals
  import Base64
  import Chunker
  import Payloads
  import Utf8

  const WIRE_PREFIX := "+RPE2E01"
  const PROTO: Bytes := [0x52, 0x50, 0x45, 0x32, 0x45, 0x30, 0x31] // RPE2E01
  const MSGID_LEN := 8
  const NONCE_LEN := Payloads.NONCE_LEN
  const MAX_CHUNKS := Chunker.MAX_CHUNKS

  datatype Line = Line(msgid: Bytes, ts: int, part: int, total: int, nonce: Bytes, ct: Bytes)

  // ---------------------------------------------------------------- text form

  function PartText(part: int, total: int): string {
    PrintInt(part) + "/" + PrintInt(total)
  }

  function BodyText(nonce: Bytes, ct: Bytes): string {
    Base64.Encode(nonce) + ":" + Base64.Encode(ct)
  }

  function Spaced(a: string, b: string, c: string, d: string, e: string): string {
    a + " " + (b + " " + (c + " " + (d + " " + e)))
  }

  /** `encode_wire` */
  function EncodeWire(m: Line): string {
    Spaced(WIRE_PREFIX, Hex(m.msgid), PrintInt(m.ts), PartText(m.part, m.total), BodyText(m.nonce, m.ct))
  }

  /** `part/total`, both in range. */
  function ParseParts(s: string): Option<(int, int)> {
    match SplitOnce(s, '/')
    case None => None
    case Some((p, t)) =>
      match (ParseInt(p), ParseInt(t))
      case (Some(part), Some(total)) =>
        if total < 1 || total > MAX_CHUNKS || part < 1 || part > total then None else Some((part, total))
      case _ => None
  }

  /** `nonce:ciphertext`, the nonce of the right length. */
  function ParseBody(s: string): Option<(Bytes, Bytes)> {
    match SplitOnce(s, ':')
    case None => None
    case Some((n, c)) =>
      match (Base64.Decode(n), Base64.Decode(c))
      case (Some(nonce), Some(ct)) => if |nonce| == NONCE_LEN then Some((nonce, ct)) else None
      case _ => None
  }

  /** The four fields behind the prefix. */
  function ParseFields(id: string, time: string, parts: string, body: string): (r: Option<Line>)
    ensures r.Some? ==> 1 <= r.value.part <= r.value.total <= MAX_CHUNKS && |r.value.nonce| == NONCE_LEN
  {
    if |id| != 16 then None
    else
      match (FromHex(id), ParseInt(time), ParseParts(parts), ParseBody(body))
      case (Some(msgid), Some(ts), Some((part, total)), Some((nonce, ct))) =>
        Some(Line(msgid, ts, part, total, nonce, ct))
      case _ => None
  }

  /** `parse_wire` */
  function ParseWire(line: string): (r: Option<Line>)
    ensures r.Some? ==> 1 <= r.value.part <= r.value.total <= MAX_CHUNKS && |r.value.nonce| == NONCE_LEN
  {
    var parts := SplitMax(line, ' ', 4);
    if !(WIRE_PREFIX <= line) || |parts| != 5 || parts[0] != WIRE_PREFIX then None
    else ParseFields(parts[1], parts[2], parts[3], parts[4])
  }

  predicate WellFormed(m: Line) {
    |m.msgid| == MSGID_LEN && 1 <= m.part <= m.total <= MAX_CHUNKS && |m.nonce| == NONCE_LEN
  }

  lemma SplitAtSpace(before: string, after: string, max: nat)
    requires ' ' !in before && max > 0
    ensures SplitMax(before + " " + after, ' ', max) == [before] + SplitMax(after, ' ', max - 1)
  {
    assert " " == [' '];
    SplitMaxStep(before, ' ', after, max);
  }

  lemma SpacedSplits(a: string, b: string, c: string, d: string, e: string)
    requires ' ' !in a && ' ' !in b && ' ' !in c && ' ' !in d
    ensures SplitMax(Spaced(a, b, c, d, e), ' ', 4) == [a, b, c, d, e]
  {
    var from4 := d + " " + e;
    var from3 := c + " " + from4;
    var from2 := b + " " + from3;
    assert Spaced(a, b, c, d, e) == a + " " + from2;
    SplitAtSpace(a, from2, 4);
    SplitAtSpace(b, from3, 3);
    SplitAtSpace(c, from4, 2);
    SplitAtSpace(d, e, 1);
    Five(a, b, c, d, e);
  }

  lemma Five(a: string, b: string, c: string, d: string, e: string)
    ensures [a] + ([b] + ([c] + ([d] + [e]))) == [a, b, c, d, e]
  {
  }

  lemma PrintIntPlain(n: int, c: char)
    requires !IsDigit(c) && c != '-'
    ensures c !in PrintInt(n)
  {
  }

  lemma PartsRoundTrip(part: int, total: int)
    requires 1 <= part <= total <= MAX_CHUNKS
    ensures ParseParts(PartText(part, total)) == Some((part, total))
    ensures ' ' !in PartText(part, total)
  {
    PrintIntPlain(part, '/');
    PrintIntPlain(part, ' ');
    PrintIntPlain(total, ' ');
    SplitOnceAt(PrintInt(part), '/', PrintInt(total));
    ParsePrint(part);
    ParsePrint(total);
  }

  lemma EncodedHasNoColon(b: Bytes)
    ensures ':' !in Base64.Encode(b)
  {
    forall i | 0 <= i < |Base64.Digits(b)|
      ensures Base64.Digits(b)[i] != ':'
    {
      Base64.DigitCharsPlain(Base64.Digits(b)[i]);
    }
  }

  lemma BodyRoundTrip(nonce: Bytes, ct: Bytes)
    requires |nonce| == NONCE_LEN
    ensures ParseBody(BodyText(nonce, ct)) == Some((nonce, ct))
  {
    EncodedHasNoColon(nonce);
    SplitOnceAt(Base64.Encode(nonce), ':', Base64.Encode(ct));
    Base64.DecodeEncode(nonce);
    Base64.DecodeEncode(ct);
  }

  lemma HexPlain(b: Bytes)
    ensures ' ' !in Hex(b)
  {
    assert forall i | 0 <= i < |Hex(b)| :: HexValue(Hex(b)[i]).Some?;
  }

  lemma ParseSpaced(b: string, c: string, d: string, e: string)
    requires ' ' !in b && ' ' !in c && ' ' !in d
    ensures ParseWire(Spaced(WIRE_PREFIX, b, c, d, e)) == ParseFields(b, c, d, e)
  {
    assert ' ' !in WIRE_PREFIX;
    SpacedSplits(WIRE_PREFIX, b, c, d, e);
    SpacedStarts(WIRE_PREFIX, b, c, d, e);
  }

  lemma SpacedStarts(a: string, b: string, c: string, d: string, e: string)
    ensures a <= Spaced(a, b, c, d, e)
  {
    var rest := b + " " + (c + " " + (d + " " + e));
    assert Spaced(a, b, c, d, e) == a + (" " + rest);
  }

  /** Every line is read back as it was printed. */
  lemma WireRoundTrip(m: Line)
    requires WellFormed(m)
    ensures ParseWire(EncodeWire(m)) == Some(m)
  {
    HexPlain(m.msgid);
    PrintIntPlain(m.ts, ' ');
    PartsRoundTrip(m.part, m.total);
    FromHexOfHex(m.msgid);
    ParsePrint(m.ts);
    BodyRoundTrip(m.nonce, m.ct);
    ParseSpaced(Hex(m.msgid), PrintInt(m.ts), PartText(m.part, m.total), BodyText(m.nonce, m.ct));
  }

  lemma SpacedAscii(a: string, b: string, c: string, d: string, e: string)
    requires Utf8.IsAscii(a) && Utf8.IsAscii(b) && Utf8.IsAscii(c) && Utf8.IsAscii(d) && Utf8.IsAscii(e)
    ensures Utf8.IsAscii(Spaced(a, b, c, d, e))
  {
    var last := d + " " + e;
    assert Utf8.IsAscii(last);
    assert Utf8.IsAscii(c + " " + last);
    assert Utf8.IsAscii(b + " " + (c + " " + last));
  }

  lemma EncodedIsAscii(b: Bytes)
    ensures Utf8.IsAscii(Base64.Encode(b))
  {
    forall i | 0 <= i < |Base64.Digits(b)|
      ensures Base64.Digits(b)[i] < 128 as char
    {
      Base64.DigitCharsPlain(Base64.Digits(b)[i]);
    }
  }

  lemma NumbersAreAscii(n: int, part: int, total: int, b: Bytes)
    ensures Utf8.IsAscii(PrintInt(n)) && Utf8.IsAscii(Hex(b)) && Utf8.IsAscii(PartText(part, total))
  {
    assert forall i | 0 <= i < |Hex(b)| :: HexValue(Hex(b)[i]).Some?;
    assert Utf8.IsAscii(PrintInt(part)) && Utf8.IsAscii(PrintInt(total));
  }

  /** Every character of a line takes one byte. */
  lemma WireIsAscii(m: Line)
    ensures Utf8.Size(EncodeWire(m)) == |EncodeWire(m)|
  {
    NumbersAreAscii(m.ts, m.part, m.total, m.msgid);
    EncodedIsAscii(m.nonce);
    EncodedIsAscii(m.ct);
    assert Utf8.IsAscii(BodyText(m.nonce, m.ct));
    SpacedAscii(WIRE_PREFIX, Hex(m.msgid), PrintInt(m.ts), PartText(m.part, m.total), BodyText(m.nonce, m.ct));
    Utf8.PlainSize(EncodeWire(m));
  }

  /** A chunk of at most 180 bytes makes a line of at most 340 bytes while timestamps have ten digits. */
  lemma WireLength(m: Line)
    requires WellFormed(m) && 0 <= m.ts < 10_000_000_000 && |m.ct| <= 196
    ensures Utf8.Size(EncodeWire(m)) <= 340
  {
    WireIsAscii(m);
    CharactersOfWire(m);
  }

  lemma CharactersOfWire(m: Line)
    requires WellFormed(m) && 0 <= m.ts < 10_000_000_000 && |m.ct| <= 196
    ensures |EncodeWire(m)| <= 340
  {
    TenDigits(m.ts);
    TwoDigits(m.part);
    TwoDigits(m.total);
    SpacedLength(WIRE_PREFIX, Hex(m.msgid), PrintInt(m.ts), PartText(m.part, m.total), BodyText(m.nonce, m.ct));
  }

  lemma TenDigits(n: nat)
    requires n < 10_000_000_000
    ensures |Print(n)| <= 10
  {
    assert Pow10(2) == 100;
    assert Pow10(10) == 100 * (100 * (100 * (100 * Pow10(2))));
    PrintLength(n, 10);
  }

  lemma TwoDigits(n: nat)
    requires n < 100
    ensures |Print(n)| <= 2
  {
    assert Pow10(2) == 100;
    PrintLength(n, 2);
  }

  lemma SpacedLength(a: string, b: string, c: string, d: string, e: string)
    ensures |Spaced(a, b, c, d, e)| == |a| + |b| + |c| + |d| + |e| + 4
  {
  }

  // ---------------------------------------------------------------- associated data

  /** The `k` low bytes of `n`, big end first. */
  function BigEndian(n: nat, k: nat): (b: Bytes)
    ensures |b| == k
  {
    if k == 0 then [] else BigEndian(n / 256, k - 1) + [n % 256]
  }

  const TWO_64 := 0x1_0000_0000_0000_0000

  /** `build_aad`; nothing where packing raises an error. */
  function BuildAad(channel: string, msgid: Bytes, ts: int, part: int, total: int): Option<Bytes> {
    var name := Utf8.Encode(channel);
    if |name| >= 0x1_0000 || !(-TWO_64 / 2 <= ts < TWO_64 / 2) || !(0 <= part < 256) || !(0 <= total < 256) then None
    else
      Some(PROTO + BigEndian(|name|, 2) + name + (BigEndian(8, 2) + msgid + BigEndian(8, 2) + BigEndian(ts % TWO_64, 8)
           + BigEndian(1, 2) + [part] + BigEndian(1, 2) + [total]))
  }

  function Pow256(k: nat): (p: nat)
    ensures p > 0
  {
    if k == 0 then 1 else 256 * Pow256(k - 1)
  }

  lemma {:induction false} BigEndianInjective(m: nat, n: nat, k: nat)
    requires m < Pow256(k) && n < Pow256(k) && BigEndian(m, k) == BigEndian(n, k)
    ensures m == n
  {
    if k > 0 {
      var x, y := BigEndian(m / 256, k - 1), BigEndian(n / 256, k - 1);
      assert (x + [m % 256])[..k - 1] == x && (y + [n % 256])[..k - 1] == y;
      assert (x + [m % 256])[k - 1] == m % 256 && (y + [n % 256])[k - 1] == n % 256;
      BigEndianInjective(m / 256, n / 256, k - 1);
    }
  }

  lemma StampInjective(s: int, t: int)
    requires -TWO_64 / 2 <= s < TWO_64 / 2 && -TWO_64 / 2 <= t < TWO_64 / 2
    requires BigEndian(s % TWO_64, 8) == BigEndian(t % TWO_64, 8)
    ensures s == t
  {
    assert Pow256(2) == 0x1_0000;
    assert Pow256(8) == 0x1_0000 * (0x1_0000 * (0x1_0000 * Pow256(2)));
    BigEndianInjective(s % TWO_64, t % TWO_64, 8);
  }

  /** Different lines never share their associated data. */
  lemma AadInjective(channel: string, channel1: string, m: Line, m1: Line)
    requires |m.msgid| == MSGID_LEN && |m1.msgid| == MSGID_LEN
    requires BuildAad(channel, m.msgid, m.ts, m.part, m.total).Some?
    requires BuildAad(channel, m.msgid, m.ts, m.part, m.total)
          == BuildAad(channel1, m1.msgid, m1.ts, m1.part, m1.total)
    ensures channel == channel1 && m == m1.(nonce := m.nonce, ct := m.ct)
  {
    var name, name1 := Utf8.Encode(channel), Utf8.Encode(channel1);
    var tail := BigEndian(8, 2) + m.msgid + BigEndian(8, 2) + BigEndian(m.ts % TWO_64, 8) + BigEndian(1, 2) + [m.part]
                + BigEndian(1, 2) + [m.total];
    var tail1 := BigEndian(8, 2) + m1.msgid + BigEndian(8, 2) + BigEndian(m1.ts % TWO_64, 8) + BigEndian(1, 2)
                 + [m1.part]
                 + BigEndian(1, 2) + [m1.total];
    var head, head1 := PROTO + BigEndian(|name|, 2) + name, PROTO + BigEndian(|name1|, 2) + name1;
    assert |tail| == |tail1| && head + tail == head1 + tail1;
    assert |head + tail| == |head1 + tail1|;
    SplitLeft(head, tail, head1, tail1);
    SplitLeft(PROTO + BigEndian(|name|, 2), name, PROTO + BigEndian(|name1|, 2), name1);
    Utf8.EncodeInjective(channel, channel1);
    TailInjective(m, m1);
  }

  lemma TailInjective(m: Line, m1: Line)
    requires |m.msgid| == MSGID_LEN && |m1.msgid| == MSGID_LEN
    requires -TWO_64 / 2 <= m.ts < TWO_64 / 2 && -TWO_64 / 2 <= m1.ts < TWO_64 / 2
    requires 0 <= m.part < 256 && 0 <= m.total < 256 && 0 <= m1.part < 256 && 0 <= m1.total < 256
    requires BigEndian(8, 2) + m.msgid + BigEndian(8, 2) + BigEndian(m.ts % TWO_64, 8) + BigEndian(1, 2) + [m.part]
             + BigEndian(1, 2) + [m.total]
          == BigEndian(8, 2) + m1.msgid + BigEndian(8, 2) + BigEndian(m1.ts % TWO_64, 8) + BigEndian(1, 2) + [m1.part]
             + BigEndian(1, 2) + [m1.total]
    ensures m == m1.(nonce := m.nonce, ct := m.ct)
  {
    var (e, o) := (BigEndian(8, 2), BigEndian(1, 2));
    var (s, s1) := (BigEndian(m.ts % TWO_64, 8), BigEndian(m1.ts % TWO_64, 8));
    var (a, a1) := (e + m.msgid + e + s, e + m1.msgid + e + s1);
    SplitLeft(a + o + [m.part] + o, [m.total], a1 + o + [m1.part] + o, [m1.total]);
    SplitLeft(a + o + [m.part], o, a1 + o + [m1.part], o);
    SplitLeft(a + o, [m.part], a1 + o, [m1.part]);
    SplitLeft(a, o, a1, o);
    SplitLeft(e + m.msgid + e, s, e + m1.msgid + e, s1);
    SplitLeft(e + m.msgid, e, e + m1.msgid, e);
    SplitLeft(e, m.msgid, e, m1.msgid);
    StampInjective(m.ts, m1.ts);
  }
}
