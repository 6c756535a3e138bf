/** Decimal and hexadecimal as Python prints and reads them. */
module Numerals {
  import opened Basics
  import opened Text

  predicate IsDigit(c: char) {
    '0' <= c <= '9'
  }

  function DigitOf(c: char): (d: nat)
    requires IsDigit(c)
    ensures d < 10
  {
    c as int - '0' as int
  }

  function CharOfDigit(d: nat): (c: char)
    requires d < 10
    ensures IsDigit(c) && DigitOf(c) == d
  {
    '0' + d as char
  }

  /** `str(n)` */
  function Print(n: nat): (s: string)
    ensures s != "" && forall i | 0 <= i < |s| :: IsDigit(s[i])
  {
    if n < 10 then [CharOfDigit(n)] else Print(n / 10) + [CharOfDigit(n % 10)]
  }

  function PrintInt(n: int): string {
    if n < 0 then "-" + Print(-n) else Print(n)
  }

  /** Digits with single underscores between them; `digit` tells whether the last character was one. */
  function Accumulate(s: string, acc: nat, digit: bool): Option<nat> {
    if s == "" then if digit then Some(acc) else None
    else if s[0] == '_' && digit then Accumulate(s[1..], acc, false)
    else if IsDigit(s[0]) then Accumulate(s[1..], acc * 10 + DigitOf(s[0]), true)
    else None
  }

  function TrimStart(s: string): string {
    if s != "" && IsSpace(s[0]) then TrimStart(s[1..]) else s
  }

  function TrimEnd(s: string): string {
    if s != "" && IsSpace(s[|s| - 1]) then TrimEnd(s[..|s| - 1]) else s
  }

  /** `int(s)` on ASCII digits; nothing where Python raises `ValueError`. */
  function ParseInt(s: string): Option<int> {
    var t := TrimEnd(TrimStart(s));
    if t == "" then None
    else if t[0] == '-' then
      var n := Accumulate(t[1..], 0, false);
      if n.None? then None else Some(-(n.value as int))
    else
      var n := Accumulate(if t[0] == '+' then t[1..] else t, 0, false);
      if n.None? then None else Some(n.value)
  }

  lemma {:induction false} AccumulateAppend(s: string, d: nat, acc: nat, digit: bool)
    requires d < 10 && Accumulate(s, acc, digit).Some?
    ensures Accumulate(s + [CharOfDigit(d)], acc, digit) == Some(Accumulate(s, acc, digit).value * 10 + d)
  {
    var t := s + [CharOfDigit(d)];
    if s == "" {
      assert t == [CharOfDigit(d)] && t[1..] == "";
    } else {
      assert t[1..] == s[1..] + [CharOfDigit(d)];
      if s[0] == '_' && digit {
        AccumulateAppend(s[1..], d, acc, false);
      } else {
        AccumulateAppend(s[1..], d, acc * 10 + DigitOf(s[0]), true);
      }
    }
  }

  lemma {:induction false} AccumulatePrint(n: nat)
    ensures Accumulate(Print(n), 0, false) == Some(n)
  {
    if n >= 10 {
      AccumulatePrint(n / 10);
      AccumulateAppend(Print(n / 10), n % 10, 0, false);
    } else {
      AccumulatePrintDigit(n);
    }
  }

  lemma AccumulatePrintDigit(d: nat)
    requires d < 10
    ensures Accumulate([CharOfDigit(d)], 0, false) == Some(d)
  {
    assert [CharOfDigit(d)][1..] == "";
  }

  /** Every integer is read back as printed. */
  lemma ParsePrint(n: int)
    ensures ParseInt(PrintInt(n)) == Some(n)
  {
    var s := PrintInt(n);
    var p := Print(if n < 0 then -n else n);
    assert IsDigit(p[0]) && IsDigit(p[|p| - 1]);
    assert s[0] == '-' || IsDigit(s[0]);
    assert s[|s| - 1] == p[|p| - 1];
    assert TrimEnd(TrimStart(s)) == s;
    AccumulatePrint(if n < 0 then -n else n);
    if n < 0 {
      assert s[1..] == p;
    }
  }

  function Pow10(k: nat): (p: nat)
    ensures p > 0
  {
    if k == 0 then 1 else 10 * Pow10(k - 1)
  }

  lemma {:induction false} PrintLength(n: nat, k: nat)
    requires k > 0 && n < Pow10(k)
    ensures |Print(n)| <= k
  {
    if n >= 10 {
      assert k > 1;
      PrintLength(n / 10, k - 1);
    }
  }

  // ---------------------------------------------------------------- hexadecimal

  function HexChar(n: nat): char
    requires n < 16
  {
    if n < 10 then '0' + n as char else 'a' + (n - 10) as char
  }

  function HexValue(c: char): (v: Option<nat>)
    ensures v.Some? ==> v.value < 16
  {
    if '0' <= c <= '9' then Some(c as int - '0' as int)
    else if 'a' <= c <= 'f' then Some(c as int - 'a' as int + 10)
    else if 'A' <= c <= 'F' then Some(c as int - 'A' as int + 10)
    else None
  }

  /** `b.hex()` */
  function Hex(b: Bytes): (s: string)
    ensures |s| == 2 * |b|
    ensures forall i | 0 <= i < |s| :: HexValue(s[i]).Some?
  {
    if b == [] then "" else [HexChar(b[0] / 16), HexChar(b[0] % 16)] + Hex(b[1..])
  }

  /** `bytes.fromhex(s)`: ASCII white space may stand between bytes. */
  function FromHex(s: string): Option<Bytes> {
    if s == "" then Some([])
    else if s[0] == ' ' || '\t' <= s[0] <= '\r' then FromHex(s[1..])
    else if |s| >= 2 && HexValue(s[0]).Some? && HexValue(s[1]).Some? then
      var rest := FromHex(s[2..]);
      if rest.None? then None else Some([HexValue(s[0]).value * 16 + HexValue(s[1]).value] + rest.value)
    else None
  }

  lemma {:induction false} FromHexOfHex(b: Bytes)
    ensures FromHex(Hex(b)) == Some(b)
  {
    if b != [] {
      FromHexOfHex(b[1..]);
      var s := Hex(b);
      assert HexValue(s[0]) == Some(b[0] / 16) && HexValue(s[1]) == Some(b[0] % 16);
      assert s[2..] == Hex(b[1..]);
      assert [b[0]] + b[1..] == b;
    }
  }
}
