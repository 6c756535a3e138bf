/** The formats of the protocol to the letter: what is signed, what ties a ciphertext to its place, and which texts
    are taken for a message. */
module Formats {
  import opened Basics
  import opened Payloads
  import opened Text
  import opened CryptoSuite
  import Base64
  import Chunker
  import Delivery
  import Handshake
  import Numerals
  import Utf8
  import Wire

  // ---------------------------------------------------------------- bytes

  lemma Tags()
    ensures KEYREQ_TAG == Utf8.Codes("KEYREQ:") && KEYRSP_TAG == Utf8.Codes("KEYRSP:")
    ensures REKEY_TAG == Utf8.Codes("REKEY:") && COLON == Utf8.Codes(":")
  {
  }

  /** The bytes a KEYREQ is signed over, and those of a KEYRSP or REKEY. */
  lemma SignedBytes(m: KeyReq, w: KeyWrap)
    ensures var colon := [0x3A];
            ReqPayload(m)
            == Utf8.Codes("KEYREQ:") + Utf8.Encode(m.channel) + colon + m.pub + colon + m.eph + colon + m.nonce
    ensures var colon := [0x3A];
            var rest := Utf8.Encode(w.channel) + colon + w.pub + colon + w.eph + colon + w.wrapNonce + colon + w.wrapCt
                        + colon + w.nonce;
            && WrapPayload(KEYRSP_TAG, w) == Utf8.Codes("KEYRSP:") + rest
            && WrapPayload(REKEY_TAG, w) == Utf8.Codes("REKEY:") + rest
  {
    Tags();
    Front(KEYRSP_TAG, w);
    Front(REKEY_TAG, w);
  }

  lemma Front(tag: Bytes, w: KeyWrap)
    ensures var colon := [0x3A];
            WrapPayload(tag, w)
            == tag + (Utf8.Encode(w.channel) + colon + w.pub + colon + w.eph + colon + w.wrapNonce + colon + w.wrapCt
                      + colon + w.nonce)
  {
  }

  /** The number these bytes stand for, big end first. */
  function Value(b: Bytes): nat {
    if b == [] then 0 else Value(b[..|b| - 1]) * 256 + b[|b| - 1]
  }

  lemma {:induction false} ValueOfBigEndian(n: nat, k: nat)
    requires n < Wire.Pow256(k)
    ensures Value(Wire.BigEndian(n, k)) == n
  {
    if k > 0 {
      var b := Wire.BigEndian(n, k);
      ValueOfBigEndian(n / 256, k - 1);
      assert b[..k - 1] == Wire.BigEndian(n / 256, k - 1) && b[k - 1] == n % 256;
    }
  }

  lemma TwoBytes(n: nat)
    requires n < 0x1_0000
    ensures Wire.BigEndian(n, 2) == [n / 256, n % 256]
  {
    assert Wire.BigEndian(n / 256, 1) == Wire.BigEndian(n / 256 / 256, 0) + [n / 256];
  }

  lemma Stamp(ts: int)
    requires -0x8000_0000_0000_0000 <= ts < 0x8000_0000_0000_0000
    ensures Value(Wire.BigEndian(ts % Wire.TWO_64, 8)) == if ts < 0 then ts + 0x1_0000_0000_0000_0000 else ts
  {
    assert Wire.Pow256(2) == 0x1_0000;
    assert Wire.Pow256(8) == 0x1_0000 * (0x1_0000 * (0x1_0000 * Wire.Pow256(2)));
    ValueOfBigEndian(ts % Wire.TWO_64, 8);
  }

  /** The bytes that are authenticated with a chunk: its protocol, channel, message, time in two's complement, part and
      total, each behind its length but for the first. */
  predicate TiesTo(aad: Bytes, channel: string, msgid: Bytes, ts: int, part: int, total: int, stamp: Bytes) {
    var name := Utf8.Encode(channel);
    && |name| < 65536 && 0 <= part < 256 && 0 <= total < 256
    && |stamp| == 8 && Value(stamp) == (if ts < 0 then ts + 0x1_0000_0000_0000_0000 else ts)
    && aad == Utf8.Codes("RPE2E01") + [|name| / 256, |name| % 256] + name
              + ([0, 8] + msgid + [0, 8] + stamp + [0, 1] + [part] + [0, 1] + [total])
  }

  lemma AadBytes(channel: string, msgid: Bytes, ts: int, part: int, total: int)
    requires Wire.BuildAad(channel, msgid, ts, part, total).Some?
    ensures TiesTo(Wire.BuildAad(channel, msgid, ts, part, total).value, channel, msgid, ts, part, total,
                   Wire.BigEndian(ts % Wire.TWO_64, 8))
  {
    Pieces(|Utf8.Encode(channel)|);
    Stamp(ts);
  }

  lemma Pieces(n: nat)
    requires n < 0x1_0000
    ensures Wire.BigEndian(n, 2) == [n / 256, n % 256]
    ensures Wire.BigEndian(8, 2) == [0, 8] && Wire.BigEndian(1, 2) == [0, 1] && Wire.PROTO == Utf8.Codes("RPE2E01")
  {
    TwoBytes(n);
    TwoBytes(8);
    TwoBytes(1);
  }

  // ---------------------------------------------------------------- handshake bodies

  /** The words behind the first two give every field once, in whatever order, and these among them; words that are
      no fields do not matter. */
  ghost predicate Gives(words: seq<string>, kind: string, least: nat) {
    && |words| >= least >= 2 && words[0] == "RPEE2E" && words[1] == kind
    && (forall i, j | 2 <= i < j < |words| :: !Handshake.SameKey(words[i], words[j]))
    && Field(words, "v", "1")
  }

  ghost predicate Field(words: seq<string>, k: string, v: string) {
    exists i :: 2 <= i < |words| && Handshake.Says(words[i], k, v)
  }

  /** A field that holds these bytes in URL base64. */
  ghost predicate Carries(words: seq<string>, k: string, b: Bytes) {
    exists v :: Field(words, k, v) && Base64.UrlDecode(v) == Some(b)
  }

  ghost predicate IsKeyreq(words: seq<string>, m: KeyReq) {
    && Gives(words, "KEYREQ", 7) && Field(words, "c", m.channel)
    && Carries(words, "p", m.pub) && Carries(words, "e", m.eph) && Carries(words, "n", m.nonce)
    && Carries(words, "s", m.sig) && |m.pub| == |m.eph| == 32 && |m.nonce| == 16 && |m.sig| == 64
  }

  ghost predicate IsWrap(words: seq<string>, kind: string, m: KeyWrap) {
    && Gives(words, kind, 9) && Field(words, "c", m.channel)
    && Carries(words, "p", m.pub) && Carries(words, "e", m.eph) && Carries(words, "wn", m.wrapNonce)
    && Carries(words, "w", m.wrapCt) && Carries(words, "n", m.nonce) && Carries(words, "s", m.sig)
    && |m.pub| == |m.eph| == 32 && |m.wrapNonce| == 24 && |m.nonce| == 16 && |m.sig| == 64
  }

  lemma FieldsOfBody(words: seq<string>)
    requires |words| >= 2
    ensures Handshake.Collect(words[2..]).None?
            <==> exists i, j :: 2 <= i < j < |words| && Handshake.SameKey(words[i], words[j])
    ensures Handshake.Collect(words[2..]).Some? ==>
              forall k, v :: k in Handshake.Collect(words[2..]).value && Handshake.Collect(words[2..]).value[k] == v
                             <==> Field(words, k, v)
  {
    var fields := words[2..];
    Handshake.CollectMeans(fields);
    if i, j :| 2 <= i < j < |words| && Handshake.SameKey(words[i], words[j]) {
      assert Handshake.SameKey(fields[i - 2], fields[j - 2]);
    }
    if Handshake.KeyRepeats(fields) {
      var i, j :| 0 <= i < j < |fields| && Handshake.SameKey(fields[i], fields[j]);
      assert Handshake.SameKey(words[i + 2], words[j + 2]);
    }
    forall k, v
      ensures Handshake.Holds(fields, k, v) <==> Field(words, k, v)
    {
      HoldsIsField(words, k, v);
    }
  }

  lemma HoldsIsField(words: seq<string>, k: string, v: string)
    requires |words| >= 2
    ensures Handshake.Holds(words[2..], k, v) <==> Field(words, k, v)
  {
    var fields := words[2..];
    if i :| 2 <= i < |words| && Handshake.Says(words[i], k, v) {
      assert Handshake.Says(fields[i - 2], k, v);
    }
    if i :| 0 <= i < |fields| && Handshake.Says(fields[i], k, v) {
      assert Handshake.Says(words[i + 2], k, v);
    }
  }

  /** A field of the map is a field of the words. */
  ghost predicate Mirrors(kv: Handshake.Kv, words: seq<string>) {
    forall k, v :: k in kv && kv[k] == v <==> Field(words, k, v)
  }

  lemma BytesAreCarried(kv: Handshake.Kv, words: seq<string>, k: string, b: Bytes)
    requires Mirrors(kv, words)
    ensures Handshake.FieldBytes(kv, k) == Some(b) <==> Carries(words, k, b)
  {
    if k in kv {
      assert Field(words, k, kv[k]);
    }
    if v :| Field(words, k, v) && Base64.UrlDecode(v) == Some(b) {
      assert k in kv && kv[k] == v;
    }
  }

  lemma BodyIs(body: string, kind: string, least: nat)
    requires least >= 2
    ensures var (kv, words) := (Handshake.BodyFields(body, kind, least), Fields(body));
            && (kv.Some? ==> Mirrors(kv.value, words) && words[0] == "RPEE2E")
            && (kv.Some? && Handshake.FirstVersion(kv.value) <==> Gives(words, kind, least))
  {
    var words := Fields(body);
    if |words| >= least {
      FieldsOfBody(words);
      var kv := Handshake.BodyFields(body, kind, least);
      if kv.Some? {
        assert Mirrors(kv.value, words);
        assert "v" in kv.value && kv.value["v"] == "1" <==> Field(words, "v", "1");
      }
    }
  }

  /** Which bodies are taken for a KEYREQ, and for which. */
  lemma KeyreqBody(body: string, m: KeyReq)
    ensures Handshake.ParseKeyreq(body) == Some(m) <==> IsKeyreq(Fields(body), m)
  {
    var (kv, words) := (Handshake.BodyFields(body, "KEYREQ", 7), Fields(body));
    BodyIs(body, "KEYREQ", 7);
    if kv.Some? {
      assert "c" in kv.value && kv.value["c"] == m.channel <==> Field(words, "c", m.channel);
      BytesAreCarried(kv.value, words, "p", m.pub);
      BytesAreCarried(kv.value, words, "e", m.eph);
      BytesAreCarried(kv.value, words, "n", m.nonce);
      BytesAreCarried(kv.value, words, "s", m.sig);
    }
  }

  /** And which for a KEYRSP or REKEY. */
  lemma WrapBody(kind: string, body: string, m: KeyWrap)
    ensures Handshake.ParseWrap(kind, body) == Some(m) <==> IsWrap(Fields(body), kind, m)
  {
    var (kv, words) := (Handshake.BodyFields(body, kind, 9), Fields(body));
    BodyIs(body, kind, 9);
    if kv.Some? {
      assert "c" in kv.value && kv.value["c"] == m.channel <==> Field(words, "c", m.channel);
      BytesAreCarried(kv.value, words, "p", m.pub);
      BytesAreCarried(kv.value, words, "e", m.eph);
      BytesAreCarried(kv.value, words, "wn", m.wrapNonce);
      BytesAreCarried(kv.value, words, "w", m.wrapCt);
      BytesAreCarried(kv.value, words, "n", m.nonce);
      BytesAreCarried(kv.value, words, "s", m.sig);
    }
  }

  // ---------------------------------------------------------------- notices and words

  /** The text of a notice of this kind: the body between two marks, opening with the protocol's word and the kind. */
  predicate IsNotice(text: string, kind: string, body: string) {
    text == "\U{01}" + body + "\U{01}" && "RPEE2E " + kind + " " <= body
  }

  lemma NoticeOpens(kind: string)
    ensures Handshake.Opening(kind) == "RPEE2E " + kind + " "
  {
    assert Handshake.CTCP_TAG + " " == "RPEE2E ";
  }

  lemma Unframed(text: string, body: string)
    ensures text == "\U{01}" + body + "\U{01}"
            <==> |text| >= 2 && text[..1] == Handshake.CTCP_MARK && text[|text| - 1..] == Handshake.CTCP_MARK
                 && text[1..|text| - 1] == body
  {
    if |text| >= 2 && text[..1] == Handshake.CTCP_MARK && text[|text| - 1..] == Handshake.CTCP_MARK {
      assert text == text[..1] + text[1..|text| - 1] + text[|text| - 1..];
    }
  }

  /** A notice goes to the handler of its kind, and a text that is none goes to no handler. */
  lemma NoticesAreSorted(text: string)
    ensures forall body | IsNotice(text, "KEYREQ", body) ::
              Handshake.ReadNotice(text) == Handshake.ReqNotice(Handshake.ParseKeyreq(body))
    ensures forall body | IsNotice(text, "KEYRSP", body) ::
              Handshake.ReadNotice(text) == Handshake.RspNotice(Handshake.ParseWrap("KEYRSP", body))
    ensures forall body | IsNotice(text, "REKEY", body) ::
              Handshake.ReadNotice(text) == Handshake.RekeyNotice(Handshake.ParseWrap("REKEY", body))
    ensures (forall body :: !IsNotice(text, "KEYREQ", body) && !IsNotice(text, "KEYRSP", body)
                            && !IsNotice(text, "REKEY", body)) ==> Handshake.ReadNotice(text) == Handshake.Foreign
  {
    NoticeOpens("KEYREQ");
    NoticeOpens("KEYRSP");
    NoticeOpens("REKEY");
    forall body
      ensures text == "\U{01}" + body + "\U{01}"
              <==> |text| >= 2 && text[..1] == Handshake.CTCP_MARK && text[|text| - 1..] == Handshake.CTCP_MARK
                   && text[1..|text| - 1] == body
    {
      Unframed(text, body);
    }
    if |text| >= 2 {
      var inner := text[1..|text| - 1];
      Handshake.OpeningsDiffer(inner);
      assert IsNotice(text, "KEYREQ", inner) || !IsNotice(text, "KEYREQ", inner);
      assert IsNotice(text, "KEYRSP", inner) || !IsNotice(text, "KEYRSP", inner);
      assert IsNotice(text, "REKEY", inner) || !IsNotice(text, "REKEY", inner);
    }
  }

  predicate AllSpace(s: string) {
    forall i | 0 <= i < |s| :: IsSpace(s[i])
  }

  /** The words with white space in front of each, and behind the last. */
  function Spread(gaps: seq<string>, words: seq<string>, end: string): string
    requires |gaps| == |words|
  {
    if words == [] then end else gaps[0] + words[0] + Spread(gaps[1..], words[1..], end)
  }

  lemma {:induction false} SpaceComesOff(gap: string, rest: string)
    requires AllSpace(gap)
    ensures Fields(gap + rest) == Fields(rest)
  {
    if gap == "" {
      assert gap + rest == rest;
    } else {
      assert (gap + rest)[1..] == gap[1..] + rest;
      SpaceComesOff(gap[1..], rest);
    }
  }

  lemma WordComesOff(word: string, rest: string)
    requires IsWord(word) && (rest != "" ==> IsSpace(rest[0]))
    ensures Fields(word + rest) == [word] + Fields(rest)
  {
    WordThenSpace(word, rest);
    assert (word + rest)[0] == word[0];
    assert (word + rest)[..|word|] == word && (word + rest)[|word|..] == rest;
  }

  /** The words of a body are what white space of any kind and length separates. */
  lemma {:induction false} WordsOfSpread(gaps: seq<string>, words: seq<string>, end: string)
    requires |gaps| == |words| && AllSpace(end)
    requires forall i | 0 <= i < |words| :: IsWord(words[i]) && AllSpace(gaps[i]) && (i > 0 ==> gaps[i] != "")
    ensures Fields(Spread(gaps, words, end)) == words
  {
    if words == [] {
      SpaceComesOff(end, "");
      assert end + "" == end;
    } else {
      var rest := Spread(gaps[1..], words[1..], end);
      WordsOfSpread(gaps[1..], words[1..], end);
      assert rest != "" ==> IsSpace(rest[0]) by {
        if |words| > 1 {
          assert gaps[1..][0] == gaps[1] != "";
        }
      }
      SpaceComesOff(gaps[0], words[0] + rest);
      assert gaps[0] + words[0] + rest == gaps[0] + (words[0] + rest);
      WordComesOff(words[0], rest);
    }
  }

  // ---------------------------------------------------------------- encrypted lines

  /** The line, field by field: sixteen characters of hexadecimal, a time, a part of at most sixteen, and nonce and
      ciphertext in base64. */
  ghost predicate IsLine(line: string, m: Wire.Line, id: string, time: string, p: string, t: string, n: string,
                         x: string)
  {
    && line == "+RPE2E01 " + (id + " " + (time + " " + (p + "/" + t + " " + (n + ":" + x))))
    && |id| == 16 && ' ' !in id && ' ' !in time && ' ' !in p + "/" + t && '/' !in p && ':' !in n
    && Numerals.FromHex(id) == Some(m.msgid) && Numerals.ParseInt(time) == Some(m.ts)
    && Numerals.ParseInt(p) == Some(m.part) && Numerals.ParseInt(t) == Some(m.total) && 1 <= m.part <= m.total <= 16
    && Base64.Decode(n) == Some(m.nonce) && |m.nonce| == 24 && Base64.Decode(x) == Some(m.ct)
  }

  lemma LineIsSpaced(id: string, time: string, parts: string, body: string)
    ensures Wire.Spaced(Wire.WIRE_PREFIX, id, time, parts, body)
         == "+RPE2E01 " + (id + " " + (time + " " + (parts + " " + body)))
  {
    var rest := id + " " + (time + " " + (parts + " " + body));
    assert Wire.WIRE_PREFIX + " " == "+RPE2E01 ";
    assert Wire.WIRE_PREFIX + " " + rest == (Wire.WIRE_PREFIX + " ") + rest;
  }

  lemma LineIsParsed(line: string, m: Wire.Line, id: string, time: string, p: string, t: string, n: string, x: string)
    requires IsLine(line, m, id, time, p, t, n, x)
    ensures Wire.ParseWire(line) == Some(m)
  {
    LineIsSpaced(id, time, p + "/" + t, n + ":" + x);
    Wire.ParseSpaced(id, time, p + "/" + t, n + ":" + x);
    SplitOnceAt(p, '/', t);
    SplitOnceAt(n, ':', x);
    assert p + "/" + t == p + ['/'] + t && n + ":" + x == n + [':'] + x;
  }

  lemma CutOnce(s: string, c: char)
    requires SplitOnce(s, c).Some?
    ensures var (before, after) := SplitOnce(s, c).value; s == before + [c] + after && c !in before
  {
  }

  lemma {:induction false} CutMax(s: string, max: nat) returns (before: string, after: string)
    requires max > 0 && |SplitMax(s, ' ', max)| > 1
    ensures s == before + " " + after && ' ' !in before
    ensures SplitMax(s, ' ', max) == [before] + SplitMax(after, ' ', max - 1)
  {
    CutOnce(s, ' ');
    before, after := SplitOnce(s, ' ').value.0, SplitOnce(s, ' ').value.1;
    assert [' '] == " ";
  }

  lemma FourCuts(line: string)
    requires |SplitMax(line, ' ', 4)| == 5
    ensures var f := SplitMax(line, ' ', 4);
            && line == Wire.Spaced(f[0], f[1], f[2], f[3], f[4])
            && ' ' !in f[1] && ' ' !in f[2] && ' ' !in f[3]
  {
    var a, r1 := CutMax(line, 4);
    var b, r2 := CutMax(r1, 3);
    var c, r3 := CutMax(r2, 2);
    var d, e := CutMax(r3, 1);
    assert SplitMax(e, ' ', 0) == [e];
    Wire.Five(a, b, c, d, e);
  }

  /** Which lines are taken for encrypted ones, and for which: exactly those of this form. Python's numbers and
      base64 leave room, so one message can be written in several ways. */
  lemma WireLines(line: string, m: Wire.Line)
    ensures Wire.ParseWire(line) == Some(m)
            <==> exists id, time, p, t, n, x :: IsLine(line, m, id, time, p, t, n, x)
  {
    if id, time, p, t, n, x :| IsLine(line, m, id, time, p, t, n, x) {
      LineIsParsed(line, m, id, time, p, t, n, x);
    }
    if Wire.ParseWire(line) == Some(m) {
      ParsedHasFields(line, m);
    }
  }

  lemma ParsedHasFields(line: string, m: Wire.Line)
    requires Wire.ParseWire(line) == Some(m)
    ensures exists id, time, p, t, n, x :: IsLine(line, m, id, time, p, t, n, x)
  {
    var f := SplitMax(line, ' ', 4);
    FourCuts(line);
    CutOnce(f[3], '/');
    CutOnce(f[4], ':');
    var (p, t) := SplitOnce(f[3], '/').value;
    var (n, x) := SplitOnce(f[4], ':').value;
    assert f[3] == p + "/" + t && f[4] == n + ":" + x;
    LineIsSpaced(f[1], f[2], f[3], f[4]);
    assert IsLine(line, m, f[1], f[2], p, t, n, x);
  }

  // ---------------------------------------------------------------- the lines of a message

  /** The line carries this part of the message, sealed with the bytes that tie it to channel, message, time and
      place. */
  ghost predicate CarriesPart(c: Suite, key: Bytes, line: string, channel: string, msgid: Bytes, ts: int, part: int,
                              total: int, nonce: Bytes, piece: string)
  {
    exists aad, stamp :: TiesTo(aad, channel, msgid, ts, part, total, stamp)
      && Wire.ParseWire(line)
         == Some(Wire.Line(msgid, ts, part, total, nonce, c.seal(key, nonce, aad, Utf8.Encode(piece))))
  }

  lemma LineCarriesPart(c: Suite, key: Bytes, line: string, channel: string, msgid: Bytes, ts: int, part: int,
                        total: int, nonce: Bytes, piece: string)
    requires |msgid| == 8 && |nonce| == 24 && 1 <= part <= total <= 16
    requires Delivery.ChunkLine(c, key, channel, msgid, ts, part, total, Utf8.Encode(piece), nonce) == Some(line)
    ensures CarriesPart(c, key, line, channel, msgid, ts, part, total, nonce, piece)
  {
    AadBytes(channel, msgid, ts, part, total);
    var aad := Wire.BuildAad(channel, msgid, ts, part, total).value;
    Wire.WireRoundTrip(Wire.Line(msgid, ts, part, total, nonce, c.seal(key, nonce, aad, Utf8.Encode(piece))));
  }

  /** A message goes out as at most sixteen lines, numbered from one, that carry the text piece by piece, no piece
      empty or above 180 bytes. */
  lemma MessageLines(c: Suite, key: Bytes, channel: string, text: string, msgid: Bytes, ts: int, nonces: seq<Bytes>,
                     lines: seq<string>) returns (pieces: seq<string>)
    requires |nonces| >= 16 && |msgid| == 8 && forall i | 0 <= i < |nonces| :: |nonces[i]| == 24
    requires Delivery.MessageOf(c, key, channel, text, msgid, ts, nonces) == Some(lines)
    ensures |pieces| == |lines| <= 16 && Chunker.Concat(pieces) == text
    ensures forall i | 0 <= i < |pieces| :: pieces[i] != "" && Utf8.Size(pieces[i]) <= 180
    ensures forall i | 0 <= i < |lines| ::
              CarriesPart(c, key, lines[i], channel, msgid, ts, i + 1, |lines|, nonces[i], pieces[i])
  {
    pieces := Chunker.Greedy(text);
    Chunker.GreedyIsLegal(text);
    forall i | 0 <= i < |lines|
      ensures CarriesPart(c, key, lines[i], channel, msgid, ts, i + 1, |lines|, nonces[i], pieces[i])
    {
      assert Chunker.EncodeAll(pieces)[i] == Utf8.Encode(pieces[i]);
      LineCarriesPart(c, key, lines[i], channel, msgid, ts, i + 1, |lines|, nonces[i], pieces[i]);
    }
  }
}
