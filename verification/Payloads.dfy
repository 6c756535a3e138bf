/** The byte strings that handshake messages sign, and the records those messages carry. */
module Payloads {
  import opened Basics
  import Utf8

  /** The fields of a KEYREQ. */
  datatype KeyReq = KeyReq(channel: string, pub: Bytes, eph: Bytes, nonce: Bytes, sig: Bytes)

  /** The fields KEYRSP and REKEY share: a session key wrapped for one recipient. */
  datatype KeyWrap = KeyWrap(channel: string, pub: Bytes, eph: Bytes, wrapNonce: Bytes, wrapCt: Bytes,
                             nonce: Bytes, sig: Bytes)

  const COLON: Bytes := [0x3A]
  const KEYREQ_TAG: Bytes := [0x4B, 0x45, 0x59, 0x52, 0x45, 0x51, 0x3A] // KEYREQ:
  const KEYRSP_TAG: Bytes := [0x4B, 0x45, 0x59, 0x52, 0x53, 0x50, 0x3A] // KEYRSP:
  const REKEY_TAG: Bytes := [0x52, 0x45, 0x4B, 0x45, 0x59, 0x3A] // REKEY:

  const PUB_LEN := 32
  const REQ_NONCE_LEN := 16
  const NONCE_LEN := 24
  const KEY_LEN := 32

  function SignedKeyreq(channel: string, pub: Bytes, eph: Bytes, nonce: Bytes): Bytes {
    KEYREQ_TAG + Utf8.Encode(channel) + COLON + pub + COLON + eph + COLON + nonce
  }

  function SignedWrap(tag: Bytes, channel: string, pub: Bytes, eph: Bytes, wrapNonce: Bytes, wrapCt: Bytes,
                      nonce: Bytes): Bytes
  {
    tag + Utf8.Encode(channel) + COLON + pub + COLON + eph + COLON + wrapNonce + COLON + wrapCt + COLON + nonce
  }

  /** The lengths `parse_keyreq` insists on. */
  predicate SizedReq(r: KeyReq) {
    |r.pub| == PUB_LEN && |r.eph| == PUB_LEN && |r.nonce| == REQ_NONCE_LEN && |r.sig| == 64
  }

  /** The lengths `parse_keyrsp` and `parse_keyrekey` insist on; the ciphertext is not checked. */
  predicate SizedWrap(w: KeyWrap) {
    && |w.pub| == PUB_LEN && |w.eph| == PUB_LEN && |w.wrapNonce| == NONCE_LEN
    && |w.nonce| == REQ_NONCE_LEN && |w.sig| == 64
  }

  function ReqPayload(r: KeyReq): Bytes {
    SignedKeyreq(r.channel, r.pub, r.eph, r.nonce)
  }

  function WrapPayload(tag: Bytes, w: KeyWrap): Bytes {
    SignedWrap(tag, w.channel, w.pub, w.eph, w.wrapNonce, w.wrapCt, w.nonce)
  }

  /** One field with its colon comes off the right end. */
  lemma PeelField(a: Bytes, x: Bytes, b: Bytes, y: Bytes)
    requires a + COLON + x == b + COLON + y && |x| == |y|
    ensures a == b && x == y
  {
    SplitRight(a + COLON, x, b + COLON, y);
    SplitRight(a, COLON, b, COLON);
  }

  lemma PeelTag(tag: Bytes, s: string, t: string)
    requires tag + Utf8.Encode(s) == tag + Utf8.Encode(t)
    ensures s == t
  {
    SplitRight(tag, Utf8.Encode(s), tag, Utf8.Encode(t));
    Utf8.EncodeInjective(s, t);
  }

  /** A signed KEYREQ payload determines every signed field, whatever colons the channel holds. */
  lemma KeyreqPayloadInjective(r: KeyReq, q: KeyReq)
    requires SizedReq(r) && SizedReq(q) && ReqPayload(r) == ReqPayload(q)
    ensures r == q.(sig := r.sig)
  {
    var rc, qc := KEYREQ_TAG + Utf8.Encode(r.channel), KEYREQ_TAG + Utf8.Encode(q.channel);
    PeelField(rc + COLON + r.pub + COLON + r.eph, r.nonce, qc + COLON + q.pub + COLON + q.eph, q.nonce);
    PeelField(rc + COLON + r.pub, r.eph, qc + COLON + q.pub, q.eph);
    PeelField(rc, r.pub, qc, q.pub);
    PeelTag(KEYREQ_TAG, r.channel, q.channel);
  }

  /** A signed KEYRSP or REKEY payload determines every signed field exactly when the length of the
      wrapped key is fixed, as the 48-byte opening of it does. */
  lemma WrapPayloadInjective(tag: Bytes, w: KeyWrap, v: KeyWrap)
    requires SizedWrap(w) && SizedWrap(v) && WrapPayload(tag, w) == WrapPayload(tag, v)
    ensures w == v.(sig := w.sig) <==> |w.wrapCt| == |v.wrapCt|
  {
    if |w.wrapCt| == |v.wrapCt| {
      var wc, vc := tag + Utf8.Encode(w.channel), tag + Utf8.Encode(v.channel);
      var w1, v1 := wc + COLON + w.pub, vc + COLON + v.pub;
      var w2, v2 := w1 + COLON + w.eph, v1 + COLON + v.eph;
      var w3, v3 := w2 + COLON + w.wrapNonce, v2 + COLON + v.wrapNonce;
      PeelField(w3 + COLON + w.wrapCt, w.nonce, v3 + COLON + v.wrapCt, v.nonce);
      PeelField(w3, w.wrapCt, v3, v.wrapCt);
      PeelField(w2, w.wrapNonce, v2, v.wrapNonce);
      PeelField(w1, w.eph, v1, v.eph);
      PeelField(wc, w.pub, vc, v.pub);
      PeelTag(tag, w.channel, v.channel);
    }
  }

  function Colons(n: nat): (b: Bytes)
    ensures |b| == n && forall i | 0 <= i < n :: b[i] == 0x3A
  {
    seq(n, i => 0x3A)
  }

  /** Without that length two different messages share a payload: a colon can belong to the channel
      name or to the ciphertext. */
  lemma WrapPayloadAmbiguous(tag: Bytes) returns (w: KeyWrap, v: KeyWrap)
    ensures SizedWrap(w) && SizedWrap(v) && w.channel == "#" && v.channel == "#:"
    ensures WrapPayload(tag, w) == WrapPayload(tag, v)
  {
    w := KeyWrap("#", Colons(32), Colons(32), Colons(24), Colons(48), Colons(16), Colons(64));
    v := KeyWrap("#:", Colons(32), Colons(32), Colons(24), Colons(47), Colons(16), Colons(64));
    HashColon();
    assert WrapPayload(tag, w) == tag + [0x23] + Colons(157);
    assert WrapPayload(tag, v) == tag + [0x23] + Colons(157);
  }

  lemma HashColon()
    ensures Utf8.Encode("#") == [0x23] && Utf8.Encode("#:") == [0x23, 0x3A]
  {
    assert "#"[1..] == "" && ":"[1..] == "" && "#:"[1..] == ":";
    assert Utf8.EncodeChar('#') == [0x23] && Utf8.EncodeChar(':') == [0x3A];
    assert Utf8.Encode(":") == [0x3A];
  }

  /** No payload of one message kind is a prefix of, or equal to, one of another kind. */
  lemma PayloadKindsDisjoint(r: KeyReq, w: KeyWrap, v: KeyWrap)
    ensures !(ReqPayload(r) <= WrapPayload(KEYRSP_TAG, w)) && !(WrapPayload(KEYRSP_TAG, w) <= ReqPayload(r))
    ensures !(ReqPayload(r) <= WrapPayload(REKEY_TAG, v)) && !(WrapPayload(REKEY_TAG, v) <= ReqPayload(r))
    ensures !(WrapPayload(KEYRSP_TAG, w) <= WrapPayload(REKEY_TAG, v))
    ensures !(WrapPayload(REKEY_TAG, v) <= WrapPayload(KEYRSP_TAG, w))
  {
    assert ReqPayload(r)[0] == 0x4B && ReqPayload(r)[4] == 0x45;
    assert WrapPayload(KEYRSP_TAG, w)[0] == 0x4B && WrapPayload(KEYRSP_TAG, w)[4] == 0x53;
    assert WrapPayload(REKEY_TAG, v)[0] == 0x52;
  }
}
