/** The text form of KEYREQ, KEYRSP and REKEY: CTCP notices of `key=value` fields. */
module Handshake {
  import opened Basics
  import opened Text
  import opened Payloads
  import Base64

  const CTCP_TAG := "RPEE2E"
  const KEYREQ := "KEYREQ"
  const KEYRSP := "KEYRSP"
  const REKEY := "REKEY"

  type Kv = map<string, string>

  // ---------------------------------------------------------------- key=value fields

  /** One more field: fields without `=` are ignored, a repeated key spoils the whole body. */
  function AddField(kv: Option<Kv>, field: string): Option<Kv> {
    match (kv, SplitOnce(field, '='))
    case (None, _) => None
    case (Some(m), None) => Some(m)
    case (Some(m), Some((k, v))) => if k in m then None else Some(m[k := v])
  }

  function Collect(fields: seq<string>): Option<Kv> {
    if fields == [] then Some(map[]) else AddField(Collect(fields[..|fields| - 1]), fields[|fields| - 1])
  }

  /** `_parse_kv_strict` */
  method ParseKvStrict(fields: seq<string>) returns (r: Option<Kv>)
    ensures r == Collect(fields)
  {
    var out: Kv := map[];
    for i := 0 to |fields|
      invariant Collect(fields[..i]) == Some(out)
    {
      assert fields[..i + 1][..i] == fields[..i];
      var kv := SplitOnce(fields[i], '=');
      if kv.Some? {
        if kv.value.0 in out {
          SpoiltStaysSpoilt(fields, i + 1);
          return None;
        }
        out := out[kv.value.0 := kv.value.1];
      }
    }
    assert fields[..|fields|] == fields;
    return Some(out);
  }

  lemma {:induction false} SpoiltStaysSpoilt(fields: seq<string>, i: nat)
    requires i <= |fields| && Collect(fields[..i]).None?
    ensures Collect(fields).None?
    decreases |fields| - i
  {
    if i == |fields| {
      assert fields[..i] == fields;
    } else {
      assert fields[..i + 1][..i] == fields[..i];
      SpoiltStaysSpoilt(fields, i + 1);
    }
  }

  /** Two fields may be added in either order. */
  lemma AddFieldCommutes(kv: Option<Kv>, a: string, b: string)
    ensures AddField(AddField(kv, a), b) == AddField(AddField(kv, b), a)
  {
    if kv.Some? && SplitOnce(a, '=').Some? && SplitOnce(b, '=').Some? {
      var (k, v) := SplitOnce(a, '=').value;
      var (l, w) := SplitOnce(b, '=').value;
      if k != l {
        assert kv.value[k := v][l := w] == kv.value[l := w][k := v];
      }
    }
  }

  /** Any field may be taken as the last one. */
  lemma {:induction false} FieldMayComeLast(fields: seq<string>, i: nat)
    requires i < |fields|
    ensures Collect(fields) == AddField(Collect(Without(fields, i)), fields[i])
  {
    var n := |fields| - 1;
    if i == n {
      assert Without(fields, i) == fields[..n];
    } else {
      FieldMayComeLast(fields[..n], i);
      assert Without(fields, i)[..n - 1] == Without(fields[..n], i);
      AddFieldCommutes(Collect(Without(fields[..n], i)), fields[i], fields[n]);
    }
  }

  lemma WithoutCounts(fields: seq<string>, i: nat)
    requires i < |fields|
    ensures multiset(Without(fields, i)) == multiset(fields) - multiset{fields[i]}
  {
    assert fields == fields[..i] + ([fields[i]] + fields[i + 1..]);
  }

  /** The order of the fields is immaterial. */
  lemma {:induction false} OrderOfFieldsIsImmaterial(fields: seq<string>, other: seq<string>)
    requires multiset(fields) == multiset(other)
    ensures Collect(fields) == Collect(other)
    decreases |fields|
  {
    assert |fields| == |multiset(fields)| == |multiset(other)| == |other|;
    if fields != [] {
      var n := |fields| - 1;
      assert fields == fields[..n] + [fields[n]];
      assert fields[n] in multiset(other);
      var i :| 0 <= i < |other| && other[i] == fields[n];
      WithoutCounts(other, i);
      OrderOfFieldsIsImmaterial(fields[..n], Without(other, i));
      FieldMayComeLast(other, i);
    }
  }

  predicate Says(field: string, k: string, v: string) {
    SplitOnce(field, '=') == Some((k, v))
  }

  /** Some field reads `k=v`. */
  predicate Holds(fields: seq<string>, k: string, v: string) {
    exists i :: 0 <= i < |fields| && Says(fields[i], k, v)
  }

  predicate SameKey(field: string, other: string) {
    var a, b := SplitOnce(field, '='), SplitOnce(other, '=');
    a.Some? && b.Some? && a.value.0 == b.value.0
  }

  predicate KeyRepeats(fields: seq<string>) {
    exists i, j :: 0 <= i < j < |fields| && SameKey(fields[i], fields[j])
  }

  lemma HoldsAppend(fields: seq<string>, last: string, k: string, v: string)
    ensures Holds(fields + [last], k, v) <==> Holds(fields, k, v) || Says(last, k, v)
  {
    var all := fields + [last];
    assert all[|fields|] == last;
    if Holds(fields, k, v) {
      var i :| 0 <= i < |fields| && Says(fields[i], k, v);
      assert Says(all[i], k, v);
    }
  }

  lemma RepeatsAppend(fields: seq<string>, last: string)
    ensures KeyRepeats(fields + [last]) <==>
              KeyRepeats(fields) || exists i :: 0 <= i < |fields| && SameKey(fields[i], last)
  {
    var all := fields + [last];
    assert all[|fields|] == last;
    if KeyRepeats(fields) {
      var i, j :| 0 <= i < j < |fields| && SameKey(fields[i], fields[j]);
      assert SameKey(all[i], all[j]);
    }
    if i :| 0 <= i < |fields| && SameKey(fields[i], last) {
      assert SameKey(all[i], all[|fields|]);
    }
  }

  ghost predicate Mirrors(m: Kv, fields: seq<string>) {
    forall k, v :: k in m && m[k] == v <==> Holds(fields, k, v)
  }

  lemma MirrorsAppend(m: Kv, fields: seq<string>, last: string)
    requires Mirrors(m, fields) && !KeyRepeats(fields)
    ensures AddField(Some(m), last).None? <==> KeyRepeats(fields + [last])
    ensures AddField(Some(m), last).Some? ==> Mirrors(AddField(Some(m), last).value, fields + [last])
  {
    RepeatsAppend(fields, last);
    var kv := SplitOnce(last, '=');
    if kv.Some? && kv.value.0 in m {
      assert Holds(fields, kv.value.0, m[kv.value.0]);
    } else {
      var m1 := AddField(Some(m), last).value;
      forall i | 0 <= i < |fields|
        ensures !SameKey(fields[i], last)
      {
        if SplitOnce(fields[i], '=').Some? {
          var (k, v) := SplitOnce(fields[i], '=').value;
          assert Holds(fields, k, v);
        }
      }
      forall k, v
        ensures k in m1 && m1[k] == v <==> Holds(fields + [last], k, v)
      {
        HoldsAppend(fields, last, k, v);
      }
    }
  }

  /** A body is refused exactly when a key repeats; otherwise its map is that of its fields. */
  lemma {:induction false} CollectMeans(fields: seq<string>)
    ensures Collect(fields).None? <==> KeyRepeats(fields)
    ensures Collect(fields).Some? ==> Mirrors(Collect(fields).value, fields)
  {
    if fields != [] {
      var init, last := fields[..|fields| - 1], fields[|fields| - 1];
      assert fields == init + [last];
      CollectMeans(init);
      if KeyRepeats(init) {
        RepeatsAppend(init, last);
      } else {
        MirrorsAppend(Collect(init).value, init, last);
      }
    }
  }

  // ---------------------------------------------------------------- messages

  type Pairs = seq<(string, string)>

  function Texts(pairs: Pairs): (t: seq<string>)
    ensures |t| == |pairs|
  {
    seq(|pairs|, i requires 0 <= i < |pairs| => pairs[i].0 + "=" + pairs[i].1)
  }

  function Message(kind: string, pairs: Pairs): string {
    Join([CTCP_TAG, kind] + Texts(pairs), " ")
  }

  function SixPairs(channel: string, p: string, e: string, n: string, s: string): Pairs {
    [("v", "1"), ("c", channel), ("p", p), ("e", e), ("n", n), ("s", s)]
  }

  function EightPairs(channel: string, p: string, e: string, wn: string, w: string, n: string, s: string): Pairs {
    [("v", "1"), ("c", channel), ("p", p), ("e", e), ("wn", wn), ("w", w), ("n", n), ("s", s)]
  }

  function ReqPairs(r: KeyReq): Pairs {
    SixPairs(r.channel, Base64.UrlEncode(r.pub), Base64.UrlEncode(r.eph), Base64.UrlEncode(r.nonce),
             Base64.UrlEncode(r.sig))
  }

  function WrapPairs(w: KeyWrap): Pairs {
    EightPairs(w.channel, Base64.UrlEncode(w.pub), Base64.UrlEncode(w.eph), Base64.UrlEncode(w.wrapNonce),
               Base64.UrlEncode(w.wrapCt), Base64.UrlEncode(w.nonce), Base64.UrlEncode(w.sig))
  }

  /** The body `build_keyreq` prints. */
  function PrintKeyreq(r: KeyReq): string {
    Message(KEYREQ, ReqPairs(r))
  }

  /** The body `_build_keyrsp_for_req` or `_build_rekey_for_peer` prints. */
  function PrintWrap(kind: string, w: KeyWrap): string {
    Message(kind, WrapPairs(w))
  }

  function FieldBytes(kv: Kv, k: string): Option<Bytes> {
    if k in kv then Base64.UrlDecode(kv[k]) else None
  }

  predicate FirstVersion(kv: Kv) {
    "v" in kv && kv["v"] == "1"
  }

  function ReqOf(kv: Kv): (r: Option<KeyReq>)
    ensures r.Some? ==> SizedReq(r.value) && "c" in kv && r.value.channel == kv["c"]
  {
    var (pub, eph) := (FieldBytes(kv, "p"), FieldBytes(kv, "e"));
    var (nonce, sig) := (FieldBytes(kv, "n"), FieldBytes(kv, "s"));
    if !FirstVersion(kv) || "c" !in kv || pub.None? || eph.None? || nonce.None? || sig.None? then None
    else
      var r := KeyReq(kv["c"], pub.value, eph.value, nonce.value, sig.value);
      if SizedReq(r) then Some(r) else None
  }

  function WrapOf(kv: Kv): (r: Option<KeyWrap>)
    ensures r.Some? ==> SizedWrap(r.value) && "c" in kv && r.value.channel == kv["c"]
  {
    var (pub, eph) := (FieldBytes(kv, "p"), FieldBytes(kv, "e"));
    var (wn, w) := (FieldBytes(kv, "wn"), FieldBytes(kv, "w"));
    var (nonce, sig) := (FieldBytes(kv, "n"), FieldBytes(kv, "s"));
    if !FirstVersion(kv) || "c" !in kv || pub.None? || eph.None? || wn.None? || w.None? || nonce.None? || sig.None?
    then None
    else
      var m := KeyWrap(kv["c"], pub.value, eph.value, wn.value, w.value, nonce.value, sig.value);
      if SizedWrap(m) then Some(m) else None
  }

  /** The fields of a body that starts with the right two words and has at least `least` words in all. */
  function BodyFields(body: string, kind: string, least: nat): Option<Kv>
    requires least >= 2
  {
    var parts := Fields(body);
    if |parts| < least || parts[0] != CTCP_TAG || parts[1] != kind then None else Collect(parts[2..])
  }

  /** `parse_keyreq` */
  function ParseKeyreq(body: string): (r: Option<KeyReq>)
    ensures r.Some? ==> SizedReq(r.value)
  {
    match BodyFields(body, KEYREQ, 7)
    case None => None
    case Some(kv) => ReqOf(kv)
  }

  /** `parse_keyrsp` and `parse_keyrekey`, which differ in the word they look for. */
  function ParseWrap(kind: string, body: string): (r: Option<KeyWrap>)
    ensures r.Some? ==> SizedWrap(r.value)
  {
    match BodyFields(body, kind, 9)
    case None => None
    case Some(kv) => WrapOf(kv)
  }

  // ---------------------------------------------------------------- round trips

  predicate DistinctKeys(pairs: Pairs) {
    && (forall i | 0 <= i < |pairs| :: '=' !in pairs[i].0)
    && (forall i, j | 0 <= i < j < |pairs| :: pairs[i].0 != pairs[j].0)
  }

  lemma TextSays(pairs: Pairs, i: nat)
    requires i < |pairs| && '=' !in pairs[i].0
    ensures SplitOnce(Texts(pairs)[i], '=') == Some(pairs[i])
  {
    SplitOnceAt(pairs[i].0, '=', pairs[i].1);
  }

  /** Printed fields with different keys are all found again. */
  lemma TextsCollect(pairs: Pairs)
    requires DistinctKeys(pairs)
    ensures Collect(Texts(pairs)).Some?
    ensures forall i | 0 <= i < |pairs| ::
              pairs[i].0 in Collect(Texts(pairs)).value && Collect(Texts(pairs)).value[pairs[i].0] == pairs[i].1
  {
    var fields := Texts(pairs);
    CollectMeans(fields);
    forall i | 0 <= i < |pairs|
      ensures SplitOnce(fields[i], '=') == Some(pairs[i])
    {
      TextSays(pairs, i);
    }
    forall i | 0 <= i < |pairs|
      ensures Holds(fields, pairs[i].0, pairs[i].1)
    {
      assert Says(fields[i], pairs[i].0, pairs[i].1);
    }
  }

  predicate Printable(pairs: Pairs) {
    forall i | 0 <= i < |pairs| :: NoSpace(pairs[i].0) && NoSpace(pairs[i].1)
  }

  lemma FieldsOfMessage(kind: string, pairs: Pairs)
    requires IsWord(kind) && Printable(pairs)
    ensures Fields(Message(kind, pairs)) == [CTCP_TAG, kind] + Texts(pairs)
  {
    var words := [CTCP_TAG, kind] + Texts(pairs);
    forall i | 0 <= i < |words|
      ensures IsWord(words[i])
    {
      if i >= 2 {
        assert words[i] == pairs[i - 2].0 + "=" + pairs[i - 2].1;
      }
    }
    FieldsOfJoin(words);
  }

  lemma UrlHasNoSpace(b: Bytes)
    ensures NoSpace(Base64.UrlEncode(b))
  {
    Base64.UrlEncodeIsDigits(b);
    var d := Base64.Digits(b);
    forall i | 0 <= i < |d|
      ensures !IsSpace(Base64.ToUrl(d)[i])
    {
      assert Base64.SextetOf(d[i]).Some?;
    }
  }

  /** A field that was read is one that some word of the body spelt out, so it has no white space in it. */
  lemma ValuesAreSpaceless(body: string, kind: string, least: nat, k: string)
    requires least >= 2 && BodyFields(body, kind, least).Some? && k in BodyFields(body, kind, least).value
    ensures NoSpace(BodyFields(body, kind, least).value[k])
  {
    var fields := Fields(body)[2..];
    var v := BodyFields(body, kind, least).value[k];
    CollectMeans(fields);
    assert Holds(fields, k, v);
    var i :| 0 <= i < |fields| && Says(fields[i], k, v);
    SuffixSpaceless(fields[i], IndexOf(fields[i], '=') + 1);
  }

  lemma SuffixSpaceless(s: string, n: nat)
    requires NoSpace(s) && n <= |s|
    ensures NoSpace(s[n..])
  {
  }

  /** A printed message yields its fields. */
  lemma MessageFields(kind: string, pairs: Pairs, least: nat)
    requires IsWord(kind) && Printable(pairs) && 2 <= least <= |pairs| + 2
    ensures BodyFields(Message(kind, pairs), kind, least) == Collect(Texts(pairs))
  {
    FieldsOfMessage(kind, pairs);
    assert ([CTCP_TAG, kind] + Texts(pairs))[2..] == Texts(pairs);
  }

  predicate Reads(kv: Kv, k: string, v: string) {
    k in kv && kv[k] == v
  }

  lemma ReadsPair(pairs: Pairs, i: nat)
    requires DistinctKeys(pairs) && i < |pairs|
    ensures Collect(Texts(pairs)).Some? && Reads(Collect(Texts(pairs)).value, pairs[i].0, pairs[i].1)
  {
    TextsCollect(pairs);
  }

  lemma CarriedBytes(kv: Kv, k: string, b: Bytes)
    requires Reads(kv, k, Base64.UrlEncode(b))
    ensures FieldBytes(kv, k) == Some(b)
  {
    Base64.UrlRoundTrip(b);
  }

  /** Tells the keys of a message apart by one number each. */
  function Rank(k: string): int {
    if |k| == 1 then k[0] as int else 0
  }

  lemma RanksDiffer(pairs: Pairs, ranks: seq<int>)
    requires |pairs| == |ranks|
    requires forall i | 0 <= i < |pairs| :: '=' !in pairs[i].0 && Rank(pairs[i].0) == ranks[i]
    requires forall i, j | 0 <= i < j < |ranks| :: ranks[i] != ranks[j]
    ensures DistinctKeys(pairs)
  {
    forall i, j | 0 <= i < j < |pairs|
      ensures pairs[i].0 != pairs[j].0
    {
      assert Rank(pairs[i].0) != Rank(pairs[j].0);
    }
  }

  lemma SixKeysDistinct(channel: string, p: string, e: string, n: string, s: string)
    ensures DistinctKeys(SixPairs(channel, p, e, n, s))
  {
    RanksDiffer(SixPairs(channel, p, e, n, s),
                ['v' as int, 'c' as int, 'p' as int, 'e' as int, 'n' as int, 's' as int]);
  }

  lemma EightKeysDistinct(channel: string, p: string, e: string, wn: string, w: string, n: string, s: string)
    ensures DistinctKeys(EightPairs(channel, p, e, wn, w, n, s))
  {
    RanksDiffer(EightPairs(channel, p, e, wn, w, n, s),
                ['v' as int, 'c' as int, 'p' as int, 'e' as int, 0, 'w' as int, 'n' as int, 's' as int]);
  }

  lemma ReqRead(kv: Kv, r: KeyReq)
    requires SizedReq(r) && Reads(kv, "v", "1") && Reads(kv, "c", r.channel)
    requires Reads(kv, "p", Base64.UrlEncode(r.pub)) && Reads(kv, "e", Base64.UrlEncode(r.eph))
    requires Reads(kv, "n", Base64.UrlEncode(r.nonce)) && Reads(kv, "s", Base64.UrlEncode(r.sig))
    ensures ReqOf(kv) == Some(r)
  {
    CarriedBytes(kv, "p", r.pub);
    CarriedBytes(kv, "e", r.eph);
    CarriedBytes(kv, "n", r.nonce);
    CarriedBytes(kv, "s", r.sig);
  }

  lemma WrapRead(kv: Kv, w: KeyWrap)
    requires SizedWrap(w) && Reads(kv, "v", "1") && Reads(kv, "c", w.channel)
    requires Reads(kv, "p", Base64.UrlEncode(w.pub)) && Reads(kv, "e", Base64.UrlEncode(w.eph))
    requires Reads(kv, "wn", Base64.UrlEncode(w.wrapNonce)) && Reads(kv, "w", Base64.UrlEncode(w.wrapCt))
    requires Reads(kv, "n", Base64.UrlEncode(w.nonce)) && Reads(kv, "s", Base64.UrlEncode(w.sig))
    ensures WrapOf(kv) == Some(w)
  {
    CarriedBytes(kv, "p", w.pub);
    CarriedBytes(kv, "e", w.eph);
    CarriedBytes(kv, "wn", w.wrapNonce);
    CarriedBytes(kv, "w", w.wrapCt);
    CarriedBytes(kv, "n", w.nonce);
    CarriedBytes(kv, "s", w.sig);
  }

  /** Six printed fields, read back. */
  lemma SixFound(channel: string, p: string, e: string, n: string, s: string)
    requires NoSpace(channel) && NoSpace(p) && NoSpace(e) && NoSpace(n) && NoSpace(s)
    ensures var body := BodyFields(Message(KEYREQ, SixPairs(channel, p, e, n, s)), KEYREQ, 7);
            && body.Some? && Reads(body.value, "v", "1") && Reads(body.value, "c", channel)
            && Reads(body.value, "p", p) && Reads(body.value, "e", e) && Reads(body.value, "n", n)
            && Reads(body.value, "s", s)
  {
    var pairs := SixPairs(channel, p, e, n, s);
    SixKeysDistinct(channel, p, e, n, s);
    MessageFields(KEYREQ, pairs, 7);
    ReadsPair(pairs, 0);
    ReadsPair(pairs, 1);
    ReadsPair(pairs, 2);
    ReadsPair(pairs, 3);
    ReadsPair(pairs, 4);
    ReadsPair(pairs, 5);
  }

  lemma EightFound(kind: string, channel: string, p: string, e: string, wn: string, w: string, n: string, s: string)
    requires IsWord(kind) && NoSpace(channel) && NoSpace(p) && NoSpace(e) && NoSpace(wn) && NoSpace(w)
    requires NoSpace(n) && NoSpace(s)
    ensures var body := BodyFields(Message(kind, EightPairs(channel, p, e, wn, w, n, s)), kind, 9);
            && body.Some? && Reads(body.value, "v", "1") && Reads(body.value, "c", channel)
            && Reads(body.value, "p", p) && Reads(body.value, "e", e) && Reads(body.value, "wn", wn)
            && Reads(body.value, "w", w) && Reads(body.value, "n", n) && Reads(body.value, "s", s)
  {
    var pairs := EightPairs(channel, p, e, wn, w, n, s);
    EightKeysDistinct(channel, p, e, wn, w, n, s);
    MessageFields(kind, pairs, 9);
    ReadsPair(pairs, 0);
    ReadsPair(pairs, 1);
    ReadsPair(pairs, 2);
    ReadsPair(pairs, 3);
    ReadsPair(pairs, 4);
    ReadsPair(pairs, 5);
    ReadsPair(pairs, 6);
    ReadsPair(pairs, 7);
  }

  /** A KEYREQ is read back as printed exactly when its channel name holds no white space. */
  lemma KeyreqRoundTrip(r: KeyReq)
    requires SizedReq(r)
    ensures ParseKeyreq(PrintKeyreq(r)) == Some(r) <==> NoSpace(r.channel)
  {
    if NoSpace(r.channel) {
      UrlHasNoSpace(r.pub);
      UrlHasNoSpace(r.eph);
      UrlHasNoSpace(r.nonce);
      UrlHasNoSpace(r.sig);
      SixFound(r.channel, Base64.UrlEncode(r.pub), Base64.UrlEncode(r.eph), Base64.UrlEncode(r.nonce),
               Base64.UrlEncode(r.sig));
      ReqRead(BodyFields(PrintKeyreq(r), KEYREQ, 7).value, r);
    } else if ParseKeyreq(PrintKeyreq(r)).Some? {
      ValuesAreSpaceless(PrintKeyreq(r), KEYREQ, 7, "c");
    }
  }

  /** The same for KEYRSP and REKEY, for any length of the wrapped key. */
  lemma WrapRoundTrip(kind: string, w: KeyWrap)
    requires kind == KEYRSP || kind == REKEY
    requires SizedWrap(w)
    ensures ParseWrap(kind, PrintWrap(kind, w)) == Some(w) <==> NoSpace(w.channel)
  {
    if NoSpace(w.channel) {
      UrlHasNoSpace(w.pub);
      UrlHasNoSpace(w.eph);
      UrlHasNoSpace(w.wrapNonce);
      UrlHasNoSpace(w.wrapCt);
      UrlHasNoSpace(w.nonce);
      UrlHasNoSpace(w.sig);
      EightFound(kind, w.channel, Base64.UrlEncode(w.pub), Base64.UrlEncode(w.eph), Base64.UrlEncode(w.wrapNonce),
                 Base64.UrlEncode(w.wrapCt), Base64.UrlEncode(w.nonce), Base64.UrlEncode(w.sig));
      WrapRead(BodyFields(PrintWrap(kind, w), kind, 9).value, w);
    } else if ParseWrap(kind, PrintWrap(kind, w)).Some? {
      ValuesAreSpaceless(PrintWrap(kind, w), kind, 9, "c");
    }
  }

  // ---------------------------------------------------------------- notices

  /** What `hook_irc_in_notice` makes of the text of a NOTICE. */
  datatype Notice =
    | ReqNotice(req: Option<KeyReq>)
    | RspNotice(rsp: Option<KeyWrap>)
    | RekeyNotice(rekey: Option<KeyWrap>)
    | Foreign

  const CTCP_MARK := "\U{01}"

  function Frame(body: string): string {
    CTCP_MARK + body + CTCP_MARK
  }

  function Opening(kind: string): string {
    CTCP_TAG + " " + kind + " "
  }

  function ReadNotice(text: string): Notice {
    if |text| < 2 || text[..1] != CTCP_MARK || text[|text| - 1..] != CTCP_MARK then Foreign
    else
      var inner := text[1..|text| - 1];
      if Opening(KEYREQ) <= inner then ReqNotice(ParseKeyreq(inner))
      else if Opening(KEYRSP) <= inner then RspNotice(ParseWrap(KEYRSP, inner))
      else if Opening(REKEY) <= inner then RekeyNotice(ParseWrap(REKEY, inner))
      else Foreign
  }

  lemma MessageOpens(kind: string, pairs: Pairs)
    requires pairs != []
    ensures Opening(kind) <= Message(kind, pairs)
  {
    var words := [CTCP_TAG, kind] + Texts(pairs);
    var rest := [kind] + Texts(pairs);
    assert words[1..] == rest && rest[1..] == Texts(pairs);
    assert Join(rest, " ") == kind + " " + Join(Texts(pairs), " ");
    assert Message(kind, pairs) == CTCP_TAG + " " + Join(rest, " ");
    assert Message(kind, pairs) == Opening(kind) + Join(Texts(pairs), " ");
  }

  lemma OpeningsDiffer(inner: string)
    ensures Opening(KEYRSP) <= inner ==> !(Opening(KEYREQ) <= inner)
    ensures Opening(REKEY) <= inner ==> !(Opening(KEYREQ) <= inner) && !(Opening(KEYRSP) <= inner)
  {
    assert Opening(KEYREQ)[7] == 'K' && Opening(KEYREQ)[11] == 'E';
    assert Opening(KEYRSP)[7] == 'K' && Opening(KEYRSP)[11] == 'S';
    assert Opening(REKEY)[7] == 'R';
  }

  lemma FrameOpens(body: string)
    ensures var text := Frame(body);
            |text| >= 2 && text[..1] == CTCP_MARK && text[|text| - 1..] == CTCP_MARK && text[1..|text| - 1] == body
  {
  }

  /** Every notice this client sends is sorted and parsed back by the receiving client. */
  lemma NoticesArrive(r: KeyReq, w: KeyWrap)
    requires SizedReq(r) && NoSpace(r.channel) && SizedWrap(w) && NoSpace(w.channel)
    ensures ReadNotice(Frame(PrintKeyreq(r))) == ReqNotice(Some(r))
    ensures ReadNotice(Frame(PrintWrap(KEYRSP, w))) == RspNotice(Some(w))
    ensures ReadNotice(Frame(PrintWrap(REKEY, w))) == RekeyNotice(Some(w))
  {
    KeyreqRoundTrip(r);
    WrapRoundTrip(KEYRSP, w);
    WrapRoundTrip(REKEY, w);
    Arrives(PrintKeyreq(r), KEYREQ, ReqPairs(r));
    Arrives(PrintWrap(KEYRSP, w), KEYRSP, WrapPairs(w));
    Arrives(PrintWrap(REKEY, w), REKEY, WrapPairs(w));
  }

  lemma Arrives(body: string, kind: string, pairs: Pairs)
    requires pairs != [] && body == Message(kind, pairs)
    ensures kind == KEYREQ ==> ReadNotice(Frame(body)) == ReqNotice(ParseKeyreq(body))
    ensures kind == KEYRSP ==> ReadNotice(Frame(body)) == RspNotice(ParseWrap(KEYRSP, body))
    ensures kind == REKEY ==> ReadNotice(Frame(body)) == RekeyNotice(ParseWrap(REKEY, body))
  {
    FrameOpens(body);
    MessageOpens(kind, pairs);
    OpeningsDiffer(body);
  }
}
