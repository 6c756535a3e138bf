/** The keyring of one client and every step that reads or writes it, as functions on values.
    The tables are those of the SQLite schema; `Store` in KeyringStore.dfy holds the same tables
    as mutable fields and is proved to take exactly these steps. */
module Keyring {
  import opened Basics
  import opened CryptoSuite
  import opened Payloads
  import opened Text
  import Utf8
  import Limiter

  type Handle = string
  type Channel = string

  datatype Status = Pending | Trusted | Revoked
  datatype Mode = AutoAccept | Auto | Normal | Quiet

  datatype Peer = Peer(pk: Bytes, lastHandle: Handle, lastNick: Option<string>, firstSeen: int, lastSeen: int,
                       status: Status)
  datatype Session = Session(fp: Bytes, sk: Bytes, status: Status, createdAt: int)
  datatype Outgoing = Outgoing(sk: Bytes, createdAt: int, pendingRotation: bool)
  datatype Recipient = Recipient(fp: Bytes, firstSentAt: int)
  datatype Settings = Settings(enabled: bool, mode: Mode)
  datatype Request = Request(ephSk: Bytes, createdAt: int)
  datatype Inbound = Inbound(sender: Handle, pub: Bytes, eph: Bytes, nonce: Bytes, sig: Bytes, receivedAt: int)

  datatype Ring = Ring(
    identity: Bytes,
    peers: map<Bytes, Peer>,
    incoming: map<(Handle, Channel), Session>,
    outgoing: map<Channel, Outgoing>,
    recipients: map<(Channel, Handle), Recipient>,
    channels: map<Channel, Settings>,
    pending: map<string, Request>,
    inbound: map<(Handle, Channel), Inbound>,
    autotrust: set<(string, string)>,
    buckets: map<Handle, Limiter.Bucket>,
    lastSent: map<Handle, real>)

  const NO_KEY: Bytes := [0, 0, 0, 0, 0, 0, 0, 0, 0, 0, 0, 0, 0, 0, 0, 0,
                          0, 0, 0, 0, 0, 0, 0, 0, 0, 0, 0, 0, 0, 0, 0, 0]
  const KEYREQ_MIN_INTERVAL := 30.0
  const PENDING_KEYREQ_TTL := 120

  function EmptyRing(identity: Bytes): Ring {
    Ring(identity, map[], map[], map[], map[], map[], map[], map[], {}, map[], map[])
  }

  /** Random bytes one step may draw. */
  datatype ReqDraw = ReqDraw(eph: Bytes, nonce: Bytes)
  datatype WrapDraw = WrapDraw(eph: Bytes, wrapNonce: Bytes, nonce: Bytes)

  /** A session key wrapped for one peer, with what went into the message that carries it. */
  datatype Grant = Grant(channel: Channel, to: Handle, pub: Bytes, key: Bytes, msg: KeyWrap)

  /** A REKEY notice: the nick it is sent to, and what it carries. */
  datatype Rekey = Rekey(nick: string, grant: Grant)

  /** What a step shows the outside world. */
  datatype Effects = Effects(req: Option<KeyReq>, rsp: Option<Grant>, rekeys: map<Handle, Rekey>,
                             textKey: Option<Bytes>, installed: bool)

  const SILENT := Effects(None, None, map[], None, false)

  function Seconds(now: real): int {
    now.Floor
  }

  function PendingKey(channel: Channel, handle: Handle): string {
    if handle == "" then channel else channel + "\U{1f}" + handle
  }

  // RPE2E01-WRAP: and RPE2E01-REKEY:
  const WRAP_CONTEXT: Bytes := [0x52, 0x50, 0x45, 0x32, 0x45, 0x30, 0x31, 0x2D, 0x57, 0x52, 0x41, 0x50, 0x3A]
  const REKEY_CONTEXT: Bytes := [0x52, 0x50, 0x45, 0x32, 0x45, 0x30, 0x31, 0x2D, 0x52, 0x45, 0x4B, 0x45, 0x59, 0x3A]

  function WrapInfo(channel: Channel): Bytes {
    WRAP_CONTEXT + Utf8.Encode(channel)
  }

  function RekeyInfo(channel: Channel): Bytes {
    REKEY_CONTEXT + Utf8.Encode(channel)
  }

  // ---------------------------------------------------------------- lookups

  predicate IsTrusted(r: Ring, handle: Handle, channel: Channel) {
    (handle, channel) in r.incoming && r.incoming[(handle, channel)].status.Trusted?
  }

  predicate IsEnabled(r: Ring, channel: Channel) {
    channel in r.channels && r.channels[channel].enabled
  }

  predicate HandlePinned(peers: map<Bytes, Peer>, handle: Handle) {
    exists fp <- peers :: peers[fp].lastHandle == handle
  }

  datatype Change = RevokedPeer | HandleChanged | FingerprintChanged | Known | New

  /** `_classify_peer_change` */
  function Classify(peers: map<Bytes, Peer>, fp: Bytes, handle: Handle): Change {
    if fp in peers then
      if peers[fp].status.Revoked? then RevokedPeer
      else if peers[fp].lastHandle != handle then HandleChanged
      else Known
    else if HandlePinned(peers, handle) then FingerprintChanged
    else New
  }

  predicate Autotrusted(c: Suite, rules: set<(string, string)>, handle: Handle, channel: Channel) {
    exists rule <- rules :: (rule.0 == "global" || rule.0 == channel) && c.glob(rule.1, handle)
  }

  // ---------------------------------------------------------------- building messages

  /** An outstanding request is an old one, or its KEYREQ has just been sent. */
  predicate RequestsSent(c: Suite, before: map<string, Request>, after: map<string, Request>, req: Option<KeyReq>) {
    forall k <- after ::
      (k in before && after[k] == before[k]) || (req.Some? && req.value.eph == c.xPub(after[k].ephSk))
  }

  /** One KEYREQ more to a handle, or at least the attempt, and what it does to the times of the last attempts. */
  predicate Spaced(before: map<Handle, real>, after: map<Handle, real>, handle: Handle, now: real, sent: bool) {
    || (after == before && !sent)
    || (after == before[handle := now] && (handle in before ==> now - before[handle] >= KEYREQ_MIN_INTERVAL))
  }

  /** `_allow_outgoing_keyreq` */
  function AllowOutgoing(r: Ring, handle: Handle, now: real): (out: (Ring, bool))
    ensures out.0 == r.(lastSent := out.0.lastSent)
    ensures Spaced(r.lastSent, out.0.lastSent, handle, now, out.1)
  {
    var last := if handle in r.lastSent then r.lastSent[handle] else 0.0;
    if now - last < KEYREQ_MIN_INTERVAL then (r, false) else (r.(lastSent := r.lastSent[handle := now]), true)
  }

  /** `build_keyreq`; `None` is the refusal while an earlier request is still outstanding. */
  function BuildKeyreq(c: Suite, r: Ring, channel: Channel, handle: Handle, now: real, d: ReqDraw)
    : (out: (Ring, Option<KeyReq>))
    ensures out.0 == r.(pending := out.0.pending)
    ensures RequestsSent(c, r.pending, out.0.pending, out.1)
  {
    var k := PendingKey(channel, handle);
    if k in r.pending && Seconds(now) - r.pending[k].createdAt < PENDING_KEYREQ_TTL then (r, None)
    else
      var pub, eph := c.edPub(r.identity), c.xPub(d.eph);
      var sig := c.sign(r.identity, SignedKeyreq(channel, pub, eph, d.nonce));
      (r.(pending := r.pending[k := Request(d.eph, Seconds(now))]),
       Some(KeyReq(channel, pub, eph, d.nonce, sig)))
  }

  /** The key table and the key once the channel's key has been asked for. */
  function ChannelKey(outgoing: map<Channel, Outgoing>, channel: Channel, now: real, newKey: Bytes)
    : (out: (map<Channel, Outgoing>, Bytes))
    ensures channel in out.0 && out.0[channel].sk == out.1 && !out.0[channel].pendingRotation
  {
    if channel in outgoing && !outgoing[channel].pendingRotation then (outgoing, outgoing[channel].sk)
    else (outgoing[channel := Outgoing(newKey, Seconds(now), false)], newKey)
  }

  /** `_get_or_generate_outgoing_key` */
  function OutgoingKey(r: Ring, channel: Channel, now: real, newKey: Bytes): (Ring, Bytes) {
    var (outgoing, key) := ChannelKey(r.outgoing, channel, now, newKey);
    (r.(outgoing := outgoing), key)
  }

  /** What handing out a channel key does: the key is the channel's current one, made afresh if there is
      none or a rotation is due, and whoever gets it becomes a recipient. */
  predicate KeyGranted(outgoing: map<Channel, Outgoing>, recipients: map<(Channel, Handle), Recipient>, after: Ring,
                       rsp: Option<Grant>, now: real, newKey: Bytes)
  {
    match rsp
    case None => after.outgoing == outgoing && after.recipients == recipients
    case Some(g) =>
      && (after.outgoing, g.key) == ChannelKey(outgoing, g.channel, now, newKey)
      && (g.channel, g.to) in after.recipients
      && after.recipients - {(g.channel, g.to)} == recipients - {(g.channel, g.to)}
  }

  function SealedWrap(c: Suite, identity: Bytes, tag: Bytes, channel: Channel, wrapKey: Bytes, info: Bytes,
                      key: Bytes, d: WrapDraw): KeyWrap
  {
    var pub, eph := c.edPub(identity), c.xPub(d.eph);
    var ct := c.seal(wrapKey, d.wrapNonce, info, key);
    KeyWrap(channel, pub, eph, d.wrapNonce, ct, d.nonce,
            c.sign(identity, SignedWrap(tag, channel, pub, eph, d.wrapNonce, ct, d.nonce)))
  }

  /** What a step does to the nick on record for one key: an answer wipes it. */
  predicate NickAfter(before: map<Bytes, Peer>, after: map<Bytes, Peer>, fp: Bytes, answered: bool) {
    if answered then fp in after && after[fp].lastNick == None else after == before
  }

  /** A key that is handed out goes to the owner of this long-term key. */
  predicate GrantedTo(rsp: Option<Grant>, pub: Bytes) {
    rsp.Some? ==> rsp.value.pub == pub
  }

  /** `_build_keyrsp_for_req`; `None` when the requester's ephemeral key is a low-order point. */
  function BuildKeyrsp(c: Suite, r: Ring, channel: Channel, sender: Handle, pub: Bytes, eph: Bytes, now: real,
                       d: WrapDraw, newKey: Bytes): (out: (Ring, Option<Grant>))
    ensures out.0 == r.(outgoing := out.0.outgoing, peers := out.0.peers, recipients := out.0.recipients)
    ensures out.1.None? ==> out.0 == r
    ensures out.0.peers - {c.fingerprint(pub)} == r.peers - {c.fingerprint(pub)}
    ensures KeyGranted(r.outgoing, r.recipients, out.0, out.1, now, newKey)
    ensures out.1.Some? ==> out.1.value.channel == channel && out.1.value.to == sender && out.1.value.pub == pub
    ensures NickAfter(r.peers, out.0.peers, c.fingerprint(pub), out.1.Some?)
  {
    match c.dh(d.eph, eph)
    case None => (r, None)
    case Some(shared) =>
      var (r1, key) := OutgoingKey(r, channel, now, newKey);
      var info := WrapInfo(channel);
      var msg := SealedWrap(c, r.identity, KEYRSP_TAG, channel, c.kdf(shared, info), info, key, d);
      var fp := c.fingerprint(pub);
      var first := if fp in r1.peers then r1.peers[fp].firstSeen else Seconds(now);
      (r1.(peers := r1.peers[fp := Peer(pub, sender, None, first, Seconds(now), Trusted)],
           recipients := r1.recipients[(channel, sender) := Recipient(fp, Seconds(now))]),
       Some(Grant(channel, sender, pub, key, msg)))
  }

  /** `_maybe_build_reciprocal_keyreq` */
  function Reciprocal(c: Suite, r: Ring, channel: Channel, sender: Handle, now: real, d: ReqDraw)
    : (out: (Ring, Option<KeyReq>))
    ensures out.0 == r.(pending := out.0.pending, lastSent := out.0.lastSent)
    ensures RequestsSent(c, r.pending, out.0.pending, out.1)
    ensures Spaced(r.lastSent, out.0.lastSent, sender, now, out.1.Some?)
  {
    var (r1, allowed) := AllowOutgoing(r, sender, now);
    if PendingKey(channel, sender) in r.pending || IsTrusted(r, sender, channel) || !allowed then (r1, None)
    else BuildKeyreq(c, r1, channel, sender, now, d)
  }

  /** `_build_reciprocal_keyreq_on_accept` */
  function ReciprocalOnAccept(c: Suite, r: Ring, channel: Channel, sender: Handle, now: real, d: ReqDraw)
    : (out: (Ring, Option<KeyReq>))
    ensures out.0 == r.(pending := out.0.pending)
    ensures RequestsSent(c, r.pending, out.0.pending, out.1)
  {
    var r1 := r.(pending := r.pending - {PendingKey(channel, sender)});
    if IsTrusted(r, sender, channel) then (r1, None) else BuildKeyreq(c, r1, channel, sender, now, d)
  }

  function GrantRekey(c: Suite, identity: Bytes, channel: Channel, handle: Handle, pk: Bytes, key: Bytes, d: WrapDraw)
    : Grant
  {
    var info := RekeyInfo(channel);
    Grant(channel, handle, pk, key,
          SealedWrap(c, identity, REKEY_TAG, channel, c.kdf(c.toPeer(d.eph, pk), info), info, key, d))
  }

  /** The recipients of a channel whose peer row is still there. */
  function Reachable(r: Ring, channel: Channel): set<Handle> {
    set k <- r.recipients | k.0 == channel && r.recipients[k].fp in r.peers :: k.1
  }

  /** The part of a handle before the first `@`, or all of it. */
  function Ident(handle: Handle): string {
    handle[..IndexOf(handle, '@')]
  }

  /** Where a REKEY for a peer goes: to the nick on record, else to the ident of the handle. */
  function NoticeNick(lastNick: Option<string>, handle: Handle): string {
    if lastNick.Some? && lastNick.value != "" then lastNick.value else Ident(handle)
  }

  function RekeyFor(c: Suite, identity: Bytes, channel: Channel, handle: Handle, row: Peer, key: Bytes, d: WrapDraw)
    : Rekey
  {
    Rekey(NoticeNick(row.lastNick, handle), GrantRekey(c, identity, channel, handle, row.pk, key, d))
  }

  /** `_distribute_rekey` */
  function Rekeys(c: Suite, r: Ring, channel: Channel, key: Bytes, draws: Handle -> WrapDraw): map<Handle, Rekey> {
    map h <- Reachable(r, channel) ::
      h := RekeyFor(c, r.identity, channel, h, r.peers[r.recipients[(channel, h)].fp], key, draws(h))
  }

  // ---------------------------------------------------------------- inbound messages

  function BucketOf(r: Ring, handle: Handle): Limiter.Bucket {
    if handle in r.buckets then r.buckets[handle] else Limiter.FRESH_BUCKET
  }

  /** Normal mode caches the request for `/e2e accept` behind a keyless session row. */
  function CacheKeyreq(r: Ring, sender: Handle, m: KeyReq, fp: Bytes, now: int): (out: Ring)
    ensures out == r.(incoming := out.incoming, inbound := out.inbound)
    ensures out.incoming - {(sender, m.channel)} == r.incoming - {(sender, m.channel)}
  {
    r.(incoming := r.incoming[(sender, m.channel) := Session(fp, NO_KEY, Pending, now)],
       inbound := r.inbound[(sender, m.channel) := Inbound(sender, m.pub, m.eph, m.nonce, m.sig, now)])
  }

  /** The step sends nothing but a KEYRSP to this peer for this channel, and a KEYREQ. */
  predicate OnlyAnswers(effects: Effects, channel: Channel, to: Handle) {
    && effects == SILENT.(rsp := effects.rsp, req := effects.req)
    && (effects.rsp.Some? ==> effects.rsp.value.channel == channel && effects.rsp.value.to == to)
  }

  /** KEYRSP at once, and a KEYREQ of our own where we still lack the sender's key. */
  function AnswerKeyreq(c: Suite, r: Ring, sender: Handle, m: KeyReq, now: real, w: WrapDraw, newKey: Bytes, q: ReqDraw)
    : (out: (Ring, Effects))
    ensures out.0 == r.(outgoing := out.0.outgoing, peers := out.0.peers, recipients := out.0.recipients,
                        pending := out.0.pending, lastSent := out.0.lastSent)
    ensures out.0.peers - {c.fingerprint(m.pub)} == r.peers - {c.fingerprint(m.pub)}
    ensures RequestsSent(c, r.pending, out.0.pending, out.1.req)
    ensures KeyGranted(r.outgoing, r.recipients, out.0, out.1.rsp, now, newKey)
    ensures OnlyAnswers(out.1, m.channel, sender)
    ensures Spaced(r.lastSent, out.0.lastSent, sender, now, out.1.req.Some?)
    ensures NickAfter(r.peers, out.0.peers, c.fingerprint(m.pub), out.1.rsp.Some?)
    ensures GrantedTo(out.1.rsp, m.pub)
  {
    var (r1, rsp) := BuildKeyrsp(c, r, m.channel, sender, m.pub, m.eph, now, w, newKey);
    if rsp.None? then (r1, SILENT)
    else
      var (r2, req) := Reciprocal(c, r1, m.channel, sender, now, q);
      (r2, SILENT.(rsp := rsp, req := req))
  }

  /** Trust on first use: the row pins the fingerprint to the sender's handle. */
  function PinPeer(c: Suite, r: Ring, sender: Handle, nick: string, m: KeyReq, now: int): (out: Ring)
    ensures out == r.(peers := out.peers)
    ensures out.peers - {c.fingerprint(m.pub)} == r.peers - {c.fingerprint(m.pub)}
  {
    r.(peers := r.peers[c.fingerprint(m.pub) := Peer(m.pub, sender, Some(nick), now, now, Pending)])
  }

  /** A matching autotrust rule overrides the channel's mode. */
  function EffectiveMode(c: Suite, r: Ring, sender: Handle, channel: Channel): Mode
    requires channel in r.channels
  {
    if Autotrusted(c, r.autotrust, sender, channel) then AutoAccept else r.channels[channel].mode
  }

  /** Drop, cache or answer the request of a pinned peer. */
  function TreatKeyreq(c: Suite, r: Ring, sender: Handle, m: KeyReq, now: real, w: WrapDraw, newKey: Bytes, q: ReqDraw)
    : (out: (Ring, Effects))
    requires m.channel in r.channels
    ensures out.0.incoming - {(sender, m.channel)} == r.incoming - {(sender, m.channel)}
    ensures IsTrusted(r, sender, m.channel) ==> out.0.incoming == r.incoming
    ensures out.0.peers - {c.fingerprint(m.pub)} == r.peers - {c.fingerprint(m.pub)}
    ensures RequestsSent(c, r.pending, out.0.pending, out.1.req)
    ensures KeyGranted(r.outgoing, r.recipients, out.0, out.1.rsp, now, newKey)
    ensures OnlyAnswers(out.1, m.channel, sender)
  {
    var mode := EffectiveMode(c, r, sender, m.channel);
    var trusted := IsTrusted(r, sender, m.channel);
    if mode.Quiet? && !trusted then (r, SILENT)
    else if mode.Normal? && !trusted then (CacheKeyreq(r, sender, m, c.fingerprint(m.pub), Seconds(now)), SILENT)
    else AnswerKeyreq(c, r, sender, m, now, w, newKey, q)
  }

  /** The part of `handle_keyreq` behind the limiter, the signature and the channel switch. */
  function AdmitKeyreq(c: Suite, r: Ring, sender: Handle, nick: string, m: KeyReq, now: real, w: WrapDraw,
                       newKey: Bytes, q: ReqDraw): (out: (Ring, Effects))
    requires m.channel in r.channels
    ensures out.0.incoming - {(sender, m.channel)} == r.incoming - {(sender, m.channel)}
    ensures IsTrusted(r, sender, m.channel) ==> out.0.incoming == r.incoming
    ensures out.0.peers - {c.fingerprint(m.pub)} == r.peers - {c.fingerprint(m.pub)}
    ensures Classify(r.peers, c.fingerprint(m.pub), sender).RevokedPeer? ==> out.0 == r
    ensures RequestsSent(c, r.pending, out.0.pending, out.1.req)
    ensures KeyGranted(r.outgoing, r.recipients, out.0, out.1.rsp, now, newKey)
    ensures OnlyAnswers(out.1, m.channel, sender)
  {
    var change := Classify(r.peers, c.fingerprint(m.pub), sender);
    if !change.Known? && !change.New? then (r, SILENT)
    else TreatKeyreq(c, PinPeer(c, r, sender, nick, m, Seconds(now)), sender, m, now, w, newKey, q)
  }

  /** `handle_keyreq` */
  function HandleKeyreq(c: Suite, r: Ring, sender: Handle, nick: string, req: Option<KeyReq>, now: real, w: WrapDraw,
                        newKey: Bytes, q: ReqDraw): (out: (Ring, Effects))
    ensures req.None? ==> out.0 == r
    ensures req.Some? ==> out.0.incoming - {(sender, req.value.channel)} == r.incoming - {(sender, req.value.channel)}
    ensures req.Some? && IsTrusted(r, sender, req.value.channel) ==> out.0.incoming == r.incoming
    ensures req.Some? ==> out.0.peers - {c.fingerprint(req.value.pub)} == r.peers - {c.fingerprint(req.value.pub)}
    ensures req.Some? && Classify(r.peers, c.fingerprint(req.value.pub), sender).RevokedPeer? ==> out.0.peers == r.peers
    ensures RequestsSent(c, r.pending, out.0.pending, out.1.req)
    ensures KeyGranted(r.outgoing, r.recipients, out.0, out.1.rsp, now, newKey)
    ensures if req.Some? then OnlyAnswers(out.1, req.value.channel, sender) else out.1 == SILENT
  {
    match req
    case None => (r, SILENT)
    case Some(m) =>
      var (bucket, decision) := Limiter.Decide(BucketOf(r, sender), now);
      var r1 := r.(buckets := r.buckets[sender := bucket]);
      if !decision.Accepted? || !c.verify(m.pub, ReqPayload(m), m.sig) || !IsEnabled(r1, m.channel) then (r1, SILENT)
      else AdmitKeyreq(c, r1, sender, nick, m, now, w, newKey, q)
  }

  /** The request a KEYRSP answers: the one made to this sender, else the unaddressed one. */
  function AnsweredRequest(r: Ring, channel: Channel, sender: Handle): Option<string> {
    if PendingKey(channel, sender) in r.pending then Some(PendingKey(channel, sender))
    else if channel in r.pending then Some(channel)
    else None
  }

  /** Opens a wrapped session key; `None` covers a refused point, a failed opening and a wrong length. */
  function OpenWrap(c: Suite, shared: Option<Bytes>, info: Bytes, m: KeyWrap): Option<Bytes> {
    if shared.None? then None
    else
      var key := c.open(c.kdf(shared.value, info), m.wrapNonce, info, m.wrapCt);
      if key.Some? && |key.value| == KEY_LEN then key else None
  }

  predicate SessionClash(r: Ring, sender: Handle, channel: Channel, fp: Bytes) {
    (sender, channel) in r.incoming && r.incoming[(sender, channel)].fp != fp
  }

  /** Installs the key a KEYRSP carried, unless its sender is not who the keyring knows. */
  function InstallAnswer(c: Suite, r: Ring, sender: Handle, m: KeyWrap, key: Bytes, t: int): (out: (Ring, Effects))
    ensures out.0 == r.(peers := out.0.peers, incoming := out.0.incoming)
    ensures !out.1.installed ==> out.0 == r
    ensures out.0.incoming - {(sender, m.channel)} == r.incoming - {(sender, m.channel)}
    ensures out.0.peers - {c.fingerprint(m.pub)} == r.peers - {c.fingerprint(m.pub)}
    ensures out.1.installed ==> IsTrusted(out.0, sender, m.channel)
                                && out.0.incoming[(sender, m.channel)].fp == c.fingerprint(m.pub)
    ensures out.1 == SILENT.(installed := out.1.installed)
    ensures NickAfter(r.peers, out.0.peers, c.fingerprint(m.pub), out.1.installed)
  {
    var fp := c.fingerprint(m.pub);
    var change := Classify(r.peers, fp, sender);
    if (!change.Known? && !change.New?) || SessionClash(r, sender, m.channel, fp) then (r, SILENT)
    else
      (r.(peers := r.peers[fp := Peer(m.pub, sender, None, t, t, Trusted)],
          incoming := r.incoming[(sender, m.channel) := Session(fp, key, Trusted, t)]),
       SILENT.(installed := true))
  }

  /** `handle_keyrsp` */
  function HandleKeyrsp(c: Suite, r: Ring, sender: Handle, rsp: Option<KeyWrap>, now: real): (out: (Ring, Effects))
    ensures out.0 == r.(pending := out.0.pending, peers := out.0.peers, incoming := out.0.incoming)
    ensures !out.1.installed ==> out.0 == r.(pending := out.0.pending)
    ensures out.0.pending == r.pending
            || (rsp.Some? && var k := AnsweredRequest(r, rsp.value.channel, sender);
                             k.Some? && out.0.pending == r.pending - {k.value})
    ensures out.1.installed ==> out.0.pending != r.pending
    ensures rsp.Some? ==> out.0.incoming - {(sender, rsp.value.channel)} == r.incoming - {(sender, rsp.value.channel)}
    ensures rsp.Some? ==> out.0.peers - {c.fingerprint(rsp.value.pub)} == r.peers - {c.fingerprint(rsp.value.pub)}
    ensures out.1.installed ==> rsp.Some? && IsTrusted(out.0, sender, rsp.value.channel)
                                && out.0.incoming[(sender, rsp.value.channel)].fp == c.fingerprint(rsp.value.pub)
    ensures out.1 == SILENT.(installed := out.1.installed)
    ensures rsp.Some? ==> NickAfter(r.peers, out.0.peers, c.fingerprint(rsp.value.pub), out.1.installed)
  {
    match rsp
    case None => (r, SILENT)
    case Some(m) =>
      if !c.verify(m.pub, WrapPayload(KEYRSP_TAG, m), m.sig) then (r, SILENT)
      else
        match AnsweredRequest(r, m.channel, sender)
        case None => (r, SILENT)
        case Some(k) =>
          var r1 := r.(pending := r.pending - {k});
          var key := OpenWrap(c, c.dh(r.pending[k].ephSk, m.eph), WrapInfo(m.channel), m);
          if key.None? then (r1, SILENT) else InstallAnswer(c, r1, sender, m, key.value, Seconds(now))
  }

  /** `handle_rekey` */
  function HandleRekey(c: Suite, r: Ring, sender: Handle, rekey: Option<KeyWrap>, now: real): (out: (Ring, Effects))
    ensures out.0 == r.(incoming := out.0.incoming)
    ensures !out.1.installed ==> out.0 == r
    ensures rekey.Some? ==>
              out.0.incoming - {(sender, rekey.value.channel)} == r.incoming - {(sender, rekey.value.channel)}
    ensures out.1.installed ==> rekey.Some? && IsTrusted(out.0, sender, rekey.value.channel)
                                && out.0.incoming[(sender, rekey.value.channel)].fp == c.fingerprint(rekey.value.pub)
    ensures out.1 == SILENT.(installed := out.1.installed)
  {
    match rekey
    case None => (r, SILENT)
    case Some(m) =>
      var fp := c.fingerprint(m.pub);
      var key := OpenWrap(c, c.fromPeer(r.identity, m.eph), RekeyInfo(m.channel), m);
      if !c.verify(m.pub, WrapPayload(REKEY_TAG, m), m.sig) || !Classify(r.peers, fp, sender).Known?
         || key.None? || SessionClash(r, sender, m.channel, fp)
      then (r, SILENT)
      else
        (r.(incoming := r.incoming[(sender, m.channel) := Session(fp, key.value, Trusted, Seconds(now))]),
         SILENT.(installed := true))
  }

  /** The KEYREQ that an encrypted line without a trusted session provokes (`hook_irc_in_privmsg`). */
  function AutoKeyreq(c: Suite, r: Ring, sender: Handle, channel: Channel, now: real, q: ReqDraw)
    : (out: (Ring, Effects))
    ensures out.0 == r.(pending := out.0.pending, lastSent := out.0.lastSent)
    ensures RequestsSent(c, r.pending, out.0.pending, out.1.req)
    ensures Spaced(r.lastSent, out.0.lastSent, sender, now, out.1.req.Some?)
    ensures out.1 == SILENT.(req := out.1.req)
  {
    if IsTrusted(r, sender, channel) then (r, SILENT)
    else
      var (r1, allowed) := AllowOutgoing(r, sender, now);
      if !allowed then (r, SILENT)
      else
        var (r2, req) := BuildKeyreq(c, r1, channel, sender, now, q);
        (r2, SILENT.(req := req))
  }

  // ---------------------------------------------------------------- local actions

  /** The key handling of `hook_input_text_for_buffer`: pick or rotate the channel key, and after a
      scheduled rotation hand the new key to everyone who had the old one. */
  function SendText(c: Suite, r: Ring, channel: Channel, now: real, newKey: Bytes, draws: Handle -> WrapDraw)
    : (out: (Ring, Effects))
    ensures out.0 == r.(outgoing := out.0.outgoing)
    ensures out.1 == SILENT.(textKey := out.1.textKey, rekeys := out.1.rekeys)
    ensures out.1.textKey.Some? ==> channel in out.0.outgoing && out.0.outgoing[channel].sk == out.1.textKey.value
  {
    if !IsEnabled(r, channel) then (r, SILENT)
    else
      var rotating := channel in r.outgoing && r.outgoing[channel].pendingRotation;
      var (r1, key) := OutgoingKey(r, channel, now, newKey);
      (r1, SILENT.(textKey := Some(key), rekeys := if rotating then Rekeys(c, r1, channel, key, draws) else map[]))
  }

  /** `/e2e accept`: answer a cached request, or else trust an existing session. */
  function Accept(c: Suite, r: Ring, channel: Channel, handle: Handle, now: real, w: WrapDraw, newKey: Bytes,
                  q: ReqDraw): (out: (Ring, Effects))
    ensures RequestsSent(c, r.pending, out.0.pending, out.1.req)
    ensures KeyGranted(r.outgoing, r.recipients, out.0, out.1.rsp, now, newKey)
    ensures if (handle, channel) in r.inbound then OnlyAnswers(out.1, channel, r.inbound[(handle, channel)].sender)
            else out.1 == SILENT
  {
    if (handle, channel) in r.inbound then AnswerInbound(c, r, channel, r.inbound[(handle, channel)], now, w, newKey, q)
    else (SetSessionStatus(r, handle, channel, Trusted), SILENT)
  }

  /** `/e2e accept` on a cached request: KEYRSP, and a KEYREQ that replaces any outstanding one. */
  function AnswerInbound(c: Suite, r: Ring, channel: Channel, m: Inbound, now: real, w: WrapDraw, newKey: Bytes,
                         q: ReqDraw): (out: (Ring, Effects))
    ensures out.0 == r.(inbound := r.inbound - {(m.sender, channel)}, outgoing := out.0.outgoing, peers := out.0.peers,
                        recipients := out.0.recipients, pending := out.0.pending)
    ensures RequestsSent(c, r.pending, out.0.pending, out.1.req)
    ensures KeyGranted(r.outgoing, r.recipients, out.0, out.1.rsp, now, newKey)
    ensures OnlyAnswers(out.1, channel, m.sender)
    ensures out.0.peers - {c.fingerprint(m.pub)} == r.peers - {c.fingerprint(m.pub)}
    ensures NickAfter(r.peers, out.0.peers, c.fingerprint(m.pub), out.1.rsp.Some?)
    ensures GrantedTo(out.1.rsp, m.pub)
  {
    var r1 := r.(inbound := r.inbound - {(m.sender, channel)});
    var (r2, rsp) := BuildKeyrsp(c, r1, channel, m.sender, m.pub, m.eph, now, w, newKey);
    if rsp.None? then (r2, SILENT)
    else
      var (r3, req) := ReciprocalOnAccept(c, r2, channel, m.sender, now, q);
      (r3, SILENT.(rsp := rsp, req := req))
  }

  function SetSessionStatus(r: Ring, handle: Handle, channel: Channel, status: Status): (out: Ring)
    ensures out == r.(incoming := out.incoming)
    ensures out.incoming.Keys == r.incoming.Keys
    ensures forall k <- r.incoming :: out.incoming[k].fp == r.incoming[k].fp
  {
    if (handle, channel) in r.incoming then
      r.(incoming := r.incoming[(handle, channel) := r.incoming[(handle, channel)].(status := status)])
    else r
  }

  /** `/e2e decline` */
  function Decline(r: Ring, channel: Channel, handle: Handle): Ring {
    SetSessionStatus(r.(inbound := r.inbound - {(handle, channel)}), handle, channel, Revoked)
  }

  /** `/e2e rotate` */
  function Rotate(r: Ring, channel: Channel): (out: Ring)
    ensures out == r.(outgoing := out.outgoing)
  {
    r.(outgoing := MarkRotation(r.outgoing, channel))
  }

  /** Marks the key, which stays the same until the next use. */
  function MarkRotation(outgoing: map<Channel, Outgoing>, channel: Channel): (out: map<Channel, Outgoing>)
    ensures out.Keys == outgoing.Keys
    ensures forall ch <- outgoing :: out[ch].sk == outgoing[ch].sk
  {
    if channel in outgoing then outgoing[channel := outgoing[channel].(pendingRotation := true)] else outgoing
  }

  /** `/e2e revoke` */
  function Revoke(r: Ring, channel: Channel, handle: Handle): (out: Ring)
    ensures out == r.(incoming := out.incoming, recipients := r.recipients - {(channel, handle)},
                      outgoing := MarkRotation(r.outgoing, channel))
  {
    var r1 := SetSessionStatus(r, handle, channel, Revoked);
    Rotate(r1.(recipients := r1.recipients - {(channel, handle)}), channel)
  }

  /** Everything that can happen to a keyring, save `reverify` and `import`. */
  datatype Event =
    | RecvKeyreq(sender: Handle, nick: string, req: Option<KeyReq>, now: real, w: WrapDraw, newKey: Bytes, q: ReqDraw)
    | RecvKeyrsp(sender: Handle, rsp: Option<KeyWrap>, now: real)
    | RecvRekey(sender: Handle, rekey: Option<KeyWrap>, now: real)
    | RecvLine(sender: Handle, channel: Channel, now: real, q: ReqDraw)
    | Say(channel: Channel, now: real, newKey: Bytes, draws: Handle -> WrapDraw)
    | DoOn(channel: Channel)
    | DoOff(channel: Channel)
    | DoMode(channel: Channel, mode: Mode)
    | DoAccept(channel: Channel, handle: Handle, now: real, w: WrapDraw, newKey: Bytes, q: ReqDraw)
    | DoDecline(channel: Channel, handle: Handle)
    | DoRevoke(channel: Channel, handle: Handle)
    | DoUnrevoke(channel: Channel, handle: Handle)
    | DoForget(channel: Channel, handle: Handle)
    | DoHandshake(channel: Channel, now: real, q: ReqDraw)
    | DoRotate(channel: Channel)
    | DoAutotrust(scope: string, pattern: string)
    | DoUntrust(pattern: string)
    | Restart

  /** The events another client can cause. */
  predicate Remote(e: Event) {
    e.RecvKeyreq? || e.RecvKeyrsp? || e.RecvRekey? || e.RecvLine?
  }

  function RemoteStep(c: Suite, r: Ring, e: Event): (Ring, Effects)
    requires Remote(e)
  {
    match e
    case RecvKeyreq(sender, nick, req, now, w, newKey, q) => HandleKeyreq(c, r, sender, nick, req, now, w, newKey, q)
    case RecvKeyrsp(sender, rsp, now) => HandleKeyrsp(c, r, sender, rsp, now)
    case RecvRekey(sender, rekey, now) => HandleRekey(c, r, sender, rekey, now)
    case RecvLine(sender, channel, now, q) => AutoKeyreq(c, r, sender, channel, now, q)
  }

  /** The commands that neither draw random bytes nor send anything. */
  function QuietCommand(r: Ring, e: Event): Ring {
    match e
    case DoOn(channel) => r.(channels := r.channels[channel := Settings(true, Normal)])
    case DoOff(channel) =>
      if channel in r.channels then
        r.(channels := r.channels[channel := r.channels[channel].(enabled := false)])
      else r
    case DoMode(channel, mode) => r.(channels := r.channels[channel := Settings(true, mode)])
    case DoDecline(channel, handle) => Decline(r, channel, handle)
    case DoRevoke(channel, handle) => Revoke(r, channel, handle)
    case DoUnrevoke(channel, handle) => SetSessionStatus(r, handle, channel, Trusted)
    case DoForget(channel, handle) => r.(incoming := r.incoming - {(handle, channel)})
    case DoRotate(channel) => Rotate(r, channel)
    case DoAutotrust(scope, pattern) => r.(autotrust := r.autotrust + {(scope, pattern)})
    case DoUntrust(pattern) => r.(autotrust := set rule <- r.autotrust | rule.1 != pattern)
    case Restart => r.(pending := map[], buckets := map[], lastSent := map[])
    case _ => r
  }

  function LocalStep(c: Suite, r: Ring, e: Event): (Ring, Effects) {
    match e
    case Say(channel, now, newKey, draws) => SendText(c, r, channel, now, newKey, draws)
    case DoAccept(channel, handle, now, w, newKey, q) => Accept(c, r, channel, handle, now, w, newKey, q)
    case DoHandshake(channel, now, q) =>
      var (r1, req) := BuildKeyreq(c, r, channel, "", now, q);
      (r1, SILENT.(req := req))
    case _ => (QuietCommand(r, e), SILENT)
  }

  function Step(c: Suite, r: Ring, e: Event): (Ring, Effects) {
    if Remote(e) then RemoteStep(c, r, e) else LocalStep(c, r, e)
  }

  /** The keyring after a run of events, and what each event showed. */
  function Run(c: Suite, r: Ring, events: seq<Event>): (out: (Ring, seq<Effects>))
    ensures |out.1| == |events|
  {
    if events == [] then (r, [])
    else
      var (r1, before) := Run(c, r, events[..|events| - 1]);
      var (r2, last) := Step(c, r1, events[|events| - 1]);
      (r2, before + [last])
  }
}
