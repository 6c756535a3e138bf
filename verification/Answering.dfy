/** Which messages a client sends, and when: stated over the tables as they stand before the event, in the
    protocol's own terms and with its numbers, whatever the handlers are made of. */
module Answering {
  import opened Basics
  import opened CryptoSuite
  import opened Payloads
  import opened Keyring
  import Addressing
  import Limiter
  import Utf8

  // ---------------------------------------------------------------- what decides

  /** The KEYREQ gets as far as the channel's mode: the limiter lets it through, it is signed by the key it
      names, the channel is switched on, and neither the key nor the handle is known otherwise. */
  ghost predicate Admissible(c: Suite, r: Ring, sender: Handle, m: KeyReq, now: real) {
    var (fp, ch) := (c.fingerprint(m.pub), m.channel);
    && Limiter.Decide(if sender in r.buckets then r.buckets[sender] else Limiter.Bucket([], 0.0), now).1.Accepted?
    && c.verify(m.pub, ReqPayload(m), m.sig)
    && ch in r.channels && r.channels[ch].enabled
    && if fp in r.peers then r.peers[fp].lastHandle == sender && !r.peers[fp].status.Revoked?
       else forall f <- r.peers :: r.peers[f].lastHandle != sender
  }

  ghost predicate HasTrust(r: Ring, handle: Handle, channel: Channel) {
    (handle, channel) in r.incoming && r.incoming[(handle, channel)].status == Trusted
  }

  /** A rule for all channels or for this one names the handle. */
  ghost predicate RuleMatches(c: Suite, r: Ring, handle: Handle, channel: Channel) {
    exists rule :: rule in r.autotrust && (rule.0 == "global" || rule.0 == channel) && c.glob(rule.1, handle)
  }

  /** The handle may have the channel's key without the user being asked. */
  ghost predicate Entitled(c: Suite, r: Ring, handle: Handle, channel: Channel)
    requires channel in r.channels
  {
    || HasTrust(r, handle, channel) || RuleMatches(c, r, handle, channel)
    || r.channels[channel].mode == AutoAccept || r.channels[channel].mode == Auto
  }

  /** The row a request to this handle has in the table of outstanding requests. */
  function RequestRow(channel: Channel, handle: Handle): string {
    if handle == "" then channel else channel + "\U{1f}" + handle
  }

  /** The last attempt to send this handle a KEYREQ, if there was any, is 30 s or more ago. */
  predicate MayAsk(r: Ring, handle: Handle, now: real) {
    now - (if handle in r.lastSent then r.lastSent[handle] else 0.0) >= 30.0
  }

  /** Nothing is outstanding in this row, or only a request that is two minutes old. */
  predicate Lapsed(r: Ring, row: string, now: real) {
    row in r.pending ==> now.Floor - r.pending[row].createdAt >= 120
  }

  /** The KEYREQ this client makes for the channel. */
  function OwnKeyreq(c: Suite, identity: Bytes, channel: Channel, q: ReqDraw): KeyReq {
    var m := KeyReq(channel, c.edPub(identity), c.xPub(q.eph), q.nonce, []);
    m.(sig := c.sign(identity, ReqPayload(m)))
  }

  // ---------------------------------------------------------------- a KEYREQ arrives

  lemma AdmissibleIsPassing(c: Suite, r: Ring, sender: Handle, m: KeyReq, now: real)
    ensures Admissible(c, r, sender, m, now) <==> Addressing.Passes(c, r, sender, m, now)
  {
  }

  lemma EntitledIsAnswered(c: Suite, r: Ring, handle: Handle, channel: Channel)
    requires channel in r.channels
    ensures Entitled(c, r, handle, channel)
            <==> IsTrusted(r, handle, channel) || EffectiveMode(c, r, handle, channel).AutoAccept?
                 || EffectiveMode(c, r, handle, channel).Auto?
    ensures !Entitled(c, r, handle, channel) ==> EffectiveMode(c, r, handle, channel) == r.channels[channel].mode
  {
    assert RuleMatches(c, r, handle, channel) <==> Autotrusted(c, r.autotrust, handle, channel);
  }

  function NextBucket(r: Ring, sender: Handle, now: real): Limiter.Bucket {
    Limiter.Decide(if sender in r.buckets then r.buckets[sender] else Limiter.Bucket([], 0.0), now).0
  }

  /** The keyring once an admissible request has been counted and its sender pinned. */
  function Noted(c: Suite, r: Ring, sender: Handle, nick: string, m: KeyReq, now: real): Ring {
    r.(buckets := r.buckets[sender := NextBucket(r, sender, now)],
       peers := r.peers[c.fingerprint(m.pub) := Peer(m.pub, sender, Some(nick), now.Floor, now.Floor, Pending)])
  }

  lemma AdmissibleIsTreated(c: Suite, r: Ring, sender: Handle, nick: string, m: KeyReq, now: real, w: WrapDraw,
                            newKey: Bytes, q: ReqDraw)
    requires Admissible(c, r, sender, m, now)
    ensures HandleKeyreq(c, r, sender, nick, Some(m), now, w, newKey, q)
         == TreatKeyreq(c, Noted(c, r, sender, nick, m, now), sender, m, now, w, newKey, q)
  {
    AdmissibleIsPassing(c, r, sender, m, now);
    var r0 := r.(buckets := r.buckets[sender := NextBucket(r, sender, now)]);
    assert HandleKeyreq(c, r, sender, nick, Some(m), now, w, newKey, q)
        == AdmitKeyreq(c, r0, sender, nick, m, now, w, newKey, q);
    assert PinPeer(c, r0, sender, nick, m, Seconds(now)) == Noted(c, r, sender, nick, m, now);
  }

  /** An inadmissible request is counted and nothing else. */
  lemma InadmissibleIsDropped(c: Suite, r: Ring, sender: Handle, nick: string, m: KeyReq, now: real, w: WrapDraw,
                              newKey: Bytes, q: ReqDraw)
    requires !Admissible(c, r, sender, m, now)
    ensures HandleKeyreq(c, r, sender, nick, Some(m), now, w, newKey, q)
         == (r.(buckets := r.buckets[sender := NextBucket(r, sender, now)]), SILENT)
  {
    AdmissibleIsPassing(c, r, sender, m, now);
  }

  /** In quiet mode a request nobody is entitled to make is dropped: its sender is pinned and counted, and no
      session, request, recipient or key changes. */
  lemma QuietDrops(c: Suite, r: Ring, sender: Handle, nick: string, m: KeyReq, now: real, w: WrapDraw, newKey: Bytes,
                   q: ReqDraw)
    requires Admissible(c, r, sender, m, now) && !Entitled(c, r, sender, m.channel)
    requires r.channels[m.channel].mode == Quiet
    ensures var (r1, effects) := HandleKeyreq(c, r, sender, nick, Some(m), now, w, newKey, q);
            && effects == Effects(None, None, map[], None, false)
            && r1 == r.(buckets := r1.buckets, peers := r1.peers)
            && r1.buckets == r.buckets[sender := NextBucket(r, sender, now)]
            && r1.peers == r.peers[c.fingerprint(m.pub) :=
                                     Peer(m.pub, sender, Some(nick), now.Floor, now.Floor, Pending)]
  {
    AdmissibleIsTreated(c, r, sender, nick, m, now, w, newKey, q);
    EntitledIsAnswered(c, Noted(c, r, sender, nick, m, now), sender, m.channel);
    assert !Entitled(c, Noted(c, r, sender, nick, m, now), sender, m.channel);
  }

  lemma NoKeyIsZeros()
    ensures NO_KEY == Zeros(32)
  {
    assert |NO_KEY| == 32;
    assert forall i | 0 <= i < 32 :: NO_KEY[i] == 0;
  }

  /** In normal mode it waits for the user behind a session row whose key is all zeros; nothing is sent. */
  lemma NormalCaches(c: Suite, r: Ring, sender: Handle, nick: string, m: KeyReq, now: real, w: WrapDraw, newKey: Bytes,
                     q: ReqDraw)
    requires Admissible(c, r, sender, m, now) && !Entitled(c, r, sender, m.channel)
    requires r.channels[m.channel].mode == Normal
    ensures var (r1, effects) := HandleKeyreq(c, r, sender, nick, Some(m), now, w, newKey, q);
            var (fp, t, k) := (c.fingerprint(m.pub), now.Floor, (sender, m.channel));
            && effects == Effects(None, None, map[], None, false)
            && r1 == r.(buckets := r1.buckets, peers := r1.peers, incoming := r1.incoming, inbound := r1.inbound)
            && r1.buckets == r.buckets[sender := NextBucket(r, sender, now)]
            && r1.peers == r.peers[fp := Peer(m.pub, sender, Some(nick), t, t, Pending)]
            && r1.incoming == r.incoming[k := Session(fp, Zeros(32), Pending, t)]
            && r1.inbound == r.inbound[k := Inbound(sender, m.pub, m.eph, m.nonce, m.sig, t)]
  {
    AdmissibleIsTreated(c, r, sender, nick, m, now, w, newKey, q);
    EntitledIsAnswered(c, Noted(c, r, sender, nick, m, now), sender, m.channel);
    assert !Entitled(c, Noted(c, r, sender, nick, m, now), sender, m.channel);
    NoKeyIsZeros();
  }

  lemma EntitledIsGranted(c: Suite, r: Ring, sender: Handle, nick: string, m: KeyReq, now: real, w: WrapDraw,
                          newKey: Bytes, q: ReqDraw)
    requires Admissible(c, r, sender, m, now) && Entitled(c, r, sender, m.channel)
    ensures HandleKeyreq(c, r, sender, nick, Some(m), now, w, newKey, q)
         == AnswerKeyreq(c, Noted(c, r, sender, nick, m, now), sender, m, now, w, newKey, q)
  {
    AdmissibleIsTreated(c, r, sender, nick, m, now, w, newKey, q);
    EntitledIsAnswered(c, Noted(c, r, sender, nick, m, now), sender, m.channel);
    assert Entitled(c, Noted(c, r, sender, nick, m, now), sender, m.channel);
  }

  /** Over every keyring: a KEYREQ is answered exactly when it is admissible, its sender entitled to the key, and
      its ephemeral key no low-order point. */
  lemma AnsweredExactly(c: Suite, r: Ring, sender: Handle, nick: string, m: KeyReq, now: real, w: WrapDraw,
                        newKey: Bytes, q: ReqDraw)
    ensures HandleKeyreq(c, r, sender, nick, Some(m), now, w, newKey, q).1.rsp.Some?
            <==> Admissible(c, r, sender, m, now) && Entitled(c, r, sender, m.channel) && c.dh(w.eph, m.eph).Some?
  {
    if !Admissible(c, r, sender, m, now) {
      InadmissibleIsDropped(c, r, sender, nick, m, now, w, newKey, q);
    } else if Entitled(c, r, sender, m.channel) {
      EntitledIsGranted(c, r, sender, nick, m, now, w, newKey, q);
    } else if r.channels[m.channel].mode == Quiet {
      QuietDrops(c, r, sender, nick, m, now, w, newKey, q);
    } else {
      NormalCaches(c, r, sender, nick, m, now, w, newKey, q);
    }
  }

  // ---------------------------------------------------------------- what an answer does

  /** The key that is handed out: the channel's own, unless there is none or its rotation is due. */
  function KeyFor(r: Ring, channel: Channel, newKey: Bytes): Bytes {
    if channel in r.outgoing && !r.outgoing[channel].pendingRotation then r.outgoing[channel].sk else newKey
  }

  /** What handing out the channel's key to one peer leaves: a trusted row without a nick, a recipient, and the
      key, made afresh where it has to be. */
  predicate HandedOut(c: Suite, r: Ring, r1: Ring, channel: Channel, to: Handle, pub: Bytes, first: int, t: int,
                      newKey: Bytes)
  {
    var fp := c.fingerprint(pub);
    && r1.peers == r.peers[fp := Peer(pub, to, None, first, t, Trusted)]
    && r1.recipients == r.recipients[(channel, to) := Recipient(fp, t)]
    && r1.outgoing == (if channel in r.outgoing && !r.outgoing[channel].pendingRotation then r.outgoing
                       else r.outgoing[channel := Outgoing(newKey, t, false)])
  }

  /** A KEYRSP for the peer, in which that key is sealed under the exchange with the ephemeral key given. */
  predicate Hands(c: Suite, identity: Bytes, rsp: Option<Grant>, channel: Channel, to: Handle, pub: Bytes, eph: Bytes,
                  key: Bytes, w: WrapDraw)
  {
    && rsp.Some? && c.dh(w.eph, eph).Some?
    && var (g, info) := (rsp.value, Utf8.Codes("RPE2E01-WRAP:") + Utf8.Encode(channel));
       && g == Grant(channel, to, pub, key, g.msg)
       && g.msg.channel == channel && g.msg.pub == c.edPub(identity) && g.msg.eph == c.xPub(w.eph)
       && g.msg.wrapNonce == w.wrapNonce && g.msg.nonce == w.nonce
       && g.msg.wrapCt == c.seal(c.kdf(c.dh(w.eph, eph).value, info), w.wrapNonce, info, key)
       && g.msg.sig == c.sign(identity, WrapPayload(KEYRSP_TAG, g.msg))
  }

  lemma WrapLabel(channel: Channel)
    ensures WrapInfo(channel) == Utf8.Codes("RPE2E01-WRAP:") + Utf8.Encode(channel)
  {
    assert Utf8.Codes("RPE2E01-WRAP:") == WRAP_CONTEXT;
  }

  lemma BuildHandsOut(c: Suite, r: Ring, channel: Channel, to: Handle, pub: Bytes, eph: Bytes, now: real, w: WrapDraw,
                      newKey: Bytes)
    requires c.dh(w.eph, eph).Some?
    ensures var (r1, rsp) := BuildKeyrsp(c, r, channel, to, pub, eph, now, w, newKey);
            var first := if c.fingerprint(pub) in r.peers then r.peers[c.fingerprint(pub)].firstSeen else now.Floor;
            && HandedOut(c, r, r1, channel, to, pub, first, now.Floor, newKey)
            && Hands(c, r.identity, rsp, channel, to, pub, eph, KeyFor(r, channel, newKey), w)
            && r1 == r.(peers := r1.peers, recipients := r1.recipients, outgoing := r1.outgoing)
  {
    WrapLabel(channel);
  }

  /** What the client's own requests leave: the one it makes, if it makes one, in its row, with its secret. */
  predicate Asks(c: Suite, r: Ring, r1: Ring, req: Option<KeyReq>, asks: bool, channel: Channel, row: string, now: real,
                 q: ReqDraw)
  {
    if asks then
      && req == Some(OwnKeyreq(c, r.identity, channel, q))
      && r1.pending == r.pending[row := Request(q.eph, now.Floor)]
    else req == None && r1.pending == r.pending
  }

  /** The answer to an entitled request: the channel's key, sealed for the ephemeral key it names, to its sender;
      and a KEYREQ in return exactly if no session is trusted, no request is outstanding, and the last attempt is
      30 s ago. */
  lemma EntitledIsServed(c: Suite, r: Ring, sender: Handle, nick: string, m: KeyReq, now: real, w: WrapDraw,
                         newKey: Bytes, q: ReqDraw)
    requires Admissible(c, r, sender, m, now) && Entitled(c, r, sender, m.channel) && c.dh(w.eph, m.eph).Some?
    ensures var (r1, effects) := HandleKeyreq(c, r, sender, nick, Some(m), now, w, newKey, q);
            var (ch, row) := (m.channel, RequestRow(m.channel, sender));
            && effects == Effects(effects.req, effects.rsp, map[], None, false)
            && Hands(c, r.identity, effects.rsp, ch, sender, m.pub, m.eph, KeyFor(r, ch, newKey), w)
            && HandedOut(c, r, r1, ch, sender, m.pub, now.Floor, now.Floor, newKey)
            && Asks(c, r, r1, effects.req, !HasTrust(r, sender, ch) && row !in r.pending && MayAsk(r, sender, now), ch,
                    row, now, q)
            && r1.lastSent == (if MayAsk(r, sender, now) then r.lastSent[sender := now] else r.lastSent)
            && r1.buckets == r.buckets[sender := NextBucket(r, sender, now)]
            && r1.incoming == r.incoming && r1.inbound == r.inbound && r1.channels == r.channels
            && r1.autotrust == r.autotrust && r1.identity == r.identity
  {
    EntitledIsGranted(c, r, sender, nick, m, now, w, newKey, q);
    var r0 := Noted(c, r, sender, nick, m, now);
    BuildHandsOut(c, r0, m.channel, sender, m.pub, m.eph, now, w, newKey);
    var r1 := BuildKeyrsp(c, r0, m.channel, sender, m.pub, m.eph, now, w, newKey).0;
    ReciprocalAsks(c, r1, m.channel, sender, now, q);
    OverwrittenRow(c, r, r0, r1, sender, nick, m, now, newKey);
  }

  /** An entitled request whose ephemeral key is a low-order point leaves its sender pinned and gets no answer. */
  lemma LowOrderPointIsDropped(c: Suite, r: Ring, sender: Handle, nick: string, m: KeyReq, now: real, w: WrapDraw,
                               newKey: Bytes, q: ReqDraw)
    requires Admissible(c, r, sender, m, now) && Entitled(c, r, sender, m.channel) && c.dh(w.eph, m.eph).None?
    ensures HandleKeyreq(c, r, sender, nick, Some(m), now, w, newKey, q)
         == (Noted(c, r, sender, nick, m, now), Effects(None, None, map[], None, false))
  {
    EntitledIsGranted(c, r, sender, nick, m, now, w, newKey, q);
  }

  lemma OverwrittenRow(c: Suite, r: Ring, r0: Ring, r1: Ring, sender: Handle, nick: string, m: KeyReq, now: real,
                       newKey: Bytes)
    requires r0 == Noted(c, r, sender, nick, m, now)
    requires HandedOut(c, r0, r1, m.channel, sender, m.pub, now.Floor, now.Floor, newKey)
    ensures HandedOut(c, r, r1, m.channel, sender, m.pub, now.Floor, now.Floor, newKey)
  {
  }

  lemma ReciprocalAsks(c: Suite, r: Ring, channel: Channel, sender: Handle, now: real, q: ReqDraw)
    ensures var (r1, req) := Reciprocal(c, r, channel, sender, now, q);
            var row := RequestRow(channel, sender);
            && Asks(c, r, r1, req, !HasTrust(r, sender, channel) && row !in r.pending && MayAsk(r, sender, now),
                    channel, row, now, q)
            && r1.lastSent == (if MayAsk(r, sender, now) then r.lastSent[sender := now] else r.lastSent)
  {
  }

  // ---------------------------------------------------------------- the client asks of itself

  /** A line that cannot be read for want of a trusted session makes the client ask its sender for the key
      exactly if the last attempt is 30 s ago and no request younger than two minutes is outstanding. */
  lemma UnreadableLineAsks(c: Suite, r: Ring, sender: Handle, channel: Channel, now: real, q: ReqDraw)
    ensures var (r1, effects) := Step(c, r, RecvLine(sender, channel, now, q));
            var row := RequestRow(channel, sender);
            var tries := !HasTrust(r, sender, channel) && MayAsk(r, sender, now);
            && Asks(c, r, r1, effects.req, tries && Lapsed(r, row, now), channel, row, now, q)
            && effects == Effects(effects.req, None, map[], None, false)
            && r1 == r.(pending := r1.pending, lastSent := if tries then r.lastSent[sender := now] else r.lastSent)
  {
    StepIsLine(c, r, sender, channel, now, q);
    AutoAsks(c, r, sender, channel, now, q);
  }

  lemma StepIsLine(c: Suite, r: Ring, sender: Handle, channel: Channel, now: real, q: ReqDraw)
    ensures Step(c, r, RecvLine(sender, channel, now, q)) == AutoKeyreq(c, r, sender, channel, now, q)
  {
  }

  lemma AutoAsks(c: Suite, r: Ring, sender: Handle, channel: Channel, now: real, q: ReqDraw)
    ensures var (r1, effects) := AutoKeyreq(c, r, sender, channel, now, q);
            var row := RequestRow(channel, sender);
            var tries := !HasTrust(r, sender, channel) && MayAsk(r, sender, now);
            && Asks(c, r, r1, effects.req, tries && Lapsed(r, row, now), channel, row, now, q)
            && r1.lastSent == (if tries then r.lastSent[sender := now] else r.lastSent)
  {
  }

  /** `/e2e handshake` makes a request addressed to nobody, unless one younger than two minutes is outstanding. */
  lemma HandshakeAsks(c: Suite, r: Ring, channel: Channel, now: real, q: ReqDraw)
    ensures var (r1, effects) := Step(c, r, DoHandshake(channel, now, q));
            && Asks(c, r, r1, effects.req, Lapsed(r, channel, now), channel, channel, now, q)
            && effects == Effects(effects.req, None, map[], None, false)
            && r1 == r.(pending := r1.pending)
  {
  }

  /** `/e2e accept` on a cached request: it is answered like an entitled one, and the client asks back, in place of
      any request outstanding, unless it has a trusted session already. */
  lemma AcceptServes(c: Suite, r: Ring, channel: Channel, handle: Handle, now: real, w: WrapDraw, newKey: Bytes,
                     q: ReqDraw)
    requires (handle, channel) in r.inbound && c.dh(w.eph, r.inbound[(handle, channel)].eph).Some?
    ensures var (r1, effects) := Step(c, r, DoAccept(channel, handle, now, w, newKey, q));
            var m := r.inbound[(handle, channel)];
            var (fp, row) := (c.fingerprint(m.pub), RequestRow(channel, m.sender));
            && effects == Effects(effects.req, effects.rsp, map[], None, false)
            && Hands(c, r.identity, effects.rsp, channel, m.sender, m.pub, m.eph, KeyFor(r, channel, newKey), w)
            && HandedOut(c, r, r1, channel, m.sender, m.pub,
                         if fp in r.peers then r.peers[fp].firstSeen else now.Floor, now.Floor, newKey)
            && Asks(c, r.(pending := r.pending - {row}), r1, effects.req, !HasTrust(r, m.sender, channel), channel, row,
                    now, q)
            && r1 == r.(peers := r1.peers, recipients := r1.recipients, outgoing := r1.outgoing, pending := r1.pending,
                        inbound := r.inbound - {(m.sender, channel)})
  {
    var m := r.inbound[(handle, channel)];
    StepIsAccept(c, r, channel, handle, now, w, newKey, q);
    InboundServes(c, r, channel, m, now, w, newKey, q);
    InboundAsks(c, r, channel, m, now, w, newKey, q);
  }

  lemma InboundServes(c: Suite, r: Ring, channel: Channel, m: Inbound, now: real, w: WrapDraw, newKey: Bytes,
                      q: ReqDraw)
    requires c.dh(w.eph, m.eph).Some?
    ensures var (r1, effects) := AnswerInbound(c, r, channel, m, now, w, newKey, q);
            var fp := c.fingerprint(m.pub);
            && Hands(c, r.identity, effects.rsp, channel, m.sender, m.pub, m.eph, KeyFor(r, channel, newKey), w)
            && HandedOut(c, r, r1, channel, m.sender, m.pub,
                         if fp in r.peers then r.peers[fp].firstSeen else now.Floor, now.Floor, newKey)
  {
    BuildHandsOut(c, r.(inbound := r.inbound - {(m.sender, channel)}), channel, m.sender, m.pub, m.eph, now, w, newKey);
  }

  lemma InboundAsks(c: Suite, r: Ring, channel: Channel, m: Inbound, now: real, w: WrapDraw, newKey: Bytes, q: ReqDraw)
    requires c.dh(w.eph, m.eph).Some?
    ensures var (r1, effects) := AnswerInbound(c, r, channel, m, now, w, newKey, q);
            var row := RequestRow(channel, m.sender);
            Asks(c, r.(pending := r.pending - {row}), r1, effects.req, !HasTrust(r, m.sender, channel), channel, row,
                 now, q)
  {
    var r0 := r.(inbound := r.inbound - {(m.sender, channel)});
    OnAcceptAsks(c, BuildKeyrsp(c, r0, channel, m.sender, m.pub, m.eph, now, w, newKey).0, channel, m.sender, now, q);
  }

  lemma StepIsAccept(c: Suite, r: Ring, channel: Channel, handle: Handle, now: real, w: WrapDraw, newKey: Bytes,
                     q: ReqDraw)
    requires (handle, channel) in r.inbound
    ensures Step(c, r, DoAccept(channel, handle, now, w, newKey, q))
         == AnswerInbound(c, r, channel, r.inbound[(handle, channel)], now, w, newKey, q)
  {
  }

  lemma OnAcceptAsks(c: Suite, r: Ring, channel: Channel, sender: Handle, now: real, q: ReqDraw)
    ensures var (r1, req) := ReciprocalOnAccept(c, r, channel, sender, now, q);
            var row := RequestRow(channel, sender);
            Asks(c, r.(pending := r.pending - {row}), r1, req, !HasTrust(r, sender, channel), channel, row, now, q)
  {
  }

  /** Without a cached request accepting trusts the session there is, if any; a cached one whose ephemeral key is a
      low-order point is forgotten. Nothing is sent. */
  lemma AcceptOtherwise(c: Suite, r: Ring, channel: Channel, handle: Handle, now: real, w: WrapDraw, newKey: Bytes,
                        q: ReqDraw)
    requires var k := (handle, channel); k in r.inbound ==> c.dh(w.eph, r.inbound[k].eph).None?
    ensures var k := (handle, channel);
            Step(c, r, DoAccept(channel, handle, now, w, newKey, q))
            == (if k in r.inbound then r.(inbound := r.inbound - {(r.inbound[k].sender, channel)})
                else if k in r.incoming then r.(incoming := r.incoming[k := r.incoming[k].(status := Trusted)])
                else r,
                Effects(None, None, map[], None, false))
  {
  }

  // ---------------------------------------------------------------- the client says something

  /** The part of the handle before its first `@`, or all of it. */
  ghost predicate IsIdent(nick: string, handle: Handle) {
    '@' !in nick && (handle == nick || exists rest :: handle == nick + "@" + rest)
  }

  /** A REKEY with this key for this peer: to the nick on record, else to the ident of its handle, and sealed for its
      long-term key. */
  ghost predicate RekeyHands(c: Suite, identity: Bytes, n: Rekey, channel: Channel, to: Handle, row: Peer, key: Bytes,
                             d: WrapDraw)
  {
    var (g, info) := (n.grant, Utf8.Codes("RPE2E01-REKEY:") + Utf8.Encode(channel));
    && (if row.lastNick.Some? && row.lastNick.value != "" then n.nick == row.lastNick.value else IsIdent(n.nick, to))
    && g == Grant(channel, to, row.pk, key, g.msg)
    && g.msg.channel == channel && g.msg.pub == c.edPub(identity) && g.msg.eph == c.xPub(d.eph)
    && g.msg.wrapNonce == d.wrapNonce && g.msg.nonce == d.nonce
    && g.msg.wrapCt == c.seal(c.kdf(c.toPeer(d.eph, row.pk), info), d.wrapNonce, info, key)
    && g.msg.sig == c.sign(identity, WrapPayload(REKEY_TAG, g.msg))
  }

  predicate RotationDue(r: Ring, channel: Channel) {
    channel in r.outgoing && r.outgoing[channel].pendingRotation
  }

  /** This recipient of the channel has a row in the peer table. */
  predicate Recipients(r: Ring, channel: Channel, handle: Handle) {
    (channel, handle) in r.recipients && r.recipients[(channel, handle)].fp in r.peers
  }

  lemma IdentIs(handle: Handle)
    ensures IsIdent(Ident(handle), handle)
  {
    var nick := Ident(handle);
    if nick != handle {
      assert handle == nick + "@" + handle[|nick| + 1..];
    }
  }

  /** What the client types goes out under the channel's key, made afresh where there is none or its rotation is due;
      and if it was due, the new key goes to every recipient of the channel that still has a row, and to nobody
      else. On a channel that is not switched on nothing happens. */
  lemma SayingSends(c: Suite, r: Ring, channel: Channel, now: real, newKey: Bytes, draws: Handle -> WrapDraw)
    ensures var (r1, effects) := Step(c, r, Say(channel, now, newKey, draws));
            if channel in r.channels && r.channels[channel].enabled then
              && r1 == r.(outgoing := if channel in r.outgoing && !RotationDue(r, channel) then r.outgoing
                                      else r.outgoing[channel := Outgoing(newKey, now.Floor, false)])
              && effects == Effects(None, None, effects.rekeys, Some(KeyFor(r, channel, newKey)), false)
              && (forall h :: h in effects.rekeys <==> RotationDue(r, channel) && Recipients(r, channel, h))
              && (forall h <- effects.rekeys :: Recipients(r, channel, h) &&
                    RekeyHands(c, r.identity, effects.rekeys[h], channel, h, r.peers[r.recipients[(channel, h)].fp],
                               newKey, draws(h)))
            else r1 == r && effects == Effects(None, None, map[], None, false)
  {
    StepIsSay(c, r, channel, now, newKey, draws);
    if IsEnabled(r, channel) {
      var (r1, effects) := SendText(c, r, channel, now, newKey, draws);
      forall h
        ensures h in effects.rekeys <==> RotationDue(r, channel) && Recipients(r, channel, h)
      {
        if Recipients(r, channel, h) {
          assert (channel, h) in r1.recipients;
        }
      }
      forall h | h in effects.rekeys
        ensures RekeyHands(c, r.identity, effects.rekeys[h], channel, h, r.peers[r.recipients[(channel, h)].fp],
                           newKey, draws(h))
      {
        IdentIs(h);
        RekeyLabel();
      }
    }
  }

  lemma RekeyLabel()
    ensures Utf8.Codes("RPE2E01-REKEY:") == REKEY_CONTEXT
  {
  }

  lemma StepIsSay(c: Suite, r: Ring, channel: Channel, now: real, newKey: Bytes, draws: Handle -> WrapDraw)
    ensures Step(c, r, Say(channel, now, newKey, draws)) == SendText(c, r, channel, now, newKey, draws)
  {
  }

  // ---------------------------------------------------------------- a key arrives

  /** The wrapped key opens under the exchange to this key of 32 bytes. */
  ghost predicate Carries(c: Suite, shared: Option<Bytes>, info: Bytes, m: KeyWrap, key: Bytes) {
    shared.Some? && c.open(c.kdf(shared.value, info), m.wrapNonce, info, m.wrapCt) == Some(key) && |key| == 32
  }

  /** The sender is the peer this key is pinned to, or neither of the two is known; and a session of theirs has no
      other key on record. */
  ghost predicate Fits(c: Suite, r: Ring, sender: Handle, channel: Channel, pub: Bytes) {
    var fp := c.fingerprint(pub);
    && (if fp in r.peers then r.peers[fp].lastHandle == sender && !r.peers[fp].status.Revoked?
        else forall f <- r.peers :: r.peers[f].lastHandle != sender)
    && ((sender, channel) in r.incoming ==> r.incoming[(sender, channel)].fp == fp)
  }

  /** The request a KEYRSP settles: one made to this very sender first, else an unaddressed one. */
  function SettledRow(r: Ring, channel: Channel, sender: Handle): string {
    if RequestRow(channel, sender) in r.pending then RequestRow(channel, sender) else channel
  }

  /** The KEYRSP is signed by the key it names, there is a request it can settle, and that request's secret opens it
      to this key. */
  ghost predicate Settles(c: Suite, r: Ring, sender: Handle, m: KeyWrap, key: Bytes) {
    var row := SettledRow(r, m.channel, sender);
    && c.verify(m.pub, WrapPayload(KEYRSP_TAG, m), m.sig) && row in r.pending
    && Carries(c, c.dh(r.pending[row].ephSk, m.eph), Utf8.Codes("RPE2E01-WRAP:") + Utf8.Encode(m.channel), m, key)
  }

  /** What a KEYRSP does to the keyring: a signed one uses up the request it settles, whether or not it opens, and
      no other; and it installs the key it carries exactly if it opens and its sender fits. */
  lemma KeyrspInstalls(c: Suite, r: Ring, sender: Handle, m: KeyWrap, now: real, key: Bytes)
    requires Settles(c, r, sender, m, key) && Fits(c, r, sender, m.channel, m.pub)
    ensures HandleKeyrsp(c, r, sender, Some(m), now)
         == (r.(pending := r.pending - {SettledRow(r, m.channel, sender)},
                peers := r.peers[c.fingerprint(m.pub) := Peer(m.pub, sender, None, now.Floor, now.Floor, Trusted)],
                incoming := r.incoming[(sender, m.channel) :=
                                         Session(c.fingerprint(m.pub), key, Trusted, now.Floor)]),
             Effects(None, None, map[], None, true))
  {
    WrapLabel(m.channel);
    assert AnsweredRequest(r, m.channel, sender) == Some(SettledRow(r, m.channel, sender));
  }

  lemma KeyrspIsSpent(c: Suite, r: Ring, sender: Handle, m: KeyWrap, now: real)
    requires c.verify(m.pub, WrapPayload(KEYRSP_TAG, m), m.sig) && SettledRow(r, m.channel, sender) in r.pending
    requires !Fits(c, r, sender, m.channel, m.pub) || forall key :: !Settles(c, r, sender, m, key)
    ensures HandleKeyrsp(c, r, sender, Some(m), now)
         == (r.(pending := r.pending - {SettledRow(r, m.channel, sender)}), Effects(None, None, map[], None, false))
  {
    WrapLabel(m.channel);
    var row := SettledRow(r, m.channel, sender);
    assert AnsweredRequest(r, m.channel, sender) == Some(row);
    var key := OpenWrap(c, c.dh(r.pending[row].ephSk, m.eph), WrapInfo(m.channel), m);
    if key.Some? {
      assert Settles(c, r, sender, m, key.value);
    }
  }

  lemma KeyrspIsIgnored(c: Suite, r: Ring, sender: Handle, m: KeyWrap, now: real)
    requires !c.verify(m.pub, WrapPayload(KEYRSP_TAG, m), m.sig) || SettledRow(r, m.channel, sender) !in r.pending
    ensures HandleKeyrsp(c, r, sender, Some(m), now) == (r, Effects(None, None, map[], None, false))
  {
  }

  /** The REKEY is signed by the key it names, and the client's own long-term key opens it to this key. */
  ghost predicate RekeyCarries(c: Suite, r: Ring, m: KeyWrap, key: Bytes) {
    && c.verify(m.pub, WrapPayload(REKEY_TAG, m), m.sig)
    && Carries(c, c.fromPeer(r.identity, m.eph), Utf8.Codes("RPE2E01-REKEY:") + Utf8.Encode(m.channel), m, key)
  }

  /** A REKEY installs the key it carries exactly if it opens and its sender fits and is known already; otherwise it
      does nothing. */
  lemma RekeyInstalls(c: Suite, r: Ring, sender: Handle, m: KeyWrap, now: real, key: Bytes)
    requires RekeyCarries(c, r, m, key) && Fits(c, r, sender, m.channel, m.pub) && c.fingerprint(m.pub) in r.peers
    ensures HandleRekey(c, r, sender, Some(m), now)
         == (r.(incoming := r.incoming[(sender, m.channel) :=
                                         Session(c.fingerprint(m.pub), key, Trusted, now.Floor)]),
             Effects(None, None, map[], None, true))
  {
    RekeyLabel();
  }

  lemma RekeyIsIgnored(c: Suite, r: Ring, sender: Handle, m: KeyWrap, now: real)
    requires !Fits(c, r, sender, m.channel, m.pub) || c.fingerprint(m.pub) !in r.peers
             || forall key :: !RekeyCarries(c, r, m, key)
    ensures HandleRekey(c, r, sender, Some(m), now) == (r, Effects(None, None, map[], None, false))
  {
    RekeyLabel();
    var key := OpenWrap(c, c.fromPeer(r.identity, m.eph), RekeyInfo(m.channel), m);
    if key.Some? && c.verify(m.pub, WrapPayload(REKEY_TAG, m), m.sig) {
      assert RekeyCarries(c, r, m, key.value);
    }
  }
}
