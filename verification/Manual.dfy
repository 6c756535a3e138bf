/** The handshakes a user starts or finishes by hand, from the first message to the last key: `/e2e handshake`,
    and `/e2e accept` on a channel that answers nobody by itself. */
module Manual {
  import opened Basics
  import opened CryptoSuite
  import opened Payloads
  import opened Keyring
  import opened Answering
  import Limiter
  import Utf8

  // ---------------------------------------------------------------- a handed-out key opens

  /** A key that is handed out opens under the secret of the request it answers. */
  lemma HandedKeySettles(c: Suite, identity: Bytes, rsp: Option<Grant>, channel: Channel, to: Handle, pub: Bytes,
                         x: Bytes, key: Bytes, w: WrapDraw)
    requires c.Lawful() && |key| == 32 && Hands(c, identity, rsp, channel, to, pub, c.xPub(x), key, w)
    ensures var m := rsp.value.msg;
            && m.channel == channel && m.pub == c.edPub(identity)
            && c.verify(m.pub, WrapPayload(KEYRSP_TAG, m), m.sig)
            && Carries(c, c.dh(x, m.eph), Utf8.Codes("RPE2E01-WRAP:") + Utf8.Encode(channel), m, key)
  {
    var (m, info) := (rsp.value.msg, Utf8.Codes("RPE2E01-WRAP:") + Utf8.Encode(channel));
    assert c.Exchange(w.eph, x);
    assert c.Signed(identity, WrapPayload(KEYRSP_TAG, m));
    assert c.Sealed(c.kdf(c.dh(x, m.eph).value, info), w.wrapNonce, info, m.wrapCt, key);
  }

  /** So the peer's KEYRSP installs that key at whoever has the request outstanding. */
  lemma HandedKeyInstalls(c: Suite, r: Ring, identity: Bytes, rsp: Option<Grant>, channel: Channel, to: Handle,
                          pub: Bytes, x: Bytes, key: Bytes, w: WrapDraw, sender: Handle, now: real)
    requires c.Lawful() && |key| == 32 && Hands(c, identity, rsp, channel, to, pub, c.xPub(x), key, w)
    requires SettledRow(r, channel, sender) in r.pending && r.pending[SettledRow(r, channel, sender)].ephSk == x
    requires Fits(c, r, sender, channel, c.edPub(identity))
    ensures var (fp, t) := (c.fingerprint(c.edPub(identity)), now.Floor);
            Step(c, r, RecvKeyrsp(sender, Some(rsp.value.msg), now))
            == (r.(pending := r.pending - {SettledRow(r, channel, sender)},
                   peers := r.peers[fp := Peer(c.edPub(identity), sender, None, t, t, Trusted)],
                   incoming := r.incoming[(sender, channel) := Session(fp, key, Trusted, t)]),
                Effects(None, None, map[], None, true))
  {
    HandedKeySettles(c, identity, rsp, channel, to, pub, x, key, w);
    StepIsKeyrsp(c, r, sender, rsp.value.msg, now);
    KeyrspInstalls(c, r, sender, rsp.value.msg, now, key);
  }

  lemma StepIsKeyrsp(c: Suite, r: Ring, sender: Handle, m: KeyWrap, now: real)
    ensures Step(c, r, RecvKeyrsp(sender, Some(m), now)) == HandleKeyrsp(c, r, sender, Some(m), now)
  {
  }

  lemma StepIsKeyreq(c: Suite, r: Ring, sender: Handle, nick: string, m: KeyReq, now: real, w: WrapDraw, newKey: Bytes,
                     q: ReqDraw)
    ensures Step(c, r, RecvKeyreq(sender, nick, Some(m), now, w, newKey, q))
         == HandleKeyreq(c, r, sender, nick, Some(m), now, w, newKey, q)
  {
  }

  predicate SizedKey(r: Ring, channel: Channel, newKey: Bytes) {
    |newKey| == 32 && (channel in r.outgoing ==> |r.outgoing[channel].sk| == 32)
  }

  // ---------------------------------------------------------------- `/e2e handshake`

  /** What installing the peer's channel key leaves: a trusted session with it, and the settled request gone. */
  predicate Installed(c: Suite, r: Ring, r1: Ring, channel: Channel, sender: Handle, identity: Bytes, key: Bytes,
                      row: string, t: int)
  {
    && r1.incoming == r.incoming[(sender, channel) := Session(c.fingerprint(c.edPub(identity)), key, Trusted, t)]
    && r1.pending == r.pending - {row}
  }

  /** The user asks, addressing nobody; the KEYRSP a peer makes for that KEYREQ installs the peer's channel key
      and settles the request, and no other request. */
  lemma HandshakeSucceeds(c: Suite, r: Ring, peer: Ring, channel: Channel, me: Handle, sender: Handle, asked: real,
                          q: ReqDraw, answered: real, w: WrapDraw, newKey: Bytes, arrived: real)
    requires c.Lawful() && SizedKey(peer, channel, newKey)
    requires Lapsed(r, channel, asked) && Fits(c, r, sender, channel, c.edPub(peer.identity))
    requires sender != "" && channel + "\U{1f}" + sender !in r.pending
    ensures var (r1, asking) := Step(c, r, DoHandshake(channel, asked, q));
            && asking.req.Some? && channel in r1.pending
            && var m := asking.req.value;
               var (peer1, rsp) := BuildKeyrsp(c, peer, channel, me, m.pub, m.eph, answered, w, newKey);
               && rsp.Some? && channel in peer1.outgoing
               && var (r2, settled) := Step(c, r1, RecvKeyrsp(sender, Some(rsp.value.msg), arrived));
                  && settled.installed
                  && Installed(c, r1, r2, channel, sender, peer.identity, peer1.outgoing[channel].sk, channel,
                               arrived.Floor)
  {
    var (r1, asking) := Step(c, r, DoHandshake(channel, asked, q));
    HandshakeAsks(c, r, channel, asked, q);
    AddressedElsewhere(channel, sender);
    AnswerInstalls(c, r1, peer, channel, me, sender, r.identity, q, channel, answered, w, newKey, arrived);
  }

  /** The rows of a request to one peer and of an unaddressed one are two. */
  lemma AddressedElsewhere(channel: Channel, sender: Handle)
    ensures sender != "" ==> RequestRow(channel, sender) == channel + "\U{1f}" + sender != channel
  {
    assert |channel + "\U{1f}" + sender| > |channel|;
  }

  /** The answer that `BuildKeyrsp` makes for the KEYREQ with this secret. */
  lemma AnswerInstalls(c: Suite, r: Ring, peer: Ring, channel: Channel, me: Handle, sender: Handle, identity: Bytes,
                       q: ReqDraw, row: string, answered: real, w: WrapDraw, newKey: Bytes, arrived: real)
    requires c.Lawful() && SizedKey(peer, channel, newKey)
    requires Fits(c, r, sender, channel, c.edPub(peer.identity))
    requires row == SettledRow(r, channel, sender) && row in r.pending && r.pending[row].ephSk == q.eph
    ensures var m := OwnKeyreq(c, identity, channel, q);
            var (peer1, rsp) := BuildKeyrsp(c, peer, channel, me, m.pub, m.eph, answered, w, newKey);
            && rsp.Some? && channel in peer1.outgoing
            && var (r1, settled) := Step(c, r, RecvKeyrsp(sender, Some(rsp.value.msg), arrived));
               && settled.installed
               && Installed(c, r, r1, channel, sender, peer.identity, peer1.outgoing[channel].sk, row, arrived.Floor)
  {
    var m := OwnKeyreq(c, identity, channel, q);
    PeerServes(c, peer, channel, me, m.pub, q.eph, answered, w, newKey);
    var (peer1, rsp) := BuildKeyrsp(c, peer, channel, me, m.pub, m.eph, answered, w, newKey);
    HandedKeyInstalls(c, r, peer.identity, rsp, channel, me, m.pub, q.eph, peer1.outgoing[channel].sk, w, sender,
                      arrived);
  }

  lemma PeerServes(c: Suite, peer: Ring, channel: Channel, me: Handle, pub: Bytes, x: Bytes, now: real, w: WrapDraw,
                   newKey: Bytes)
    requires c.Lawful() && SizedKey(peer, channel, newKey)
    ensures var (peer1, rsp) := BuildKeyrsp(c, peer, channel, me, pub, c.xPub(x), now, w, newKey);
            && channel in peer1.outgoing && |peer1.outgoing[channel].sk| == 32
            && Hands(c, peer.identity, rsp, channel, me, pub, c.xPub(x), peer1.outgoing[channel].sk, w)
  {
    assert c.Exchange(w.eph, x);
    BuildHandsOut(c, peer, channel, me, pub, c.xPub(x), now, w, newKey);
  }

  /** With an unaddressed request and one to this very peer outstanding, the answer to the latter installs the
      peer's key, settles it, and leaves the former for whoever else answers. */
  lemma AddressedGoesFirst(c: Suite, r: Ring, peer: Ring, channel: Channel, me: Handle, sender: Handle,
                           q: ReqDraw, answered: real, w: WrapDraw, newKey: Bytes, arrived: real)
    requires c.Lawful() && SizedKey(peer, channel, newKey)
    requires Fits(c, r, sender, channel, c.edPub(peer.identity))
    requires sender != "" && channel in r.pending && channel + "\U{1f}" + sender in r.pending
    requires r.pending[channel + "\U{1f}" + sender].ephSk == q.eph
    ensures var (addressed, m) := (channel + "\U{1f}" + sender, OwnKeyreq(c, r.identity, channel, q));
            var (peer1, rsp) := BuildKeyrsp(c, peer, channel, me, m.pub, m.eph, answered, w, newKey);
            && rsp.Some? && channel in peer1.outgoing
            && var (r1, settled) := Step(c, r, RecvKeyrsp(sender, Some(rsp.value.msg), arrived));
               && settled.installed
               && Installed(c, r, r1, channel, sender, peer.identity, peer1.outgoing[channel].sk, addressed,
                            arrived.Floor)
               && channel in r1.pending && addressed !in r1.pending
  {
    AddressedElsewhere(channel, sender);
    AnswerInstalls(c, r, peer, channel, me, sender, r.identity, q, RequestRow(channel, sender), answered, w, newKey,
                   arrived);
  }

  // ---------------------------------------------------------------- `/e2e accept`

  /** A peer and its KEYREQ on a channel in normal mode, with all that is drawn at random on the way: `me` is our
      handle as the peer sees it, `to` whom its request is made to, us or nobody. */
  datatype Meeting = Meeting(c: Suite, channel: Channel, me: Handle, peer: Handle, to: Handle, ask: ReqDraw,
                             w: WrapDraw, newKey: Bytes, back: ReqDraw, peerW: WrapDraw, peerKey: Bytes,
                             spareW: WrapDraw, spareKey: Bytes, spareQ: ReqDraw)

  predicate AcceptsFrom(r: Ring, handle: Handle, now: real) {
    Limiter.Decide(if handle in r.buckets then r.buckets[handle] else Limiter.Bucket([], 0.0), now).1.Accepted?
  }

  /** The peer's request is made, waits for the user here, and is accepted. */
  lemma AcceptSends(k: Meeting, r: Ring, peerNick: string, m: KeyReq, received: real, accepted: real)
      returns (r1: Ring, r2: Ring, effects: Effects)
    requires k.c.Lawful() && SizedKey(r, k.channel, k.newKey) && m.channel == k.channel && m.eph == k.c.xPub(k.ask.eph)
    requires Admissible(k.c, r, k.peer, m, received) && !Entitled(k.c, r, k.peer, k.channel)
    requires r.channels[k.channel].mode == Normal
    ensures Step(k.c, r, RecvKeyreq(k.peer, peerNick, Some(m), received, k.spareW, k.spareKey, k.spareQ))
         == (r1, Effects(None, None, map[], None, false))
    ensures (r2, effects) == Step(k.c, r1, DoAccept(k.channel, k.peer, accepted, k.w, k.newKey, k.back))
    ensures effects.req == Some(OwnKeyreq(k.c, r.identity, k.channel, k.back))
    ensures k.channel in r2.outgoing && |r2.outgoing[k.channel].sk| == 32
    ensures Hands(k.c, r.identity, effects.rsp, k.channel, k.peer, m.pub, m.eph, r2.outgoing[k.channel].sk, k.w)
    ensures Fits(k.c, r2, k.peer, k.channel, m.pub)
    ensures RequestRow(k.channel, k.peer) in r2.pending && r2.pending[RequestRow(k.channel, k.peer)].ephSk == k.back.eph
  {
    r1 := CachedAt(k, r, peerNick, m, received);
    r2, effects := AcceptedAt(k, r1, m, received, accepted);
  }

  lemma CachedAt(k: Meeting, r: Ring, peerNick: string, m: KeyReq, received: real) returns (r1: Ring)
    requires m.channel == k.channel
    requires Admissible(k.c, r, k.peer, m, received) && !Entitled(k.c, r, k.peer, k.channel)
    requires r.channels[k.channel].mode == Normal
    ensures Step(k.c, r, RecvKeyreq(k.peer, peerNick, Some(m), received, k.spareW, k.spareKey, k.spareQ))
         == (r1, Effects(None, None, map[], None, false))
    ensures r1.identity == r.identity && r1.outgoing == r.outgoing
    ensures Waits(k, r1, m, received)
  {
    StepIsKeyreq(k.c, r, k.peer, peerNick, m, received, k.spareW, k.spareKey, k.spareQ);
    NormalCaches(k.c, r, k.peer, peerNick, m, received, k.spareW, k.spareKey, k.spareQ);
    r1 := HandleKeyreq(k.c, r, k.peer, peerNick, Some(m), received, k.spareW, k.spareKey, k.spareQ).0;
  }

  /** The request waits for the user behind a session that is not trusted. */
  predicate Waits(k: Meeting, r: Ring, m: KeyReq, received: real) {
    && (k.peer, k.channel) in r.inbound && (k.peer, k.channel) in r.incoming
    && r.inbound[(k.peer, k.channel)] == Inbound(k.peer, m.pub, m.eph, m.nonce, m.sig, received.Floor)
    && r.incoming[(k.peer, k.channel)].fp == k.c.fingerprint(m.pub)
    && r.incoming[(k.peer, k.channel)].status == Pending
  }

  lemma AcceptedAt(k: Meeting, r: Ring, m: KeyReq, received: real, accepted: real) returns (r1: Ring, effects: Effects)
    requires k.c.Lawful() && SizedKey(r, k.channel, k.newKey) && m.eph == k.c.xPub(k.ask.eph)
    requires Waits(k, r, m, received)
    ensures (r1, effects) == Step(k.c, r, DoAccept(k.channel, k.peer, accepted, k.w, k.newKey, k.back))
    ensures effects.req == Some(OwnKeyreq(k.c, r.identity, k.channel, k.back))
    ensures k.channel in r1.outgoing && |r1.outgoing[k.channel].sk| == 32
    ensures Hands(k.c, r.identity, effects.rsp, k.channel, k.peer, m.pub, m.eph, r1.outgoing[k.channel].sk, k.w)
    ensures Fits(k.c, r1, k.peer, k.channel, m.pub)
    ensures RequestRow(k.channel, k.peer) in r1.pending && r1.pending[RequestRow(k.channel, k.peer)].ephSk == k.back.eph
  {
    assert k.c.Exchange(k.w.eph, k.ask.eph);
    AcceptServes(k.c, r, k.channel, k.peer, accepted, k.w, k.newKey, k.back);
    var out := Step(k.c, r, DoAccept(k.channel, k.peer, accepted, k.w, k.newKey, k.back));
    r1, effects := out.0, out.1;
  }

  /** The session that the other side's key is installed as. */
  function KeySession(c: Suite, identity: Bytes, key: Bytes, t: int): Session {
    Session(c.fingerprint(c.edPub(identity)), key, Trusted, t)
  }

  lemma PeerAsks(k: Meeting, p: Ring, asked: real)
    requires Lapsed(p, RequestRow(k.channel, k.to), asked)
    requires k.to == k.me || (k.to == "" && RequestRow(k.channel, k.me) !in p.pending)
    ensures var (p1, m) := BuildKeyreq(k.c, p, k.channel, k.to, asked, k.ask);
            && m == Some(OwnKeyreq(k.c, p.identity, k.channel, k.ask))
            && p1 == p.(pending := p.pending[RequestRow(k.channel, k.to) := Request(k.ask.eph, asked.Floor)])
            && SettledRow(p1, k.channel, k.me) == RequestRow(k.channel, k.to)
  {
  }

  /** Our KEYRSP gives the peer our key. */
  lemma PeerGetsKey(k: Meeting, p: Ring, identity: Bytes, rsp: Option<Grant>, to: Handle, pub: Bytes, key: Bytes,
                    arrived: real) returns (p1: Ring)
    requires k.c.Lawful() && |key| == 32
    requires Hands(k.c, identity, rsp, k.channel, to, pub, k.c.xPub(k.ask.eph), key, k.w)
    requires var row := SettledRow(p, k.channel, k.me); row in p.pending && p.pending[row].ephSk == k.ask.eph
    requires Fits(k.c, p, k.me, k.channel, k.c.edPub(identity))
    ensures Step(k.c, p, RecvKeyrsp(k.me, Some(rsp.value.msg), arrived)) == (p1, Effects(None, None, map[], None, true))
    ensures p1.incoming == p.incoming[(k.me, k.channel) := KeySession(k.c, identity, key, arrived.Floor)]
    ensures p1.outgoing == p.outgoing && p1.channels == p.channels && p1.buckets == p.buckets
    ensures p1.identity == p.identity
    ensures var fp := k.c.fingerprint(k.c.edPub(identity));
            fp in p1.peers && p1.peers[fp].lastHandle == k.me && p1.peers[fp].status == Trusted
  {
    HandedKeyInstalls(k.c, p, identity, rsp, k.channel, to, pub, k.ask.eph, key, k.w, k.me, arrived);
    p1 := Step(k.c, p, RecvKeyrsp(k.me, Some(rsp.value.msg), arrived)).0;
  }

  /** The peer trusts us now, so whatever its mode it answers our KEYREQ, and has no need to ask back. */
  lemma PeerAnswers(k: Meeting, p: Ring, identity: Bytes, nick: string, answered: real)
      returns (p1: Ring, effects: Effects)
    requires k.c.Lawful() && SizedKey(p, k.channel, k.peerKey)
    requires HasTrust(p, k.me, k.channel)
    requires Admissible(k.c, p, k.me, OwnKeyreq(k.c, identity, k.channel, k.back), answered)
    ensures var m := OwnKeyreq(k.c, identity, k.channel, k.back);
            && Step(k.c, p, RecvKeyreq(k.me, nick, Some(m), answered, k.peerW, k.peerKey, k.spareQ)) == (p1, effects)
            && effects == Effects(None, effects.rsp, map[], None, false)
            && k.channel in p1.outgoing && |p1.outgoing[k.channel].sk| == 32
            && Hands(k.c, p.identity, effects.rsp, k.channel, k.me, m.pub, m.eph, p1.outgoing[k.channel].sk, k.peerW)
    ensures p1.incoming == p.incoming
  {
    var m := OwnKeyreq(k.c, identity, k.channel, k.back);
    assert k.c.Exchange(k.peerW.eph, k.back.eph);
    StepIsKeyreq(k.c, p, k.me, nick, m, answered, k.peerW, k.peerKey, k.spareQ);
    EntitledIsServed(k.c, p, k.me, nick, m, answered, k.peerW, k.peerKey, k.spareQ);
    var out := HandleKeyreq(k.c, p, k.me, nick, Some(m), answered, k.peerW, k.peerKey, k.spareQ);
    p1, effects := out.0, out.1;
  }

  lemma OwnKeyreqIsGenuine(c: Suite, identity: Bytes, channel: Channel, q: ReqDraw)
    requires c.Lawful()
    ensures var m := OwnKeyreq(c, identity, channel, q);
            m.channel == channel && m.pub == c.edPub(identity) && m.eph == c.xPub(q.eph)
            && c.verify(m.pub, ReqPayload(m), m.sig)
  {
    var m := OwnKeyreq(c, identity, channel, q);
    assert c.Signed(identity, ReqPayload(m));
  }

  /** What the peer does with the two messages that `/e2e accept` sends it. */
  lemma PeerSide(k: Meeting, p: Ring, identity: Bytes, accepting: Effects, pub: Bytes, key: Bytes, nick: string,
                 settled: real, answered: real) returns (p1: Ring, p2: Ring, answering: Effects)
    requires k.c.Lawful() && |key| == 32 && SizedKey(p, k.channel, k.peerKey)
    requires Hands(k.c, identity, accepting.rsp, k.channel, k.peer, pub, k.c.xPub(k.ask.eph), key, k.w)
    requires accepting.req == Some(OwnKeyreq(k.c, identity, k.channel, k.back))
    requires var row := SettledRow(p, k.channel, k.me); row in p.pending && p.pending[row].ephSk == k.ask.eph
    requires Fits(k.c, p, k.me, k.channel, k.c.edPub(identity))
    requires k.channel in p.channels && p.channels[k.channel].enabled && AcceptsFrom(p, k.me, answered)
    ensures Step(k.c, p, RecvKeyrsp(k.me, Some(accepting.rsp.value.msg), settled))
         == (p1, Effects(None, None, map[], None, true))
    ensures Step(k.c, p1, RecvKeyreq(k.me, nick, accepting.req, answered, k.peerW, k.peerKey, k.spareQ))
         == (p2, answering)
    ensures answering.req.None? && k.channel in p2.outgoing && |p2.outgoing[k.channel].sk| == 32
    ensures Hands(k.c, p.identity, answering.rsp, k.channel, k.me, k.c.edPub(identity), k.c.xPub(k.back.eph),
                  p2.outgoing[k.channel].sk, k.peerW)
    ensures p2.incoming == p.incoming[(k.me, k.channel) := KeySession(k.c, identity, key, settled.Floor)]
  {
    p1 := PeerGetsKey(k, p, identity, accepting.rsp, k.peer, pub, key, settled);
    OwnKeyreqIsGenuine(k.c, identity, k.channel, k.back);
    p2, answering := PeerAnswers(k, p1, identity, nick, answered);
  }

  /** We are in normal mode and would not answer the peer by ourselves; the peer has no older request that our answer
      would settle, and neither side knows the other's key or handle otherwise. */
  ghost predicate MayMeet(k: Meeting, r: Ring, p: Ring, asked: real, received: real, answered: real) {
    && k.c.Lawful() && SizedKey(r, k.channel, k.newKey) && SizedKey(p, k.channel, k.peerKey)
    && Lapsed(p, RequestRow(k.channel, k.to), asked)
    && (k.to == k.me || (k.to == "" && RequestRow(k.channel, k.me) !in p.pending))
    && Fits(k.c, p, k.me, k.channel, k.c.edPub(r.identity))
    && k.channel in p.channels && p.channels[k.channel].enabled && AcceptsFrom(p, k.me, answered)
    && Admissible(k.c, r, k.peer, OwnKeyreq(k.c, p.identity, k.channel, k.ask), received)
    && !Entitled(k.c, r, k.peer, k.channel) && r.channels[k.channel].mode == Normal
  }

  /** Such sides exist: two fresh clients that have switched the channel on. */
  lemma SuchMeetingsExist()
    ensures var (draw, wrap) := (ReqDraw(Zeros(32), Zeros(16)), WrapDraw(Zeros(32), Zeros(24), Zeros(16)));
            var k := Meeting(ToySuite(), "#c", "me@h", "a@h", "", draw, wrap, Zeros(32), draw, wrap, Ones(32), wrap,
                             Zeros(32), draw);
            var on := map["#c" := Settings(true, Normal)];
            MayMeet(k, EmptyRing(Zeros(32)).(channels := on), EmptyRing(Ones(32)).(channels := on), 1.0, 1.0, 1.0)
  {
    LawsCanHold();
    assert Limiter.Live([], 1.0) == [];
  }

  /** A peer asks for the key of a channel in normal mode, its request waits, and the user accepts it: the KEYRSP
      gives the peer our channel key, and the KEYREQ that goes with it brings us the peer's, whatever mode the peer
      is in. In the end each side has a trusted session with the other's channel key. */
  lemma AcceptCompletes(k: Meeting, r: Ring, p: Ring, nick: string, peerNick: string, asked: real, received: real,
                        accepted: real, settled: real, answered: real, ended: real)
      returns (p1: Ring, r1: Ring, r2: Ring, accepting: Effects, p2: Ring, p3: Ring, answering: Effects, r3: Ring)
    requires MayMeet(k, r, p, asked, received, answered)
    ensures var m := OwnKeyreq(k.c, p.identity, k.channel, k.ask);
            && BuildKeyreq(k.c, p, k.channel, k.to, asked, k.ask) == (p1, Some(m))
            && Step(k.c, r, RecvKeyreq(k.peer, peerNick, Some(m), received, k.spareW, k.spareKey, k.spareQ))
               == (r1, Effects(None, None, map[], None, false))
    ensures (r2, accepting) == Step(k.c, r1, DoAccept(k.channel, k.peer, accepted, k.w, k.newKey, k.back))
    ensures accepting.rsp.Some? && accepting.req.Some?
    ensures Step(k.c, p1, RecvKeyrsp(k.me, Some(accepting.rsp.value.msg), settled))
         == (p2, Effects(None, None, map[], None, true))
    ensures Step(k.c, p2, RecvKeyreq(k.me, nick, accepting.req, answered, k.peerW, k.peerKey, k.spareQ))
         == (p3, answering)
    ensures answering.rsp.Some? && answering.req.None?
    ensures Step(k.c, r2, RecvKeyrsp(k.peer, Some(answering.rsp.value.msg), ended))
         == (r3, Effects(None, None, map[], None, true))
    ensures k.channel in r3.outgoing && (k.me, k.channel) in p3.incoming
         && p3.incoming[(k.me, k.channel)] == KeySession(k.c, r.identity, r3.outgoing[k.channel].sk, settled.Floor)
    ensures k.channel in p3.outgoing && (k.peer, k.channel) in r3.incoming
         && r3.incoming[(k.peer, k.channel)] == KeySession(k.c, p.identity, p3.outgoing[k.channel].sk, ended.Floor)
  {
    var m := OwnKeyreq(k.c, p.identity, k.channel, k.ask);
    OwnKeyreqIsGenuine(k.c, p.identity, k.channel, k.ask);
    PeerAsks(k, p, asked);
    p1 := p.(pending := p.pending[RequestRow(k.channel, k.to) := Request(k.ask.eph, asked.Floor)]);
    r1, r2, accepting := AcceptSends(k, r, peerNick, m, received, accepted);
    p2, p3, answering := PeerSide(k, p1, r.identity, accepting, m.pub, r2.outgoing[k.channel].sk, nick, settled,
                                  answered);
    r3 := WeGetKey(k, r2, p.identity, answering.rsp, k.c.edPub(r.identity), p3.outgoing[k.channel].sk, ended);
  }

  lemma WeGetKey(k: Meeting, r: Ring, identity: Bytes, rsp: Option<Grant>, pub: Bytes, key: Bytes, ended: real)
      returns (r1: Ring)
    requires k.c.Lawful() && |key| == 32
    requires Hands(k.c, identity, rsp, k.channel, k.me, pub, k.c.xPub(k.back.eph), key, k.peerW)
    requires var row := RequestRow(k.channel, k.peer); row in r.pending && r.pending[row].ephSk == k.back.eph
    requires Fits(k.c, r, k.peer, k.channel, k.c.edPub(identity))
    ensures Step(k.c, r, RecvKeyrsp(k.peer, Some(rsp.value.msg), ended)) == (r1, Effects(None, None, map[], None, true))
    ensures r1.outgoing == r.outgoing
    ensures r1.incoming == r.incoming[(k.peer, k.channel) := KeySession(k.c, identity, key, ended.Floor)]
  {
    HandedKeyInstalls(k.c, r, identity, rsp, k.channel, k.me, pub, k.back.eph, key, k.peerW, k.peer, ended);
    r1 := Step(k.c, r, RecvKeyrsp(k.peer, Some(rsp.value.msg), ended)).0;
  }
}
