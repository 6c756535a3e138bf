/** Two clients, one channel in auto-accept mode, and a network that delivers every message once, in
    any order: the handshake always ends with each side holding the other's channel key. */
module Convergence {
  import opened Basics
  import opened CryptoSuite
  import opened Payloads
  import opened Keyring
  import opened Wrapping
  import Limiter

  datatype Side = Left | Right {
    function Other(): Side {
      if Left? then Right else Left
    }
  }

  /** What a run keeps fixed. */
  datatype Setup = Setup(c: Suite, channel: Channel, leftHandle: Handle, rightHandle: Handle) {
    function HandleOf(x: Side): Handle {
      if x.Left? then leftHandle else rightHandle
    }

    ghost predicate Valid() {
      c.Lawful() && leftHandle != "" && rightHandle != ""
    }
  }

  datatype Body = Req(req: KeyReq) | Rsp(rsp: KeyWrap)
  datatype Packet = Packet(to: Side, body: Body)

  /** The messages under way, and how many of each kind were sent and how many delivered. */
  datatype Traffic = Traffic(bag: multiset<Packet>, reqs: nat, rsps: nat, delivered: nat)

  const NO_TRAFFIC := Traffic(multiset{}, 0, 0, 0)

  datatype Net = Net(left: Ring, right: Ring, traffic: Traffic) {
    function Of(x: Side): Ring {
      if x.Left? then left else right
    }

    function Update(x: Side, r: Ring): Net {
      if x.Left? then this.(left := r) else this.(right := r)
    }
  }

  /** An encrypted line makes a side ask for the key, or a message under way arrives. */
  datatype Action =
    | Issue(side: Side, now: real, q: ReqDraw)
    | Deliver(packet: Packet, nick: string, now: real, w: WrapDraw, newKey: Bytes, q: ReqDraw)

  /** The side's request, if it has one, is not so old that the side would give it up for a new one. */
  predicate StillWaits(r: Ring, channel: Channel, peer: Handle, now: real) {
    var k := PendingKey(channel, peer);
    k in r.pending ==> Seconds(now) - r.pending[k].createdAt < PENDING_KEYREQ_TTL
  }

  /** Any message under way may arrive, at any time; a side may ask at any time, only not after its
      request has been under way for two minutes. */
  predicate Enabled(s: Setup, n: Net, a: Action) {
    && a.now >= KEYREQ_MIN_INTERVAL
    && (a.Issue? ==> StillWaits(n.Of(a.side), s.channel, s.HandleOf(a.side.Other()), a.now))
    && (a.Deliver? ==> a.packet in n.traffic.bag && |a.newKey| == KEY_LEN)
  }

  function TakeOff(t: Traffic, p: Packet): Traffic {
    t.(bag := t.bag - multiset{p}, delivered := t.delivered + 1)
  }

  function SendRsp(t: Traffic, x: Side, rsp: Option<Grant>): Traffic {
    if rsp.None? then t
    else t.(bag := t.bag + multiset{Packet(x.Other(), Rsp(rsp.value.msg))}, rsps := t.rsps + 1)
  }

  function SendReq(t: Traffic, x: Side, req: Option<KeyReq>): Traffic {
    if req.None? then t
    else t.(bag := t.bag + multiset{Packet(x.Other(), Req(req.value))}, reqs := t.reqs + 1)
  }

  /** Puts what a step of one side sends on its way to the other. */
  function Post(t: Traffic, x: Side, rsp: Option<Grant>, req: Option<KeyReq>): Traffic {
    SendReq(SendRsp(t, x, rsp), x, req)
  }

  /** The keyring event an action amounts to. */
  function EventOf(s: Setup, a: Action): (Side, Event) {
    match a
    case Issue(x, now, q) => (x, RecvLine(s.HandleOf(x.Other()), s.channel, now, q))
    case Deliver(p, nick, now, w, newKey, q) =>
      match p.body
      case Req(m) => (p.to, RecvKeyreq(s.HandleOf(p.to.Other()), nick, Some(m), now, w, newKey, q))
      case Rsp(m) => (p.to, RecvKeyrsp(s.HandleOf(p.to.Other()), Some(m), now))
  }

  function Next(s: Setup, n: Net, a: Action): Net {
    var (x, e) := EventOf(s, a);
    var (r, effects) := Step(s.c, n.Of(x), e);
    var t := if a.Deliver? then TakeOff(n.traffic, a.packet) else n.traffic;
    n.Update(x, r).(traffic := Post(t, x, effects.rsp, effects.req))
  }

  /** All states along a sequence of enabled actions. */
  ghost predicate IsRun(s: Setup, states: seq<Net>, actions: seq<Action>) {
    && |states| == |actions| + 1
    && forall i | 0 <= i < |actions| ::
         Enabled(s, states[i], actions[i]) && states[i + 1] == Next(s, states[i], actions[i])
  }

  /** An empty keyring with the channel switched to auto-accept. */
  predicate FreshAuto(r: Ring, channel: Channel) {
    && r == EmptyRing(r.identity).(channels := r.channels, autotrust := r.autotrust)
    && IsEnabled(r, channel) && (r.channels[channel].mode.AutoAccept? || r.channels[channel].mode.Auto?)
  }

  predicate Init(s: Setup, n: Net) {
    FreshAuto(n.left, s.channel) && FreshAuto(n.right, s.channel)
    && n.traffic == NO_TRAFFIC
  }

  // ---------------------------------------------------------------- how far each side has got

  /** Where a side's own request is: not made, on its way, answered with the answer on its way, settled. */
  datatype Phase = Idle | Asked(ephSk: Bytes, req: KeyReq) | Answered(ephSk: Bytes, rsp: KeyWrap) | Done

  datatype Progress = Progress(left: Phase, right: Phase) {
    function Of(x: Side): Phase {
      if x.Left? then left else right
    }

    function Update(x: Side, p: Phase): Progress {
      if x.Left? then this.(left := p) else this.(right := p)
    }
  }

  predicate Waiting(p: Phase) {
    p.Asked? || p.Answered?
  }

  predicate WasAnswered(p: Phase) {
    p.Answered? || p.Done?
  }

  function InFlight(x: Side, p: Phase): multiset<Packet> {
    match p
    case Asked(_, req) => multiset{Packet(x.Other(), Req(req))}
    case Answered(_, rsp) => multiset{Packet(x, Rsp(rsp))}
    case _ => multiset{}
  }

  /** Nobody but this peer is known, and it is in good standing. */
  ghost predicate KnowsOnly(peers: map<Bytes, Peer>, fp: Bytes, peer: Handle) {
    forall f <- peers :: f == fp && peers[f].lastHandle == peer && !peers[f].status.Revoked?
  }

  /** What one keyring looks like throughout: it knows of nobody but the other side. */
  ghost predicate Settled(s: Setup, r: Ring, peer: Handle, peerPub: Bytes) {
    && IsEnabled(r, s.channel) && (r.channels[s.channel].mode.AutoAccept? || r.channels[s.channel].mode.Auto?)
    && KnowsOnly(r.peers, s.c.fingerprint(peerPub), peer)
    && (forall k <- r.incoming :: k == (peer, s.channel))
    && (s.channel in r.outgoing ==> |r.outgoing[s.channel].sk| == KEY_LEN && !r.outgoing[s.channel].pendingRotation)
  }

  /** The side's own request, as its keyring records it. */
  ghost predicate Recorded(s: Setup, r: Ring, peer: Handle, p: Phase) {
    && r.pending.Keys == (if Waiting(p) then {PendingKey(s.channel, peer)} else {})
    && (Waiting(p) ==> r.pending[PendingKey(s.channel, peer)].ephSk == p.ephSk)
    && ((peer, s.channel) in r.incoming <==> p.Done?)
    && (p.Idle? ==> peer !in r.lastSent)
  }

  /** A message under way, or the session it led to, is the genuine one. */
  ghost predicate Genuine(s: Setup, r: Ring, p: Phase, peerRing: Ring, peer: Handle) {
    match p
    case Idle => true
    case Asked(ephSk, req) =>
      && req.channel == s.channel && req.pub == s.c.edPub(r.identity) && req.eph == s.c.xPub(ephSk)
      && s.c.verify(req.pub, ReqPayload(req), req.sig)
    case Answered(ephSk, rsp) =>
      && rsp.channel == s.channel && rsp.pub == s.c.edPub(peerRing.identity)
      && s.c.verify(rsp.pub, WrapPayload(KEYRSP_TAG, rsp), rsp.sig)
      && s.channel in peerRing.outgoing
      && OpenWrap(s.c, s.c.dh(ephSk, rsp.eph), WrapInfo(s.channel), rsp) == Some(peerRing.outgoing[s.channel].sk)
    case Done =>
      && s.channel in peerRing.outgoing
      && Holds(s, r, peer, peerRing)
  }

  /** The side has a trusted session for its peer, with the peer's identity and channel key. */
  ghost predicate Holds(s: Setup, r: Ring, peer: Handle, peerRing: Ring) {
    && IsTrusted(r, peer, s.channel) && s.channel in peerRing.outgoing
    && r.incoming[(peer, s.channel)].sk == peerRing.outgoing[s.channel].sk
    && r.incoming[(peer, s.channel)].fp == s.c.fingerprint(s.c.edPub(peerRing.identity))
  }

  /** The peer's row holds its key and no nick, and once the peer's request is answered the peer is a
      recipient of the channel. */
  ghost predicate Registered(s: Setup, r: Ring, peer: Handle, pub: Bytes, answered: bool) {
    var fp := s.c.fingerprint(pub);
    && (forall f <- r.peers :: r.peers[f].pk == pub && r.peers[f].lastNick == None)
    && (answered ==>
          && fp in r.peers && (s.channel, peer) in r.recipients && r.recipients[(s.channel, peer)].fp == fp)
  }

  /** One side's keyring against its phase and the other side's. */
  ghost predicate SideInv(s: Setup, r: Ring, peerRing: Ring, peer: Handle, p: Phase, peerPhase: Phase) {
    && Settled(s, r, peer, s.c.edPub(peerRing.identity))
    && Recorded(s, r, peer, p)
    && Genuine(s, r, p, peerRing, peer)
    && (!WasAnswered(peerPhase) ==> BucketOf(r, peer) == Limiter.FRESH_BUCKET)
    && (WasAnswered(peerPhase) ==> !p.Idle?)
    && Registered(s, r, peer, s.c.edPub(peerRing.identity), WasAnswered(peerPhase))
  }

  ghost predicate BothSides(s: Setup, n: Net, g: Progress) {
    && SideInv(s, n.left, n.right, s.rightHandle, g.left, g.right)
    && SideInv(s, n.right, n.left, s.leftHandle, g.right, g.left)
  }

  function One(b: bool): nat {
    if b then 1 else 0
  }

  /** The messages under way and the counters follow from the phases. */
  predicate Counted(t: Traffic, g: Progress) {
    && t.bag == InFlight(Left, g.left) + InFlight(Right, g.right)
    && t.reqs == One(!g.left.Idle?) + One(!g.right.Idle?)
    && t.rsps == One(WasAnswered(g.left)) + One(WasAnswered(g.right))
    && t.delivered == t.rsps + One(g.left.Done?) + One(g.right.Done?)
  }

  ghost predicate Inv(s: Setup, n: Net, g: Progress) {
    BothSides(s, n, g) && Counted(n.traffic, g)
  }

  // ---------------------------------------------------------------- one keyring, one step

  /** A side that has asked for nothing sends its KEYREQ and remembers the secret. */
  lemma FirstRequest(s: Setup, r: Ring, peer: Handle, now: real, q: ReqDraw)
    requires s.Valid() && now >= KEYREQ_MIN_INTERVAL && Recorded(s, r, peer, Idle)
    ensures var (r1, req) := BuildKeyreq(s.c, AllowOutgoing(r, peer, now).0, s.channel, peer, now, q);
            && AllowOutgoing(r, peer, now).1
            && req.Some?
            && r1.incoming == r.incoming
            && Recorded(s, r1, peer, Asked(q.eph, req.value))
            && forall peerRing :: Genuine(s, r1, Asked(q.eph, req.value), peerRing, peer)
  {
    var (r1, req) := BuildKeyreq(s.c, AllowOutgoing(r, peer, now).0, s.channel, peer, now, q);
    assert r.pending == map[];
    assert s.c.Signed(r.identity, ReqPayload(req.value));
  }

  /** A side that has asked already, or has the key, asks no more; at most it notes another attempt. */
  lemma NoSecondRequest(s: Setup, r: Ring, peer: Handle, p: Phase, now: real, q: ReqDraw)
    requires Recorded(s, r, peer, p) && !p.Idle? && (p.Done? ==> IsTrusted(r, peer, s.channel))
    ensures var (r1, req) := Reciprocal(s.c, r, s.channel, peer, now, q);
            r1 == r.(lastSent := r1.lastSent) && req == None
    ensures StillWaits(r, s.channel, peer, now) ==>
              var (r1, effects) := AutoKeyreq(s.c, r, peer, s.channel, now, q);
              r1 == r.(lastSent := r1.lastSent) && effects == SILENT
  {
  }

  /** A request two minutes old is given up: the next encrypted line, unless the last attempt is less than
      30 s old, makes the side send a KEYREQ more. So the bound on the age is exactly what it takes. */
  lemma OverdueAsksAgain(s: Setup, r: Ring, peer: Handle, p: Phase, now: real, q: ReqDraw)
    requires Recorded(s, r, peer, p) && Waiting(p) && AllowOutgoing(r, peer, now).1
    ensures AutoKeyreq(s.c, r, peer, s.channel, now, q).1.req.Some? <==> !StillWaits(r, s.channel, peer, now)
  {
    assert PendingKey(s.channel, peer) in r.pending;
  }

  lemma SolePeerPasses(peers: map<Bytes, Peer>, fp: Bytes, peer: Handle)
    requires KnowsOnly(peers, fp, peer)
    ensures Classify(peers, fp, peer).Known? || Classify(peers, fp, peer).New?
  {
  }

  /** A change of the peer table alone, at the sole peer's row. */
  lemma RewritingSolePeer(peers: map<Bytes, Peer>, fp: Bytes, peer: Handle, row: Peer)
    requires KnowsOnly(peers, fp, peer) && row.lastHandle == peer && !row.status.Revoked?
    ensures KnowsOnly(peers[fp := row], fp, peer)
  {
  }

  lemma PinningKeepsSettled(s: Setup, r: Ring, peer: Handle, nick: string, m: KeyReq, now: int, bucket: Limiter.Bucket)
    requires Settled(s, r, peer, m.pub)
    ensures Settled(s, PinPeer(s.c, r.(buckets := r.buckets[peer := bucket]), peer, nick, m, now), peer, m.pub)
  {
    RewritingSolePeer(r.peers, s.c.fingerprint(m.pub), peer, Peer(m.pub, peer, Some(nick), now, now, Pending));
  }

  /** A genuine KEYREQ of the peer that the limiter lets through passes every other guard and is answered. */
  lemma RequestIsAnswered(s: Setup, r: Ring, peer: Handle, nick: string, m: KeyReq, now: real, w: WrapDraw,
                          newKey: Bytes, q: ReqDraw)
    requires Settled(s, r, peer, m.pub) && Limiter.Decide(BucketOf(r, peer), now).1.Accepted?
    requires m.channel == s.channel && s.c.verify(m.pub, ReqPayload(m), m.sig)
    ensures var bucket := Limiter.Decide(BucketOf(r, peer), now).0;
            var r1 := PinPeer(s.c, r.(buckets := r.buckets[peer := bucket]), peer, nick, m, Seconds(now));
            HandleKeyreq(s.c, r, peer, nick, Some(m), now, w, newKey, q)
            == AnswerKeyreq(s.c, r1, peer, m, now, w, newKey, q)
  {
    var bucket := Limiter.Decide(BucketOf(r, peer), now).0;
    var r0 := r.(buckets := r.buckets[peer := bucket]);
    SolePeerPasses(r.peers, s.c.fingerprint(m.pub), peer);
    assert HandleKeyreq(s.c, r, peer, nick, Some(m), now, w, newKey, q)
        == AdmitKeyreq(s.c, r0, peer, nick, m, now, w, newKey, q);
    OpenModeAnswers(s, PinPeer(s.c, r0, peer, nick, m, Seconds(now)), peer, m, now, w, newKey, q);
  }

  lemma FreshBucketAccepts(now: real)
    ensures Limiter.Decide(Limiter.FRESH_BUCKET, now) == (Limiter.Bucket([now], 0.0), Limiter.Accepted)
  {
    assert Limiter.Live([], now) == [] && [] + [now] == [now];
  }

  lemma OpenModeAnswers(s: Setup, r: Ring, peer: Handle, m: KeyReq, now: real, w: WrapDraw, newKey: Bytes, q: ReqDraw)
    requires m.channel == s.channel && s.channel in r.channels
    requires r.channels[s.channel].mode.AutoAccept? || r.channels[s.channel].mode.Auto?
    ensures TreatKeyreq(s.c, r, peer, m, now, w, newKey, q) == AnswerKeyreq(s.c, r, peer, m, now, w, newKey, q)
  {
    var mode := EffectiveMode(s.c, r, peer, s.channel);
    assert mode.AutoAccept? || mode.Auto?;
  }

  lemma KeyOfRightSize(outgoing: map<Channel, Outgoing>, channel: Channel, now: real, newKey: Bytes)
    requires |newKey| == KEY_LEN && (channel in outgoing ==> |outgoing[channel].sk| == KEY_LEN)
    ensures |ChannelKey(outgoing, channel, now, newKey).0[channel].sk| == KEY_LEN
  {
  }

  lemma GrantKeepsSettled(s: Setup, r: Ring, peer: Handle, pub: Bytes, eph: Bytes, now: real, w: WrapDraw,
                          newKey: Bytes)
    requires |newKey| == KEY_LEN && Settled(s, r, peer, pub)
    ensures Settled(s, BuildKeyrsp(s.c, r, s.channel, peer, pub, eph, now, w, newKey).0, peer, pub)
  {
    var (r1, rsp) := BuildKeyrsp(s.c, r, s.channel, peer, pub, eph, now, w, newKey);
    if rsp.Some? {
      var fp := s.c.fingerprint(pub);
      var first := if fp in r.peers then r.peers[fp].firstSeen else Seconds(now);
      var row := Peer(pub, peer, None, first, Seconds(now), Trusted);
      RewritingSolePeer(r.peers, fp, peer, row);
      assert r1.peers == r.peers[fp := row];
      KeyOfRightSize(r.outgoing, s.channel, now, newKey);
    }
  }

  /** Whoever is answered is registered. */
  lemma AnswerRegisters(s: Setup, r: Ring, peer: Handle, m: KeyReq, now: real, w: WrapDraw, newKey: Bytes, q: ReqDraw)
    requires m.channel == s.channel && KnowsOnly(r.peers, s.c.fingerprint(m.pub), peer)
    requires AnswerKeyreq(s.c, r, peer, m, now, w, newKey, q).1.rsp.Some?
    ensures Registered(s, AnswerKeyreq(s.c, r, peer, m, now, w, newKey, q).0, peer, m.pub, true)
  {
    var r1 := BuildKeyrsp(s.c, r, s.channel, peer, m.pub, m.eph, now, w, newKey).0;
    assert Registered(s, r1, peer, m.pub, true);
  }

  lemma InstallKeepsRegistered(s: Setup, r: Ring, r1: Ring, peer: Handle, pub: Bytes, answered: bool, t: int)
    requires KnowsOnly(r.peers, s.c.fingerprint(pub), peer) && Registered(s, r, peer, pub, answered)
    requires r1.recipients == r.recipients
    requires r1.peers == r.peers[s.c.fingerprint(pub) := Peer(pub, peer, None, t, t, Trusted)]
    ensures Registered(s, r1, peer, pub, answered)
  {
  }

  /** Answering hands out the channel key under the request's ephemeral key and leaves the rest alone. */
  lemma AnswerHandsOutKey(s: Setup, r: Ring, peer: Handle, m: KeyReq, ephSk: Bytes, now: real, w: WrapDraw,
                          newKey: Bytes)
    requires s.Valid() && |newKey| == KEY_LEN && Settled(s, r, peer, m.pub) && m.eph == s.c.xPub(ephSk)
    ensures var (r1, rsp) := BuildKeyrsp(s.c, r, s.channel, peer, m.pub, m.eph, now, w, newKey);
            && rsp.Some?
            && s.channel in r1.outgoing && (s.channel in r.outgoing ==> r1.outgoing == r.outgoing)
            && forall asker: Ring, to :: Genuine(s, asker, Answered(ephSk, rsp.value.msg), r1, to)
  {
    KeyrspCarriesKey(s.c, r, s.channel, peer, m.pub, ephSk, now, w, newKey);
  }

  /** The answer to our outstanding request installs the responder's channel key. */
  lemma AnswerIsInstalled(s: Setup, r: Ring, peer: Handle, p: Phase, peerRing: Ring, now: real)
    requires s.Valid() && p.Answered?
    requires Settled(s, r, peer, s.c.edPub(peerRing.identity))
    requires Recorded(s, r, peer, p) && Genuine(s, r, p, peerRing, peer)
    ensures var (r1, effects) := HandleKeyrsp(s.c, r, peer, Some(p.rsp), now);
            && effects == SILENT.(installed := true)
            && Settled(s, r1, peer, s.c.edPub(peerRing.identity))
            && Recorded(s, r1, peer, Done) && Genuine(s, r1, Done, peerRing, peer)
            && r1.outgoing == r.outgoing && r1.identity == r.identity && r1.buckets == r.buckets
            && r1.recipients == r.recipients
            && r1.peers == r.peers[s.c.fingerprint(p.rsp.pub) :=
                                     Peer(p.rsp.pub, peer, None, Seconds(now), Seconds(now), Trusted)]
  {
    var m := p.rsp;
    var k := PendingKey(s.channel, peer);
    assert AnsweredRequest(r, m.channel, peer) == Some(k);
    var key := OpenWrap(s.c, s.c.dh(p.ephSk, m.eph), WrapInfo(m.channel), m);
    var fp := s.c.fingerprint(m.pub);
    SolePeerPasses(r.peers, fp, peer);
    var t := Seconds(now);
    RewritingSolePeer(r.peers, fp, peer, Peer(m.pub, peer, None, t, t, Trusted));
    assert HandleKeyrsp(s.c, r, peer, Some(m), now) ==
           (r.(pending := r.pending - {k},
               peers := r.peers[fp := Peer(m.pub, peer, None, t, t, Trusted)],
               incoming := r.incoming[(peer, m.channel) := Session(fp, key.value, Trusted, t)]),
            SILENT.(installed := true));
  }

  /** The side's own phase after answering: whoever had not asked yet asks now. */
  function AfterAnswering(p: Phase, q: ReqDraw, req: Option<KeyReq>): Phase {
    if p.Idle? && req.Some? then Asked(q.eph, req.value) else p
  }

  /** What the side says of its own request depends on few parts of its keyring. */
  lemma GenuineFrame(s: Setup, r: Ring, r1: Ring, p: Phase, peerRing: Ring, peer: Handle)
    requires Genuine(s, r, p, peerRing, peer) && r1.identity == r.identity && r1.incoming == r.incoming
    ensures Genuine(s, r1, p, peerRing, peer)
  {
  }

  /** Nor does the peer's view of us change while our identity and channel key stay. */
  lemma GenuinePeerFrame(s: Setup, r: Ring, p: Phase, peerRing: Ring, peerRing1: Ring, peer: Handle)
    requires Genuine(s, r, p, peerRing, peer) && peerRing1.identity == peerRing.identity
    requires s.channel in peerRing.outgoing ==>
               s.channel in peerRing1.outgoing && peerRing1.outgoing[s.channel].sk == peerRing.outgoing[s.channel].sk
    ensures Genuine(s, r, p, peerRing1, peer)
  {
  }

  /** Asking back on the occasion of an answer. */
  lemma ReciprocalOutcome(s: Setup, r: Ring, peer: Handle, p: Phase, now: real, q: ReqDraw)
    requires s.Valid() && now >= KEYREQ_MIN_INTERVAL && Recorded(s, r, peer, p)
    requires p.Done? ==> IsTrusted(r, peer, s.channel)
    ensures var (r1, req) := Reciprocal(s.c, r, s.channel, peer, now, q);
            && (req.Some? <==> p.Idle?) && Recorded(s, r1, peer, AfterAnswering(p, q, req))
            && (p.Idle? ==> forall peerRing :: Genuine(s, r1, AfterAnswering(p, q, req), peerRing, peer))
  {
    if p.Idle? {
      FirstRequest(s, r, peer, now, q);
      assert Reciprocal(s.c, r, s.channel, peer, now, q)
          == BuildKeyreq(s.c, AllowOutgoing(r, peer, now).0, s.channel, peer, now, q);
    } else {
      NoSecondRequest(s, r, peer, p, now, q);
    }
  }

  lemma AnswerOutcome(s: Setup, r: Ring, peer: Handle, p: Phase, m: KeyReq, ephSk: Bytes, now: real, w: WrapDraw,
                      newKey: Bytes, q: ReqDraw)
    requires s.Valid() && now >= KEYREQ_MIN_INTERVAL && |newKey| == KEY_LEN
    requires m.channel == s.channel && m.eph == s.c.xPub(ephSk)
    requires Settled(s, r, peer, m.pub) && Recorded(s, r, peer, p)
    requires p.Done? ==> IsTrusted(r, peer, s.channel)
    ensures var (r1, effects) := AnswerKeyreq(s.c, r, peer, m, now, w, newKey, q);
            && effects.rsp.Some? && (effects.req.Some? <==> p.Idle?)
            && Settled(s, r1, peer, m.pub)
            && Recorded(s, r1, peer, AfterAnswering(p, q, effects.req))
            && s.channel in r1.outgoing && (s.channel in r.outgoing ==> r1.outgoing == r.outgoing)
            && (forall asker: Ring, to :: Genuine(s, asker, Answered(ephSk, effects.rsp.value.msg), r1, to))
            && (p.Idle? ==> forall peerRing :: Genuine(s, r1, AfterAnswering(p, q, effects.req), peerRing, peer))
  {
    AnswerHandsOutKey(s, r, peer, m, ephSk, now, w, newKey);
    GrantKeepsSettled(s, r, peer, m.pub, m.eph, now, w, newKey);
    var (r1, rsp) := BuildKeyrsp(s.c, r, s.channel, peer, m.pub, m.eph, now, w, newKey);
    ReciprocalOutcome(s, r1, peer, p, now, q);
    var r2 := Reciprocal(s.c, r1, s.channel, peer, now, q).0;
    SameSettings(s, r1, r2, peer, m.pub);
    forall asker: Ring, to
      ensures Genuine(s, asker, Answered(ephSk, rsp.value.msg), r2, to)
    {
      GenuinePeerFrame(s, asker, Answered(ephSk, rsp.value.msg), r1, r2, to);
    }
  }

  lemma SameSettings(s: Setup, r: Ring, r1: Ring, peer: Handle, pub: Bytes)
    requires Settled(s, r, peer, pub) && r1 == r.(pending := r1.pending, lastSent := r1.lastSent)
    ensures Settled(s, r1, peer, pub)
  {
  }

  // ---------------------------------------------------------------- the network

  /** The sides as seen from one of them. */
  lemma SidesFrom(s: Setup, n: Net, g: Progress, x: Side)
    ensures BothSides(s, n, g) <==>
            && SideInv(s, n.Of(x), n.Of(x.Other()), s.HandleOf(x.Other()), g.Of(x), g.Of(x.Other()))
            && SideInv(s, n.Of(x.Other()), n.Of(x), s.HandleOf(x), g.Of(x.Other()), g.Of(x))
  {
  }

  lemma IssueCounts(t: Traffic, g: Progress, x: Side, ephSk: Bytes, req: KeyReq)
    requires Counted(t, g) && g.Of(x).Idle?
    ensures Counted(SendReq(t, x, Some(req)), g.Update(x, Asked(ephSk, req)))
  {
  }

  lemma ResponseCounts(t: Traffic, g: Progress, x: Side)
    requires Counted(t, g) && g.Of(x).Answered?
    ensures Counted(TakeOff(t, Packet(x, Rsp(g.Of(x).rsp))), g.Update(x, Done))
  {
  }

  /** The bookkeeping as seen from one side. */
  predicate CountedFrom(t: Traffic, x: Side, own: Phase, other: Phase) {
    && t.bag == InFlight(x, own) + InFlight(x.Other(), other)
    && t.reqs == One(!own.Idle?) + One(!other.Idle?)
    && t.rsps == One(WasAnswered(own)) + One(WasAnswered(other))
    && t.delivered == t.rsps + One(own.Done?) + One(other.Done?)
  }

  lemma EitherSideCounts(t: Traffic, g: Progress, x: Side)
    ensures Counted(t, g) <==> CountedFrom(t, x, g.Of(x), g.Of(x.Other()))
  {
  }

  lemma AnsweredCounts(t: Traffic, x: Side, own: Phase, asked: Phase, rsp: Grant)
    requires CountedFrom(t, x, own, asked) && asked.Asked?
    ensures CountedFrom(SendRsp(TakeOff(t, Packet(x, Req(asked.req))), x, Some(rsp)), x, own,
                        Answered(asked.ephSk, rsp.msg))
  {
    var rest := InFlight(x, own);
    assert t.bag - multiset{Packet(x, Req(asked.req))} == rest;
  }

  lemma RequestCounts(t: Traffic, g: Progress, x: Side, rsp: Grant)
    requires Counted(t, g) && g.Of(x.Other()).Asked?
    ensures var p := g.Of(x.Other());
            Counted(SendRsp(TakeOff(t, Packet(x, Req(p.req))), x, Some(rsp)),
                    g.Update(x.Other(), Answered(p.ephSk, rsp.msg)))
  {
    var p := g.Of(x.Other());
    EitherSideCounts(t, g, x);
    AnsweredCounts(t, x, g.Of(x), p, rsp);
    EitherSideCounts(SendRsp(TakeOff(t, Packet(x, Req(p.req))), x, Some(rsp)),
                     g.Update(x.Other(), Answered(p.ephSk, rsp.msg)), x);
  }

  /** A message under way names the phase of the side it belongs to. */
  lemma PacketNamesPhase(t: Traffic, g: Progress, p: Packet)
    requires Counted(t, g) && p in t.bag
    ensures match p.body
            case Req(m) => g.Of(p.to.Other()).Asked? && g.Of(p.to.Other()).req == m
            case Rsp(m) => g.Of(p.to).Answered? && g.Of(p.to).rsp == m
  {
  }

  lemma FirstRequestKeepsSides(s: Setup, r: Ring, peerRing: Ring, self: Handle, peer: Handle, peerPhase: Phase,
                               now: real, q: ReqDraw)
    requires s.Valid() && now >= KEYREQ_MIN_INTERVAL
    requires SideInv(s, r, peerRing, peer, Idle, peerPhase) && SideInv(s, peerRing, r, self, peerPhase, Idle)
    ensures var (r1, effects) := AutoKeyreq(s.c, r, peer, s.channel, now, q);
            && effects.req.Some? && effects == SILENT.(req := effects.req)
            && SideInv(s, r1, peerRing, peer, Asked(q.eph, effects.req.value), peerPhase)
            && SideInv(s, peerRing, r1, self, peerPhase, Asked(q.eph, effects.req.value))
  {
    FirstRequest(s, r, peer, now, q);
    var (r1, req) := BuildKeyreq(s.c, AllowOutgoing(r, peer, now).0, s.channel, peer, now, q);
    assert AutoKeyreq(s.c, r, peer, s.channel, now, q) == (r1, SILENT.(req := req));
    SameSettings(s, r, r1, peer, s.c.edPub(peerRing.identity));
    GenuinePeerFrame(s, peerRing, peerPhase, r, r1, self);
  }

  lemma RetryKeepsSides(s: Setup, r: Ring, peerRing: Ring, self: Handle, peer: Handle, p: Phase, peerPhase: Phase,
                        now: real, q: ReqDraw)
    requires !p.Idle? && StillWaits(r, s.channel, peer, now)
    requires SideInv(s, r, peerRing, peer, p, peerPhase) && SideInv(s, peerRing, r, self, peerPhase, p)
    ensures var (r1, effects) := AutoKeyreq(s.c, r, peer, s.channel, now, q);
            && effects == SILENT
            && SideInv(s, r1, peerRing, peer, p, peerPhase) && SideInv(s, peerRing, r1, self, peerPhase, p)
  {
    NoSecondRequest(s, r, peer, p, now, q);
    NotedAttempt(s, r, AutoKeyreq(s.c, r, peer, s.channel, now, q).0, peerRing, self, peer, p, peerPhase);
  }

  lemma NotedAttempt(s: Setup, r: Ring, r1: Ring, peerRing: Ring, self: Handle, peer: Handle, p: Phase,
                     peerPhase: Phase)
    requires !p.Idle? && r1 == r.(lastSent := r1.lastSent)
    requires SideInv(s, r, peerRing, peer, p, peerPhase) && SideInv(s, peerRing, r, self, peerPhase, p)
    ensures SideInv(s, r1, peerRing, peer, p, peerPhase) && SideInv(s, peerRing, r1, self, peerPhase, p)
  {
    SameSettings(s, r, r1, peer, s.c.edPub(peerRing.identity));
    GenuineFrame(s, r, r1, p, peerRing, peer);
    GenuinePeerFrame(s, peerRing, peerPhase, r, r1, self);
  }

  lemma NextOnIssue(s: Setup, n: Net, a: Action)
    requires a.Issue?
    ensures var x := a.side;
            var (r1, effects) := AutoKeyreq(s.c, n.Of(x), s.HandleOf(x.Other()), s.channel, a.now, a.q);
            && Next(s, n, a).traffic == SendReq(n.traffic, x, effects.req)
            && Next(s, n, a).Of(x) == r1 && Next(s, n, a).Of(x.Other()) == n.Of(x.Other())
  {
  }

  lemma IssueKeepsInv(s: Setup, n: Net, g: Progress, a: Action) returns (g1: Progress)
    requires s.Valid() && Inv(s, n, g) && Enabled(s, n, a) && a.Issue?
    ensures Inv(s, Next(s, n, a), g1)
    ensures g.Of(a.side).Idle? ==> g1.Of(a.side).Asked? && g1.Of(a.side.Other()) == g.Of(a.side.Other())
  {
    var x, y := a.side, a.side.Other();
    var peer := s.HandleOf(y);
    NextOnIssue(s, n, a);
    SidesFrom(s, n, g, x);
    g1 := g;
    if g.Of(x).Idle? {
      FirstRequestKeepsSides(s, n.Of(x), n.Of(y), s.HandleOf(x), peer, g.Of(y), a.now, a.q);
      var effects := AutoKeyreq(s.c, n.Of(x), peer, s.channel, a.now, a.q).1;
      g1 := g.Update(x, Asked(a.q.eph, effects.req.value));
      IssueCounts(n.traffic, g, x, a.q.eph, effects.req.value);
    } else {
      RetryKeepsSides(s, n.Of(x), n.Of(y), s.HandleOf(x), peer, g.Of(x), g.Of(y), a.now, a.q);
    }
    SidesFrom(s, Next(s, n, a), g1, x);
  }

  /** The asker, seen against the keyring of the side that has answered. */
  lemma AskerOnAnswer(s: Setup, peerRing: Ring, r: Ring, r1: Ring, self: Handle, asked: Phase, p: Phase, p1: Phase,
                      rsp: KeyWrap)
    requires SideInv(s, peerRing, r, self, asked, p) && asked.Asked? && r1.identity == r.identity
    requires Genuine(s, peerRing, Answered(asked.ephSk, rsp), r1, self) && (WasAnswered(p1) <==> WasAnswered(p))
    ensures SideInv(s, peerRing, r1, self, Answered(asked.ephSk, rsp), p1)
  {
  }

  /** The answer itself, given by a side that has put the request through its guards. */
  lemma AnswerKeepsSides(s: Setup, r: Ring, r0: Ring, peerRing: Ring, self: Handle, peer: Handle, p: Phase,
                         peerPhase: Phase, now: real, w: WrapDraw, newKey: Bytes, q: ReqDraw)
    requires s.Valid() && now >= KEYREQ_MIN_INTERVAL && |newKey| == KEY_LEN && peerPhase.Asked?
    requires SideInv(s, r, peerRing, peer, p, peerPhase) && SideInv(s, peerRing, r, self, peerPhase, p)
    requires r0 == r.(peers := r0.peers, buckets := r0.buckets) && Settled(s, r0, peer, peerPhase.req.pub)
    ensures var (r1, effects) := AnswerKeyreq(s.c, r0, peer, peerPhase.req, now, w, newKey, q);
            && effects.rsp.Some? && (effects.req.Some? <==> p.Idle?)
            && SideInv(s, r1, peerRing, peer, AfterAnswering(p, q, effects.req),
                       Answered(peerPhase.ephSk, effects.rsp.value.msg))
            && SideInv(s, peerRing, r1, self, Answered(peerPhase.ephSk, effects.rsp.value.msg),
                       AfterAnswering(p, q, effects.req))
  {
    var m := peerPhase.req;
    assert Recorded(s, r0, peer, p);
    AnswerOutcome(s, r0, peer, p, m, peerPhase.ephSk, now, w, newKey, q);
    AnswerRegisters(s, r0, peer, m, now, w, newKey, q);
    var (r1, effects) := AnswerKeyreq(s.c, r0, peer, m, now, w, newKey, q);
    if !p.Idle? {
      GenuineFrame(s, r, r1, p, peerRing, peer);
    }
    AskerOnAnswer(s, peerRing, r, r1, self, peerPhase, p, AfterAnswering(p, q, effects.req), effects.rsp.value.msg);
  }

  /** A request arrives: the asker's phase moves on, and the answerer asks in turn if it had not. */
  lemma AnsweringKeepsSides(s: Setup, r: Ring, peerRing: Ring, self: Handle, peer: Handle, p: Phase, peerPhase: Phase,
                            nick: string, now: real, w: WrapDraw, newKey: Bytes, q: ReqDraw)
    requires s.Valid() && now >= KEYREQ_MIN_INTERVAL && |newKey| == KEY_LEN && peerPhase.Asked?
    requires SideInv(s, r, peerRing, peer, p, peerPhase) && SideInv(s, peerRing, r, self, peerPhase, p)
    ensures var (r1, effects) := HandleKeyreq(s.c, r, peer, nick, Some(peerPhase.req), now, w, newKey, q);
            && effects.rsp.Some? && (effects.req.Some? <==> p.Idle?)
            && SideInv(s, r1, peerRing, peer, AfterAnswering(p, q, effects.req),
                       Answered(peerPhase.ephSk, effects.rsp.value.msg))
            && SideInv(s, peerRing, r1, self, Answered(peerPhase.ephSk, effects.rsp.value.msg),
                       AfterAnswering(p, q, effects.req))
  {
    var m := peerPhase.req;
    FreshBucketAccepts(now);
    RequestIsAnswered(s, r, peer, nick, m, now, w, newKey, q);
    var bucket := Limiter.Decide(Limiter.FRESH_BUCKET, now).0;
    var r0 := PinPeer(s.c, r.(buckets := r.buckets[peer := bucket]), peer, nick, m, Seconds(now));
    PinningKeepsSettled(s, r, peer, nick, m, Seconds(now), bucket);
    AnswerKeepsSides(s, r, r0, peerRing, self, peer, p, peerPhase, now, w, newKey, q);
  }

  lemma AnsweringCounts(t: Traffic, g: Progress, x: Side, rsp: Grant, req: Option<KeyReq>, q: ReqDraw)
    requires Counted(t, g) && g.Of(x.Other()).Asked? && (req.Some? <==> g.Of(x).Idle?)
    ensures var p := g.Of(x.Other());
            Counted(Post(TakeOff(t, Packet(x, Req(p.req))), x, Some(rsp), req),
                    g.Update(x.Other(), Answered(p.ephSk, rsp.msg)).Update(x, AfterAnswering(g.Of(x), q, req)))
  {
    var p := g.Of(x.Other());
    var t1 := SendRsp(TakeOff(t, Packet(x, Req(p.req))), x, Some(rsp));
    var g1 := g.Update(x.Other(), Answered(p.ephSk, rsp.msg));
    RequestCounts(t, g, x, rsp);
    assert g1.Of(x) == g.Of(x);
    if req.Some? {
      IssueCounts(t1, g1, x, q.eph, req.value);
    } else {
      assert g1.Update(x, g.Of(x)) == g1;
    }
  }

  lemma NextOnRequest(s: Setup, n: Net, a: Action)
    requires a.Deliver? && a.packet.body.Req?
    ensures var x := a.packet.to;
            var (r1, effects) := HandleKeyreq(s.c, n.Of(x), s.HandleOf(x.Other()), a.nick, Some(a.packet.body.req),
                                              a.now, a.w, a.newKey, a.q);
            && Next(s, n, a).traffic == Post(TakeOff(n.traffic, a.packet), x, effects.rsp, effects.req)
            && Next(s, n, a).Of(x) == r1 && Next(s, n, a).Of(x.Other()) == n.Of(x.Other())
  {
  }

  lemma NextOnResponse(s: Setup, n: Net, a: Action)
    requires a.Deliver? && a.packet.body.Rsp?
    ensures var x := a.packet.to;
            var (r1, effects) := HandleKeyrsp(s.c, n.Of(x), s.HandleOf(x.Other()), Some(a.packet.body.rsp), a.now);
            && Next(s, n, a).traffic == TakeOff(n.traffic, a.packet)
            && Next(s, n, a).Of(x) == r1 && Next(s, n, a).Of(x.Other()) == n.Of(x.Other())
  {
  }

  lemma RequestKeepsInv(s: Setup, n: Net, g: Progress, a: Action) returns (g1: Progress)
    requires s.Valid() && Inv(s, n, g) && Enabled(s, n, a) && a.Deliver? && a.packet.body.Req?
    ensures Inv(s, Next(s, n, a), g1)
    ensures g1.Of(a.packet.to.Other()).Answered?
    ensures g.Of(a.packet.to).Idle? ==> g1.Of(a.packet.to).Asked? && g1.Of(a.packet.to).ephSk == a.q.eph
  {
    var x, y := a.packet.to, a.packet.to.Other();
    PacketNamesPhase(n.traffic, g, a.packet);
    SidesFrom(s, n, g, x);
    var py, m := g.Of(y), a.packet.body.req;
    AnsweringKeepsSides(s, n.Of(x), n.Of(y), s.HandleOf(x), s.HandleOf(y), g.Of(x), py, a.nick, a.now, a.w, a.newKey,
                        a.q);
    var (r1, effects) := HandleKeyreq(s.c, n.Of(x), s.HandleOf(y), a.nick, Some(m), a.now, a.w, a.newKey, a.q);
    g1 := g.Update(y, Answered(py.ephSk, effects.rsp.value.msg)).Update(x, AfterAnswering(g.Of(x), a.q, effects.req));
    NextOnRequest(s, n, a);
    SidesFrom(s, Next(s, n, a), g1, x);
    AnsweringCounts(n.traffic, g, x, effects.rsp.value, effects.req, a.q);
  }

  lemma InstallingKeepsSides(s: Setup, r: Ring, peerRing: Ring, self: Handle, peer: Handle, p: Phase, peerPhase: Phase,
                             now: real)
    requires s.Valid() && p.Answered?
    requires SideInv(s, r, peerRing, peer, p, peerPhase) && SideInv(s, peerRing, r, self, peerPhase, p)
    ensures var (r1, effects) := HandleKeyrsp(s.c, r, peer, Some(p.rsp), now);
            && effects == SILENT.(installed := true)
            && SideInv(s, r1, peerRing, peer, Done, peerPhase)
            && SideInv(s, peerRing, r1, self, peerPhase, Done)
  {
    AnswerIsInstalled(s, r, peer, p, peerRing, now);
    var r1 := HandleKeyrsp(s.c, r, peer, Some(p.rsp), now).0;
    GenuinePeerFrame(s, peerRing, peerPhase, r, r1, self);
    InstallKeepsRegistered(s, r, r1, peer, p.rsp.pub, WasAnswered(peerPhase), Seconds(now));
  }

  lemma ResponseKeepsInv(s: Setup, n: Net, g: Progress, a: Action) returns (g1: Progress)
    requires s.Valid() && Inv(s, n, g) && Enabled(s, n, a) && a.Deliver? && a.packet.body.Rsp?
    ensures Inv(s, Next(s, n, a), g1) && g1 == g.Update(a.packet.to, Done)
  {
    var x, y := a.packet.to, a.packet.to.Other();
    PacketNamesPhase(n.traffic, g, a.packet);
    SidesFrom(s, n, g, x);
    var p := g.Of(x);
    InstallingKeepsSides(s, n.Of(x), n.Of(y), s.HandleOf(x), s.HandleOf(y), p, g.Of(y), a.now);
    var r1 := HandleKeyrsp(s.c, n.Of(x), s.HandleOf(y), Some(p.rsp), a.now).0;
    g1 := g.Update(x, Done);
    NextOnResponse(s, n, a);
    ResponseCounts(n.traffic, g, x);
    SidesFrom(s, Next(s, n, a), g1, x);
  }

  lemma NextKeepsInv(s: Setup, n: Net, g: Progress, a: Action) returns (g1: Progress)
    requires s.Valid() && Inv(s, n, g) && Enabled(s, n, a)
    ensures Inv(s, Next(s, n, a), g1)
  {
    if a.Issue? {
      g1 := IssueKeepsInv(s, n, g, a);
    } else if a.packet.body.Req? {
      g1 := RequestKeepsInv(s, n, g, a);
    } else {
      g1 := ResponseKeepsInv(s, n, g, a);
    }
  }

  lemma {:induction false} RunKeepsInv(s: Setup, states: seq<Net>, actions: seq<Action>) returns (g: Progress)
    requires s.Valid() && IsRun(s, states, actions) && Init(s, states[0])
    ensures Inv(s, states[|actions|], g)
  {
    if actions == [] {
      g := Progress(Idle, Idle);
    } else {
      var k := |actions| - 1;
      var g0 := RunKeepsInv(s, states[..k + 1], actions[..k]);
      g := NextKeepsInv(s, states[k], g0, actions[k]);
    }
  }

  /** At most two messages of each kind were sent and each was delivered at most once; and once something
      was sent and nothing is under way any more, exactly two of each were, and each side holds the
      other's key. */
  ghost predicate Converging(s: Setup, n: Net) {
    && n.traffic.reqs <= 2 && n.traffic.rsps <= 2
    && n.traffic.delivered + |n.traffic.bag| == n.traffic.reqs + n.traffic.rsps
    && (n.traffic.bag == multiset{} && n.traffic.reqs > 0 ==>
          && n.traffic.reqs == 2 && n.traffic.rsps == 2
          && Holds(s, n.left, s.rightHandle, n.right) && Holds(s, n.right, s.leftHandle, n.left))
  }

  /** Whoever asks first, whether both ask, and whatever the delivery order. */
  lemma HandshakeConverges(s: Setup, states: seq<Net>, actions: seq<Action>)
    requires s.Valid() && IsRun(s, states, actions) && Init(s, states[0])
    ensures Converging(s, states[|actions|])
  {
    var g := RunKeepsInv(s, states, actions);
    InvConverges(s, states[|actions|], g);
  }

  lemma InvConverges(s: Setup, n: Net, g: Progress)
    requires Inv(s, n, g)
    ensures Converging(s, n)
  {
    DoneHolds(s, n, g);
    CountsBound(n.traffic, g);
  }

  lemma DoneHolds(s: Setup, n: Net, g: Progress)
    requires BothSides(s, n, g)
    ensures WasAnswered(g.left) ==> !g.right.Idle?
    ensures WasAnswered(g.right) ==> !g.left.Idle?
    ensures g == Progress(Done, Done) ==>
              Holds(s, n.left, s.rightHandle, n.right) && Holds(s, n.right, s.leftHandle, n.left)
  {
  }

  lemma CountsBound(t: Traffic, g: Progress)
    requires Counted(t, g) && (WasAnswered(g.left) ==> !g.right.Idle?) && (WasAnswered(g.right) ==> !g.left.Idle?)
    ensures t.reqs <= 2 && t.rsps <= 2 && t.delivered + |t.bag| == t.reqs + t.rsps
    ensures t.bag == multiset{} && t.reqs > 0 ==> t.reqs == 2 && t.rsps == 2 && g == Progress(Done, Done)
  {
    assert |t.bag| == |InFlight(Left, g.left)| + |InFlight(Right, g.right)|;
  }
}
