/** What becomes of a handshake when a side gives up a request after two minutes and sends another. */
module Retry {
  import opened Basics
  import opened CryptoSuite
  import opened Payloads
  import opened Keyring
  import opened Convergence
  import Limiter

  /** A message of the peer on the channel: an encrypted line, a KEYREQ, or a KEYRSP with its signature. */
  predicate FromPeer(s: Setup, peer: Handle, pub: Bytes, e: Event) {
    match e
    case RecvLine(sender, channel, _, _) => sender == peer && channel == s.channel
    case RecvKeyreq(sender, _, req, _, _, _, _) =>
      sender == peer && req.Some? && req.value.channel == s.channel && req.value.pub == pub
    case RecvKeyrsp(sender, rsp, _) =>
      && sender == peer && rsp.Some? && rsp.value.channel == s.channel && rsp.value.pub == pub
      && s.c.verify(pub, WrapPayload(KEYRSP_TAG, rsp.value), rsp.value.sig)
    case _ => false
  }

  /** One side's keyring throughout: the peer is all it knows, and it answers by itself. */
  predicate Alone(s: Setup, r: Ring, peer: Handle, pub: Bytes) {
    var fp := s.c.fingerprint(pub);
    && IsEnabled(r, s.channel) && (r.channels[s.channel].mode.AutoAccept? || r.channels[s.channel].mode.Auto?)
    && (forall f <- r.peers :: f == fp && r.peers[f].lastHandle == peer && !r.peers[f].status.Revoked?)
    && (forall k <- r.incoming :: k == (peer, s.channel) && r.incoming[k].fp == fp && r.incoming[k].status.Trusted?)
    && r.pending.Keys <= {PendingKey(s.channel, peer)}
  }

  /** The secret of the outstanding request. */
  function Secret(s: Setup, r: Ring, peer: Handle): Option<Bytes> {
    var k := PendingKey(s.channel, peer);
    if k in r.pending then Some(r.pending[k].ephSk) else None
  }

  /** The answer opens under the exchange with this secret. */
  predicate Opens(s: Setup, secret: Option<Bytes>, e: Event) {
    && secret.Some? && e.RecvKeyrsp? && e.rsp.Some?
    && OpenWrap(s.c, s.c.dh(secret.value, e.rsp.value.eph), WrapInfo(s.channel), e.rsp.value).Some?
  }

  /** The ephemeral secret the event would send a KEYREQ with. */
  function Drawn(e: Event): Bytes {
    if e.RecvLine? || e.RecvKeyreq? then e.q.eph else []
  }

  function SecretAfter(secret: Option<Bytes>, e: Event, effects: Effects): Option<Bytes> {
    if effects.req.Some? then Some(Drawn(e)) else if e.RecvKeyrsp? then None else secret
  }

  // ---------------------------------------------------------------- one event

  /** A KEYREQ to the peer for the channel was sent with this secret, or nothing changed. */
  predicate AskedIf(before: map<string, Request>, after: map<string, Request>, k: string, sent: bool, eph: Bytes,
                    t: int)
  {
    after == if sent then before[k := Request(eph, t)] else before
  }

  lemma BuildAsks(c: Suite, r: Ring, channel: Channel, peer: Handle, now: real, q: ReqDraw)
    ensures var (r1, req) := BuildKeyreq(c, r, channel, peer, now, q);
            AskedIf(r.pending, r1.pending, PendingKey(channel, peer), req.Some?, q.eph, Seconds(now))
  {
  }

  lemma AnswerAsks(c: Suite, r: Ring, sender: Handle, m: KeyReq, now: real, w: WrapDraw, newKey: Bytes, q: ReqDraw)
    ensures var (r1, effects) := AnswerKeyreq(c, r, sender, m, now, w, newKey, q);
            AskedIf(r.pending, r1.pending, PendingKey(m.channel, sender), effects.req.Some?, q.eph, Seconds(now))
            && r1.incoming == r.incoming
  {
    var (r1, rsp) := BuildKeyrsp(c, r, m.channel, sender, m.pub, m.eph, now, w, newKey);
    if rsp.Some? {
      ReciprocalAsks(c, r1, m.channel, sender, now, q);
    }
  }

  lemma ReciprocalAsks(c: Suite, r: Ring, channel: Channel, sender: Handle, now: real, q: ReqDraw)
    ensures var (r1, req) := Reciprocal(c, r, channel, sender, now, q);
            AskedIf(r.pending, r1.pending, PendingKey(channel, sender), req.Some?, q.eph, Seconds(now))
  {
    BuildAsks(c, AllowOutgoing(r, sender, now).0, channel, sender, now, q);
  }

  /** What answering or dropping a KEYREQ does to the parts that `Alone` speaks of. */
  lemma TreatAlone(s: Setup, r: Ring, peer: Handle, m: KeyReq, now: real, w: WrapDraw, newKey: Bytes, q: ReqDraw)
    requires m.channel == s.channel && Alone(s, r, peer, m.pub)
    ensures var (r1, effects) := TreatKeyreq(s.c, r, peer, m, now, w, newKey, q);
            && Alone(s, r1, peer, m.pub) && r1.incoming == r.incoming
            && AskedIf(r.pending, r1.pending, PendingKey(s.channel, peer), effects.req.Some?, q.eph, Seconds(now))
  {
    OpenModeAnswers(s, r, peer, m, now, w, newKey, q);
    AnswerAsks(s.c, r, peer, m, now, w, newKey, q);
    AnswerPeers(s, r, peer, m, now, w, newKey, q);
  }

  lemma AnswerPeers(s: Setup, r: Ring, peer: Handle, m: KeyReq, now: real, w: WrapDraw, newKey: Bytes, q: ReqDraw)
    requires m.channel == s.channel && Alone(s, r, peer, m.pub)
    ensures var peers := AnswerKeyreq(s.c, r, peer, m, now, w, newKey, q).0.peers;
            forall f <- peers ::
              f == s.c.fingerprint(m.pub) && peers[f].lastHandle == peer && !peers[f].status.Revoked?
  {
  }

  lemma AdmitAlone(s: Setup, r: Ring, peer: Handle, nick: string, m: KeyReq, now: real, w: WrapDraw, newKey: Bytes,
                   q: ReqDraw)
    requires m.channel == s.channel && Alone(s, r, peer, m.pub)
    ensures var (r1, effects) := AdmitKeyreq(s.c, r, peer, nick, m, now, w, newKey, q);
            && Alone(s, r1, peer, m.pub) && r1.incoming == r.incoming
            && AskedIf(r.pending, r1.pending, PendingKey(s.channel, peer), effects.req.Some?, q.eph, Seconds(now))
  {
    var r1 := PinPeer(s.c, r, peer, nick, m, Seconds(now));
    assert Alone(s, r1, peer, m.pub);
    TreatAlone(s, r1, peer, m, now, w, newKey, q);
  }

  lemma KeyreqAlone(s: Setup, r: Ring, peer: Handle, nick: string, m: KeyReq, now: real, w: WrapDraw, newKey: Bytes,
                    q: ReqDraw)
    requires m.channel == s.channel && Alone(s, r, peer, m.pub)
    ensures var (r1, effects) := HandleKeyreq(s.c, r, peer, nick, Some(m), now, w, newKey, q);
            && Alone(s, r1, peer, m.pub) && r1.incoming == r.incoming
            && AskedIf(r.pending, r1.pending, PendingKey(s.channel, peer), effects.req.Some?, q.eph, Seconds(now))
  {
    var r0 := r.(buckets := r.buckets[peer := Limiter.Decide(BucketOf(r, peer), now).0]);
    AdmitAlone(s, r0, peer, nick, m, now, w, newKey, q);
    KeyreqIs(s, r, peer, nick, m, now, w, newKey, q);
    SameAlone(s, r, r0, peer, m.pub);
  }

  lemma SameAlone(s: Setup, r: Ring, r1: Ring, peer: Handle, pub: Bytes)
    requires Alone(s, r, peer, pub) && r1 == r.(buckets := r1.buckets)
    ensures Alone(s, r1, peer, pub)
  {
  }

  lemma KeyreqIs(s: Setup, r: Ring, peer: Handle, nick: string, m: KeyReq, now: real, w: WrapDraw, newKey: Bytes,
                 q: ReqDraw)
    requires m.channel == s.channel && IsEnabled(r, s.channel)
    ensures var r0 := r.(buckets := r.buckets[peer := Limiter.Decide(BucketOf(r, peer), now).0]);
            var out := HandleKeyreq(s.c, r, peer, nick, Some(m), now, w, newKey, q);
            out == (r0, SILENT) || out == AdmitKeyreq(s.c, r0, peer, nick, m, now, w, newKey, q)
  {
  }

  lemma LineAlone(s: Setup, r: Ring, peer: Handle, pub: Bytes, now: real, q: ReqDraw)
    requires Alone(s, r, peer, pub)
    ensures var (r1, effects) := AutoKeyreq(s.c, r, peer, s.channel, now, q);
            && Alone(s, r1, peer, pub) && r1.incoming == r.incoming
            && AskedIf(r.pending, r1.pending, PendingKey(s.channel, peer), effects.req.Some?, q.eph, Seconds(now))
  {
    BuildAsks(s.c, AllowOutgoing(r, peer, now).0, s.channel, peer, now, q);
  }

  lemma KeyrspIs(s: Setup, r: Ring, peer: Handle, pub: Bytes, m: KeyWrap, now: real)
    requires peer != "" && r.pending.Keys <= {PendingKey(s.channel, peer)}
    requires FromPeer(s, peer, pub, RecvKeyrsp(peer, Some(m), now))
    ensures var k := PendingKey(s.channel, peer);
            HandleKeyrsp(s.c, r, peer, Some(m), now)
            == if k !in r.pending then (r, SILENT)
               else
                 var r1 := r.(pending := r.pending - {k});
                 var key := OpenWrap(s.c, s.c.dh(r.pending[k].ephSk, m.eph), WrapInfo(s.channel), m);
                 if key.None? then (r1, SILENT) else InstallAnswer(s.c, r1, peer, m, key.value, Seconds(now))
  {
    var k := PendingKey(s.channel, peer);
    assert |k| > |s.channel|;
    assert AnsweredRequest(r, m.channel, peer) == if k in r.pending then Some(k) else None;
  }

  lemma Unlisted(s: Setup, r: Ring, peer: Handle, pub: Bytes)
    requires Alone(s, r, peer, pub)
    ensures Alone(s, r.(pending := r.pending - {PendingKey(s.channel, peer)}), peer, pub)
  {
  }

  lemma KeyrspAlone(s: Setup, r: Ring, peer: Handle, pub: Bytes, m: KeyWrap, now: real)
    requires peer != "" && Alone(s, r, peer, pub) && FromPeer(s, peer, pub, RecvKeyrsp(peer, Some(m), now))
    ensures var (r1, effects) := HandleKeyrsp(s.c, r, peer, Some(m), now);
            && Alone(s, r1, peer, pub) && Secret(s, r1, peer) == None && effects.req.None?
            && (IsTrusted(r1, peer, s.channel)
                <==> IsTrusted(r, peer, s.channel)
                     || Opens(s, Secret(s, r, peer), RecvKeyrsp(peer, Some(m), now)))
  {
    var k := PendingKey(s.channel, peer);
    KeyrspIs(s, r, peer, pub, m, now);
    Unlisted(s, r, peer, pub);
    if k in r.pending {
      var key := OpenWrap(s.c, s.c.dh(r.pending[k].ephSk, m.eph), WrapInfo(s.channel), m);
      if key.Some? {
        InstallAlone(s, r.(pending := r.pending - {k}), peer, m, key.value, Seconds(now));
      }
    }
  }

  lemma NoClashAlone(s: Setup, r: Ring, peer: Handle, pub: Bytes)
    requires Alone(s, r, peer, pub)
    ensures !SessionClash(r, peer, s.channel, s.c.fingerprint(pub))
    ensures var change := Classify(r.peers, s.c.fingerprint(pub), peer); change.Known? || change.New?
  {
  }

  lemma RowsAlone(s: Setup, r: Ring, peer: Handle, pub: Bytes, row: Peer, session: Session)
    requires Alone(s, r, peer, pub) && row.lastHandle == peer && row.status.Trusted?
    requires session.fp == s.c.fingerprint(pub) && session.status.Trusted?
    ensures Alone(s, r.(peers := r.peers[s.c.fingerprint(pub) := row],
                        incoming := r.incoming[(peer, s.channel) := session]), peer, pub)
  {
  }

  lemma InstallAlone(s: Setup, r: Ring, peer: Handle, m: KeyWrap, key: Bytes, t: int)
    requires m.channel == s.channel && Alone(s, r, peer, m.pub)
    ensures var (r1, effects) := InstallAnswer(s.c, r, peer, m, key, t);
            && Alone(s, r1, peer, m.pub) && IsTrusted(r1, peer, s.channel) && r1.pending == r.pending
            && effects.req.None?
  {
    NoClashAlone(s, r, peer, m.pub);
    RowsAlone(s, r, peer, m.pub, Peer(m.pub, peer, None, t, t, Trusted),
              Session(s.c.fingerprint(m.pub), key, Trusted, t));
  }

  /** What one message of the peer does: the secret of the outstanding request follows from what was sent and
      received, and the session becomes trusted by an answer that opens under it. */
  lemma StepAlone(s: Setup, r: Ring, peer: Handle, pub: Bytes, e: Event)
    requires peer != "" && Alone(s, r, peer, pub) && FromPeer(s, peer, pub, e)
    ensures var (r1, effects) := Step(s.c, r, e);
            && Alone(s, r1, peer, pub)
            && Secret(s, r1, peer) == SecretAfter(Secret(s, r, peer), e, effects)
            && (IsTrusted(r1, peer, s.channel)
                <==> IsTrusted(r, peer, s.channel) || Opens(s, Secret(s, r, peer), e))
  {
    match e
    case RecvLine(sender, channel, now, q) => LineAlone(s, r, peer, pub, now, q);
    case RecvKeyreq(sender, nick, req, now, w, newKey, q) =>
      KeyreqAlone(s, r, peer, nick, req.value, now, w, newKey, q);
    case RecvKeyrsp(sender, rsp, now) => KeyrspAlone(s, r, peer, pub, rsp.value, now);
  }

  // ---------------------------------------------------------------- whole runs of one side

  /** The secret of the request that waits for an answer: that of the last KEYREQ sent, unless a KEYRSP has come
      in since. */
  function Outstanding(events: seq<Event>, effects: seq<Effects>): Option<Bytes>
    requires |events| == |effects|
  {
    if events == [] then None
    else
      var n := |events| - 1;
      SecretAfter(Outstanding(events[..n], effects[..n]), events[n], effects[n])
  }

  /** Event `j` is an answer that opens under the secret of the request outstanding when it came. */
  predicate AnswersInTime(s: Setup, events: seq<Event>, effects: seq<Effects>, j: nat)
    requires |events| == |effects|
  {
    j < |events| && Opens(s, Outstanding(events[..j], effects[..j]), events[j])
  }

  lemma SamePrefix(s: Setup, events: seq<Event>, effects: seq<Effects>, j: nat)
    requires |events| == |effects| > 0 && j < |events| - 1
    ensures var n := |events| - 1;
            AnswersInTime(s, events, effects, j) <==> AnswersInTime(s, events[..n], effects[..n], j)
  {
    var n := |events| - 1;
    assert events[..n][..j] == events[..j] && effects[..n][..j] == effects[..j];
  }

  ghost predicate AnsweredAtAll(s: Setup, events: seq<Event>, effects: seq<Effects>)
    requires |events| == |effects|
  {
    exists j :: 0 <= j < |events| && AnswersInTime(s, events, effects, j)
  }

  lemma AnsweredStep(s: Setup, events: seq<Event>, effects: seq<Effects>)
    requires |events| == |effects| > 0
    ensures var n := |events| - 1;
            AnsweredAtAll(s, events, effects)
            <==> AnsweredAtAll(s, events[..n], effects[..n])
                 || Opens(s, Outstanding(events[..n], effects[..n]), events[n])
  {
    var n := |events| - 1;
    forall j | 0 <= j < n
      ensures AnswersInTime(s, events, effects, j) <==> AnswersInTime(s, events[..n], effects[..n], j)
    {
      SamePrefix(s, events, effects, j);
    }
    assert AnswersInTime(s, events, effects, n) <==> Opens(s, Outstanding(events[..n], effects[..n]), events[n]);
  }

  lemma {:induction false} SideAlone(s: Setup, r: Ring, peer: Handle, pub: Bytes, events: seq<Event>)
    requires peer != "" && FreshAuto(r, s.channel) && forall e <- events :: FromPeer(s, peer, pub, e)
    ensures var (r1, effects) := Run(s.c, r, events);
            && Alone(s, r1, peer, pub) && Secret(s, r1, peer) == Outstanding(events, effects)
            && (IsTrusted(r1, peer, s.channel) <==> AnsweredAtAll(s, events, effects))
  {
    if events != [] {
      var n := |events| - 1;
      SideAlone(s, r, peer, pub, events[..n]);
      var (mid, sofar) := Run(s.c, r, events[..n]);
      assert Run(s.c, r, events).1[..n] == sofar;
      StepAlone(s, mid, peer, pub, events[n]);
      AnsweredStep(s, events, Run(s.c, r, events).1);
    }
  }

  /** Whatever a side sends and receives, requests given up and made again included: it ends with the session
      exactly when some answer opened under the secret of the request that was outstanding when it came. */
  lemma TrustedIffAnsweredInTime(s: Setup, r: Ring, peer: Handle, pub: Bytes, events: seq<Event>)
    requires peer != "" && FreshAuto(r, s.channel) && forall e <- events :: FromPeer(s, peer, pub, e)
    ensures var (r1, effects) := Run(s.c, r, events);
            IsTrusted(r1, peer, s.channel)
            <==> exists j :: 0 <= j < |events| && AnswersInTime(s, events, effects, j)
  {
    SideAlone(s, r, peer, pub, events);
  }

  // ---------------------------------------------------------------- a handshake that fails

  /** What is sealed under the exchange with one secret does not open under the exchange with the other. */
  ghost predicate Apart(c: Suite, a: Bytes, b: Bytes) {
    forall eph, n, info, key ::
      c.dh(a, c.xPub(eph)).Some? && c.dh(b, c.xPub(eph)).Some? ==>
        c.open(c.kdf(c.dh(b, c.xPub(eph)).value, info), n, info,
               c.seal(c.kdf(c.dh(a, c.xPub(eph)).value, info), n, info, key)) == None
  }

  /** What a side may do, and the network: any message under way may arrive, and a side may ask at any time, so
      also when its request has become too old. */
  predicate Possible(n: Net, a: Action) {
    && a.now >= KEYREQ_MIN_INTERVAL
    && (a.Deliver? ==> a.packet in n.traffic.bag && |a.newKey| == KEY_LEN)
  }

  ghost predicate Goes(s: Setup, n: Net, a: Action, n1: Net) {
    Possible(n, a) && n1 == Next(s, n, a)
  }

  ghost predicate IsLooseRun(s: Setup, states: seq<Net>, actions: seq<Action>) {
    && |states| == |actions| + 1
    && forall i | 0 <= i < |actions| :: Goes(s, states[i], actions[i], states[i + 1])
  }

  /** The side gives up its request and sends another, which it records in place of the first. */
  lemma RetryBuilds(s: Setup, r: Ring, peer: Handle, p: Phase, now: real, q: ReqDraw)
    requires s.c.Lawful() && p.Asked? && !StillWaits(r, s.channel, peer, now) && AllowOutgoing(r, peer, now).1
    requires Recorded(s, r, peer, p)
    ensures var (r1, effects) := AutoKeyreq(s.c, r, peer, s.channel, now, q);
            && effects.req.Some? && effects == SILENT.(req := effects.req)
            && r1 == r.(pending := r1.pending, lastSent := r1.lastSent)
            && Recorded(s, r1, peer, Asked(q.eph, effects.req.value))
            && forall peerRing :: Genuine(s, r1, Asked(q.eph, effects.req.value), peerRing, peer)
  {
    var (r1, req) := BuildKeyreq(s.c, AllowOutgoing(r, peer, now).0, s.channel, peer, now, q);
    assert s.c.Signed(r.identity, ReqPayload(req.value));
    var k := PendingKey(s.channel, peer);
    assert k in r.pending;
    assert r1.pending == r.pending[k := Request(q.eph, Seconds(now))];
  }

  /** The answer to a request is sealed under the exchange with that request's secret. */
  lemma AnswerIsSealed(s: Setup, r: Ring, peer: Handle, m: KeyReq, now: real, w: WrapDraw, newKey: Bytes, q: ReqDraw)
    requires m.channel == s.channel && s.c.dh(w.eph, m.eph).Some?
    ensures var rsp := AnswerKeyreq(s.c, r, peer, m, now, w, newKey, q).1.rsp;
            && rsp.Some? && rsp.value.msg.eph == s.c.xPub(w.eph) && rsp.value.msg.wrapNonce == w.wrapNonce
            && rsp.value.msg.wrapCt == s.c.seal(s.c.kdf(s.c.dh(w.eph, m.eph).value, WrapInfo(s.channel)), w.wrapNonce,
                                                WrapInfo(s.channel), rsp.value.key)
  {
    var (r1, rsp) := BuildKeyrsp(s.c, r, m.channel, peer, m.pub, m.eph, now, w, newKey);
    assert AnswerKeyreq(s.c, r, peer, m, now, w, newKey, q).1.rsp == rsp;
  }

  lemma ForeignAnswerStaysShut(s: Setup, a: Bytes, b: Bytes, m: KeyWrap, eph: Bytes, key: Bytes)
    requires s.c.Lawful() && Apart(s.c, a, b) && m.eph == s.c.xPub(eph) && s.c.dh(eph, s.c.xPub(a)).Some?
    requires m.wrapCt == s.c.seal(s.c.kdf(s.c.dh(eph, s.c.xPub(a)).value, WrapInfo(s.channel)), m.wrapNonce,
                                  WrapInfo(s.channel), key)
    ensures OpenWrap(s.c, s.c.dh(b, m.eph), WrapInfo(s.channel), m) == None
  {
    assert s.c.Exchange(eph, a) && s.c.Exchange(b, eph);
  }

  /** A KEYRSP with the signature of its sender, for the channel. */
  predicate SignedAnswer(s: Setup, m: KeyWrap, pub: Bytes) {
    m.channel == s.channel && m.pub == pub && s.c.verify(pub, WrapPayload(KEYRSP_TAG, m), m.sig)
  }

  /** Sealed for the request with this secret. */
  predicate SealedFor(s: Setup, m: KeyWrap, eph: Bytes, secret: Bytes, key: Bytes) {
    && m.eph == s.c.xPub(eph) && s.c.dh(eph, s.c.xPub(secret)).Some?
    && m.wrapCt == s.c.seal(s.c.kdf(s.c.dh(eph, s.c.xPub(secret)).value, WrapInfo(s.channel)), m.wrapNonce,
                            WrapInfo(s.channel), key)
  }

  /** A settled side that answers: what stays as it was, and what it sends. */
  ghost predicate AnswersSettled(s: Setup, r: Ring, r1: Ring, effects: Effects, peer: Handle, m: KeyReq) {
    && effects.rsp.Some? && effects.req.None?
    && SignedAnswer(s, effects.rsp.value.msg, s.c.edPub(r.identity))
    && r1.identity == r.identity && Settled(s, r1, peer, m.pub) && Recorded(s, r1, peer, Done)
    && IsTrusted(r1, peer, s.channel)
  }

  /** The answer itself, behind the guards. */
  lemma SettledAnswers(s: Setup, r: Ring, peer: Handle, m: KeyReq, secret: Bytes, now: real, w: WrapDraw,
                       newKey: Bytes, q: ReqDraw)
    requires s.Valid() && now >= KEYREQ_MIN_INTERVAL && |newKey| == KEY_LEN
    requires Settled(s, r, peer, m.pub) && Recorded(s, r, peer, Done) && IsTrusted(r, peer, s.channel)
    requires m.channel == s.channel && m.eph == s.c.xPub(secret)
    ensures var (r1, effects) := AnswerKeyreq(s.c, r, peer, m, now, w, newKey, q);
            && AnswersSettled(s, r, r1, effects, peer, m)
            && SealedFor(s, effects.rsp.value.msg, w.eph, secret, effects.rsp.value.key)
  {
    AnswerOutcome(s, r, peer, Done, m, secret, now, w, newKey, q);
    assert s.c.Exchange(w.eph, secret);
    AnswerIsSealed(s, r, peer, m, now, w, newKey, q);
    var (r1, effects) := AnswerKeyreq(s.c, r, peer, m, now, w, newKey, q);
    assert r1.incoming == r.incoming;
    assert Genuine(s, r, Answered(secret, effects.rsp.value.msg), r1, peer);
  }

  lemma PinningKeepsRecorded(s: Setup, r: Ring, peer: Handle, nick: string, m: KeyReq, now: int, bucket: Limiter.Bucket)
    requires Recorded(s, r, peer, Done) && IsTrusted(r, peer, s.channel)
    ensures var r1 := PinPeer(s.c, r.(buckets := r.buckets[peer := bucket]), peer, nick, m, now);
            Recorded(s, r1, peer, Done) && IsTrusted(r1, peer, s.channel) && r1.identity == r.identity
            && BucketOf(r1, peer) == bucket
  {
  }

  /** A settled side answers every genuine KEYREQ that the limiter lets through. */
  lemma SettledSideAnswers(s: Setup, r: Ring, peer: Handle, nick: string, m: KeyReq, secret: Bytes, now: real,
                           w: WrapDraw, newKey: Bytes, q: ReqDraw)
    requires s.Valid() && now >= KEYREQ_MIN_INTERVAL && |newKey| == KEY_LEN
    requires Settled(s, r, peer, m.pub) && Recorded(s, r, peer, Done) && IsTrusted(r, peer, s.channel)
    requires m.channel == s.channel && m.eph == s.c.xPub(secret) && s.c.verify(m.pub, ReqPayload(m), m.sig)
    requires Limiter.Decide(BucketOf(r, peer), now).1.Accepted?
    ensures var (r1, effects) := HandleKeyreq(s.c, r, peer, nick, Some(m), now, w, newKey, q);
            && AnswersSettled(s, r, r1, effects, peer, m)
            && SealedFor(s, effects.rsp.value.msg, w.eph, secret, effects.rsp.value.key)
            && BucketOf(r1, peer) == Limiter.Decide(BucketOf(r, peer), now).0
  {
    var bucket := Limiter.Decide(BucketOf(r, peer), now).0;
    var r0 := PinPeer(s.c, r.(buckets := r.buckets[peer := bucket]), peer, nick, m, Seconds(now));
    RequestIsAnswered(s, r, peer, nick, m, now, w, newKey, q);
    PinningKeepsSettled(s, r, peer, nick, m, Seconds(now), bucket);
    PinningKeepsRecorded(s, r, peer, nick, m, Seconds(now), bucket);
    SettledAnswers(s, r0, peer, m, secret, now, w, newKey, q);
  }

  lemma SecondOfTwoPasses(first: real, now: real)
    ensures Limiter.Decide(Limiter.Bucket([first], 0.0), now).1.Accepted?
  {
    assert [first][1..] == [] && Limiter.Live([], now) == [];
  }

  /** The answer to the abandoned request uses up the new one, and the answer to that finds none. */
  lemma WrongAnswerSpoils(s: Setup, r: Ring, peer: Handle, pub: Bytes, p: Phase, wrong: KeyWrap, right: KeyWrap,
                          now: real, later: real)
    requires peer != "" && p.Asked? && Recorded(s, r, peer, p)
    requires SignedAnswer(s, wrong, pub) && SignedAnswer(s, right, pub)
    requires OpenWrap(s.c, s.c.dh(p.ephSk, wrong.eph), WrapInfo(s.channel), wrong) == None
    ensures var r1 := r.(pending := map[]);
            && HandleKeyrsp(s.c, r, peer, Some(wrong), now) == (r1, SILENT)
            && HandleKeyrsp(s.c, r1, peer, Some(right), later) == (r1, SILENT)
            && !IsTrusted(r1, peer, s.channel)
  {
    var r1 := r.(pending := map[]);
    KeyrspIs(s, r, peer, pub, wrong, now);
    assert r.pending - {PendingKey(s.channel, peer)} == map[];
    KeyrspIs(s, r1, peer, pub, right, later);
  }

  /** What is drawn and when things happen in the run below. */
  datatype Course = Course(asked: real, first: real, second: real, third: real, last: real, q: ReqDraw, w1: WrapDraw,
                           w2: WrapDraw, newKey: Bytes, other: ReqDraw, nick: string)
  {
    predicate Timely() {
      && asked >= KEYREQ_MIN_INTERVAL && first >= KEYREQ_MIN_INTERVAL && second >= KEYREQ_MIN_INTERVAL
      && third >= KEYREQ_MIN_INTERVAL && last >= KEYREQ_MIN_INTERVAL && |newKey| == KEY_LEN
    }
  }

  /** The left side's request is under way, and the right side has its session. */
  ghost predicate HalfDone(s: Setup, n: Net, asked: Phase) {
    && asked.Asked? && n.traffic.bag == multiset{Packet(Right, Req(asked.req))}
    && SideInv(s, n.left, n.right, s.rightHandle, asked, Done) && SideInv(s, n.right, n.left, s.leftHandle, Done, asked)
  }

  /** The right side as the run needs it: settled, and its limiter as it stands for the left side. */
  ghost predicate Ready(s: Setup, r: Ring, peer: Handle, pub: Bytes, bucket: Limiter.Bucket) {
    && Settled(s, r, peer, pub) && Recorded(s, r, peer, Done) && IsTrusted(r, peer, s.channel)
    && BucketOf(r, peer) == bucket
  }

  /** A request for the channel, made by this client with this secret. */
  predicate MadeWith(s: Setup, m: KeyReq, pub: Bytes, secret: Bytes) {
    m.channel == s.channel && m.pub == pub && m.eph == s.c.xPub(secret) && s.c.verify(pub, ReqPayload(m), m.sig)
  }

  /** What the second request leaves: both requests under way, the newer one recorded. */
  ghost predicate AskedTwice(s: Setup, n: Net, asked: Phase, again: Phase) {
    && asked.Asked? && again.Asked?
    && n.traffic.bag == multiset{Packet(Right, Req(asked.req)), Packet(Right, Req(again.req))}
    && Recorded(s, n.left, s.rightHandle, again)
    && MadeWith(s, asked.req, s.c.edPub(n.left.identity), asked.ephSk)
    && MadeWith(s, again.req, s.c.edPub(n.left.identity), again.ephSk)
    && Ready(s, n.right, s.leftHandle, s.c.edPub(n.left.identity), Limiter.FRESH_BUCKET)
  }

  lemma HalfDoneMeans(s: Setup, n: Net, asked: Phase)
    requires HalfDone(s, n, asked)
    ensures MadeWith(s, asked.req, s.c.edPub(n.left.identity), asked.ephSk)
    ensures Ready(s, n.right, s.leftHandle, s.c.edPub(n.left.identity), Limiter.FRESH_BUCKET)
  {
  }

  lemma AskAgain(s: Setup, r: Ring, peer: Handle, p: Phase, now: real, q: ReqDraw) returns (again: Phase)
    requires s.c.Lawful() && p.Asked? && !StillWaits(r, s.channel, peer, now) && AllowOutgoing(r, peer, now).1
    requires Recorded(s, r, peer, p)
    ensures again.Asked? && again.ephSk == q.eph
    ensures var (r1, effects) := AutoKeyreq(s.c, r, peer, s.channel, now, q);
            && effects == SILENT.(req := Some(again.req)) && r1.identity == r.identity
            && Recorded(s, r1, peer, again) && MadeWith(s, again.req, s.c.edPub(r.identity), again.ephSk)
  {
    RetryBuilds(s, r, peer, p, now, q);
    var (r1, effects) := AutoKeyreq(s.c, r, peer, s.channel, now, q);
    again := Asked(q.eph, effects.req.value);
    AskIsMade(s, r1, r1, peer, again);
  }

  lemma SecondAsk(s: Setup, n: Net, asked: Phase, x: Course) returns (again: Phase, n1: Net, a: Action)
    requires s.Valid() && HalfDone(s, n, asked) && x.Timely()
    requires !StillWaits(n.left, s.channel, s.rightHandle, x.asked) && AllowOutgoing(n.left, s.rightHandle, x.asked).1
    ensures Goes(s, n, a, n1) && AskedTwice(s, n1, asked, again) && again.ephSk == x.q.eph
  {
    HalfDoneMeans(s, n, asked);
    again := AskAgain(s, n.left, s.rightHandle, asked, x.asked, x.q);
    n1, a := AskOnTheWay(s, n, again.req, x.asked, x.q);
    HalfToTwice(s, n, n1, asked, again);
  }

  lemma HalfToTwice(s: Setup, n: Net, n1: Net, asked: Phase, again: Phase)
    requires asked.Asked? && again.Asked? && n1.right == n.right && n1.left.identity == n.left.identity
    requires n.traffic.bag == multiset{Packet(Right, Req(asked.req))}
    requires n1.traffic.bag == n.traffic.bag + multiset{Packet(Right, Req(again.req))}
    requires MadeWith(s, asked.req, s.c.edPub(n.left.identity), asked.ephSk)
    requires MadeWith(s, again.req, s.c.edPub(n.left.identity), again.ephSk)
    requires Ready(s, n.right, s.leftHandle, s.c.edPub(n.left.identity), Limiter.FRESH_BUCKET)
    requires Recorded(s, n1.left, s.rightHandle, again)
    ensures AskedTwice(s, n1, asked, again)
  {
  }

  lemma AskOnTheWay(s: Setup, n: Net, m: KeyReq, now: real, q: ReqDraw) returns (n1: Net, a: Action)
    requires now >= KEYREQ_MIN_INTERVAL
    requires AutoKeyreq(s.c, n.left, s.rightHandle, s.channel, now, q).1 == SILENT.(req := Some(m))
    ensures Goes(s, n, a, n1) && n1.right == n.right
    ensures n1.left == AutoKeyreq(s.c, n.left, s.rightHandle, s.channel, now, q).0
    ensures n1.traffic.bag == n.traffic.bag + multiset{Packet(Right, Req(m))}
  {
    a := Issue(Left, now, q);
    n1 := Next(s, n, a);
    NextOnIssue(s, n, a);
  }

  lemma AskIsMade(s: Setup, r: Ring, peerRing: Ring, peer: Handle, p: Phase)
    requires p.Asked? && Genuine(s, r, p, peerRing, peer)
    ensures MadeWith(s, p.req, s.c.edPub(r.identity), p.ephSk)
  {
  }

  /** The right side answers a request that has come. */
  lemma AnswerOnTheWay(s: Setup, n: Net, m: KeyReq, secret: Bytes, rest: multiset<Packet>, bucket: Limiter.Bucket,
                       nick: string, now: real, w: WrapDraw, newKey: Bytes, q: ReqDraw)
    returns (rsp: Grant, n1: Net, a: Action)
    requires s.Valid() && now >= KEYREQ_MIN_INTERVAL && |newKey| == KEY_LEN
    requires Ready(s, n.right, s.leftHandle, m.pub, bucket) && Limiter.Decide(bucket, now).1.Accepted?
    requires MadeWith(s, m, m.pub, secret) && n.traffic.bag == multiset{Packet(Right, Req(m))} + rest
    ensures Goes(s, n, a, n1)
    ensures n1.left == n.left && n1.right.identity == n.right.identity
    ensures n1.traffic.bag == rest + multiset{Packet(Left, Rsp(rsp.msg))}
    ensures Ready(s, n1.right, s.leftHandle, m.pub, Limiter.Decide(bucket, now).0)
    ensures SignedAnswer(s, rsp.msg, s.c.edPub(n.right.identity)) && SealedFor(s, rsp.msg, w.eph, secret, rsp.key)
  {
    a := Deliver(Packet(Right, Req(m)), nick, now, w, newKey, q);
    n1 := Next(s, n, a);
    SettledSideAnswers(s, n.right, s.leftHandle, nick, m, secret, now, w, newKey, q);
    NextOnRequest(s, n, a);
    rsp := HandleKeyreq(s.c, n.right, s.leftHandle, nick, Some(m), now, w, newKey, q).1.rsp.value;
    assert n.traffic.bag - multiset{Packet(Right, Req(m))} == rest;
  }

  /** A KEYRSP arrives at the left side, which sends nothing. */
  lemma AnswerArrives(s: Setup, n: Net, m: KeyWrap, rest: multiset<Packet>, r1: Ring, nick: string, now: real,
                      w: WrapDraw, newKey: Bytes, q: ReqDraw)
    requires n.traffic.bag == multiset{Packet(Left, Rsp(m))} + rest
    requires HandleKeyrsp(s.c, n.left, s.rightHandle, Some(m), now) == (r1, SILENT)
    ensures var n1 := Next(s, n, Deliver(Packet(Left, Rsp(m)), nick, now, w, newKey, q));
            n1.left == r1 && n1.right == n.right && n1.traffic.bag == rest
  {
    NextOnResponse(s, n, Deliver(Packet(Left, Rsp(m)), nick, now, w, newKey, q));
    assert n.traffic.bag - multiset{Packet(Left, Rsp(m))} == rest;
  }

  /** Both answers under way, the request recorded being the newer one. */
  ghost predicate AnsweredTwice(s: Setup, n: Net, asked: Phase, again: Phase, rsp1: Grant, rsp2: Grant, eph: Bytes) {
    && asked.Asked? && again.Asked?
    && n.traffic.bag == multiset{Packet(Left, Rsp(rsp1.msg)), Packet(Left, Rsp(rsp2.msg))}
    && Recorded(s, n.left, s.rightHandle, again) && IsTrusted(n.right, s.leftHandle, s.channel)
    && SignedAnswer(s, rsp1.msg, s.c.edPub(n.right.identity)) && SignedAnswer(s, rsp2.msg, s.c.edPub(n.right.identity))
    && SealedFor(s, rsp1.msg, eph, asked.ephSk, rsp1.key)
  }

  /** The first answered, the second still on its way. */
  ghost predicate AnsweredOnce(s: Setup, n: Net, asked: Phase, again: Phase, rsp1: Grant, eph: Bytes, at: real) {
    && asked.Asked? && again.Asked?
    && n.traffic.bag == multiset{Packet(Right, Req(again.req)), Packet(Left, Rsp(rsp1.msg))}
    && Recorded(s, n.left, s.rightHandle, again)
    && MadeWith(s, again.req, s.c.edPub(n.left.identity), again.ephSk)
    && Ready(s, n.right, s.leftHandle, s.c.edPub(n.left.identity), Limiter.Bucket([at], 0.0))
    && SignedAnswer(s, rsp1.msg, s.c.edPub(n.right.identity)) && SealedFor(s, rsp1.msg, eph, asked.ephSk, rsp1.key)
  }

  lemma FirstIsAnswered(s: Setup, n: Net, asked: Phase, again: Phase, x: Course)
    returns (rsp1: Grant, n1: Net, a: Action)
    requires s.Valid() && AskedTwice(s, n, asked, again) && x.Timely()
    ensures Goes(s, n, a, n1) && AnsweredOnce(s, n1, asked, again, rsp1, x.w1.eph, x.first)
  {
    FreshBucketAccepts(x.first);
    rsp1, n1, a := AnswerOnTheWay(s, n, asked.req, asked.ephSk, multiset{Packet(Right, Req(again.req))},
                                  Limiter.FRESH_BUCKET, x.nick, x.first, x.w1, x.newKey, x.other);
    AskedToOnce(s, n, n1, asked, again, rsp1, x.w1.eph, x.first);
  }

  lemma AskedToOnce(s: Setup, n: Net, n1: Net, asked: Phase, again: Phase, rsp1: Grant, eph: Bytes, at: real)
    requires AskedTwice(s, n, asked, again) && n1.left == n.left && n1.right.identity == n.right.identity
    requires n1.traffic.bag == multiset{Packet(Right, Req(again.req))} + multiset{Packet(Left, Rsp(rsp1.msg))}
    requires Ready(s, n1.right, s.leftHandle, s.c.edPub(n.left.identity), Limiter.Bucket([at], 0.0))
    requires SignedAnswer(s, rsp1.msg, s.c.edPub(n.right.identity))
    requires SealedFor(s, rsp1.msg, eph, asked.ephSk, rsp1.key)
    ensures AnsweredOnce(s, n1, asked, again, rsp1, eph, at)
  {
  }

  lemma SecondIsAnswered(s: Setup, n: Net, asked: Phase, again: Phase, rsp1: Grant, x: Course)
    returns (rsp2: Grant, n1: Net, a: Action)
    requires s.Valid() && AnsweredOnce(s, n, asked, again, rsp1, x.w1.eph, x.first) && x.Timely()
    ensures Goes(s, n, a, n1) && AnsweredTwice(s, n1, asked, again, rsp1, rsp2, x.w1.eph)
  {
    SecondOfTwoPasses(x.first, x.second);
    rsp2, n1, a := AnswerOnTheWay(s, n, again.req, again.ephSk, multiset{Packet(Left, Rsp(rsp1.msg))},
                                  Limiter.Bucket([x.first], 0.0), x.nick, x.second, x.w2, x.newKey, x.other);
    OnceToTwice(s, n, n1, asked, again, rsp1, rsp2, x.w1.eph, x.first);
  }

  lemma OnceToTwice(s: Setup, n: Net, n1: Net, asked: Phase, again: Phase, rsp1: Grant, rsp2: Grant, eph: Bytes,
                    at: real)
    requires AnsweredOnce(s, n, asked, again, rsp1, eph, at)
    requires n1.left == n.left && n1.right.identity == n.right.identity
    requires n1.traffic.bag == multiset{Packet(Left, Rsp(rsp1.msg))} + multiset{Packet(Left, Rsp(rsp2.msg))}
    requires IsTrusted(n1.right, s.leftHandle, s.channel) && SignedAnswer(s, rsp2.msg, s.c.edPub(n.right.identity))
    ensures AnsweredTwice(s, n1, asked, again, rsp1, rsp2, eph)
  {
  }

  /** The outcome: nothing is under way, the right side has its session, the left side has none and waits for
      no answer. */
  ghost predicate Failed(s: Setup, n: Net) {
    && n.traffic.bag == multiset{} && IsTrusted(n.right, s.leftHandle, s.channel)
    && !IsTrusted(n.left, s.rightHandle, s.channel) && n.left.pending == map[]
  }

  lemma BothArrive(s: Setup, n: Net, asked: Phase, again: Phase, rsp1: Grant, rsp2: Grant, eph: Bytes, x: Course)
    returns (n1: Net, n2: Net, a1: Action, a2: Action)
    requires s.Valid() && AnsweredTwice(s, n, asked, again, rsp1, rsp2, eph) && x.Timely()
    requires Apart(s.c, asked.ephSk, again.ephSk)
    ensures Goes(s, n, a1, n1) && Goes(s, n1, a2, n2) && Failed(s, n2)
  {
    ForeignAnswerStaysShut(s, asked.ephSk, again.ephSk, rsp1.msg, eph, rsp1.key);
    WrongAnswerSpoils(s, n.left, s.rightHandle, s.c.edPub(n.right.identity), again, rsp1.msg, rsp2.msg, x.third,
                      x.last);
    var left := n.left.(pending := map[]);
    a1 := Deliver(Packet(Left, Rsp(rsp1.msg)), x.nick, x.third, x.w1, x.newKey, x.other);
    AnswerArrives(s, n, rsp1.msg, multiset{Packet(Left, Rsp(rsp2.msg))}, left, x.nick, x.third, x.w1, x.newKey,
                  x.other);
    n1 := Next(s, n, a1);
    a2 := Deliver(Packet(Left, Rsp(rsp2.msg)), x.nick, x.last, x.w1, x.newKey, x.other);
    AnswerArrives(s, n1, rsp2.msg, multiset{}, left, x.nick, x.last, x.w1, x.newKey, x.other);
    n2 := Next(s, n1, a2);
  }

  /** A run goes on. */
  lemma OneMore(s: Setup, states: seq<Net>, actions: seq<Action>, a: Action, n: Net)
    requires IsLooseRun(s, states, actions) && Goes(s, states[|actions|], a, n)
    ensures IsLooseRun(s, states + [n], actions + [a])
  {
  }

  /** The left side asks again two minutes later; both requests are answered, and the answers arrive in the
      order of the requests. */
  lemma RetryFails(s: Setup, start: seq<Net>, before: seq<Action>, asked: Phase, x: Course)
    returns (states: seq<Net>, actions: seq<Action>)
    requires s.Valid() && IsLooseRun(s, start, before)
    requires HalfDone(s, start[|before|], asked) && x.Timely() && Apart(s.c, asked.ephSk, x.q.eph)
    requires var left := start[|before|].left;
             !StillWaits(left, s.channel, s.rightHandle, x.asked) && AllowOutgoing(left, s.rightHandle, x.asked).1
    ensures IsLooseRun(s, states, actions) && states[0] == start[0] && Failed(s, states[|actions|])
  {
    var again, n1, a1 := SecondAsk(s, start[|before|], asked, x);
    OneMore(s, start, before, a1, n1);
    var rsp1, n2, a2 := FirstIsAnswered(s, n1, asked, again, x);
    OneMore(s, start + [n1], before + [a1], a2, n2);
    var rsp2, n3, a3 := SecondIsAnswered(s, n2, asked, again, rsp1, x);
    OneMore(s, start + [n1] + [n2], before + [a1] + [a2], a3, n3);
    var n4, n5, a4, a5 := BothArrive(s, n3, asked, again, rsp1, rsp2, x.w1.eph, x);
    OneMore(s, start + [n1] + [n2] + [n3], before + [a1] + [a2] + [a3], a4, n4);
    OneMore(s, start + [n1] + [n2] + [n3] + [n4], before + [a1] + [a2] + [a3] + [a4], a5, n5);
    states, actions := start + [n1] + [n2] + [n3] + [n4] + [n5], before + [a1] + [a2] + [a3] + [a4] + [a5];
  }

  // ---------------------------------------------------------------- from the start

  lemma InitInv(s: Setup, n: Net)
    requires s.Valid() && Init(s, n)
    ensures Inv(s, n, Progress(Idle, Idle))
  {
  }

  lemma RightMayAsk(s: Setup, n: Net, q: ReqDraw) returns (a: Action)
    requires Init(s, n)
    ensures Enabled(s, n, a) && a.Issue? && a.side.Right?
  {
    a := Issue(Right, 30.0, q);
  }

  /** Where a side is, a message is under way. */
  lemma PhaseNamesPacket(t: Traffic, g: Progress, x: Side)
    requires Counted(t, g)
    ensures g.Of(x).Asked? ==> Packet(x.Other(), Req(g.Of(x).req)) in t.bag
    ensures g.Of(x).Answered? ==> Packet(x, Rsp(g.Of(x).rsp)) in t.bag
  {
  }

  lemma IsHalfDone(s: Setup, n: Net, g: Progress)
    requires Inv(s, n, g) && g.left.Asked? && g.right.Done?
    ensures HalfDone(s, n, g.left)
  {
  }

  lemma RightAsks(s: Setup, n: Net, a: Action) returns (g: Progress, n1: Net)
    requires s.Valid() && Inv(s, n, Progress(Idle, Idle)) && Enabled(s, n, a) && a.Issue? && a.side.Right?
    ensures Goes(s, n, a, n1) && Inv(s, n1, g) && g.right.Asked? && g.left.Idle?
  {
    g := IssueKeepsInv(s, n, Progress(Idle, Idle), a);
    n1 := Next(s, n, a);
  }

  lemma FirstToAsk(s: Setup, n: Net, q: ReqDraw) returns (g: Progress, n1: Net, a: Action)
    requires s.Valid() && Init(s, n)
    ensures Goes(s, n, a, n1) && Inv(s, n1, g) && g.right.Asked? && g.left.Idle?
  {
    a := RightMayAsk(s, n, q);
    InitInv(s, n);
    g, n1 := RightAsks(s, n, a);
  }

  lemma LeftAnswers(s: Setup, n: Net, g: Progress, q: ReqDraw) returns (g1: Progress, n1: Net, a: Action)
    requires s.Valid() && Inv(s, n, g) && g.right.Asked? && g.left.Idle?
    ensures Goes(s, n, a, n1) && Inv(s, n1, g1) && g1.right.Answered? && g1.left.Asked? && g1.left.ephSk == q.eph
  {
    PhaseNamesPacket(n.traffic, g, Right);
    a := Deliver(Packet(Left, Req(g.right.req)), "", 30.0, WrapDraw(Zeros(32), Zeros(24), Zeros(16)), Zeros(32), q);
    g1 := RequestKeepsInv(s, n, g, a);
    n1 := Next(s, n, a);
  }

  lemma RightInstalls(s: Setup, n: Net, g: Progress, q: ReqDraw) returns (n1: Net, a: Action)
    requires s.Valid() && Inv(s, n, g) && g.right.Answered? && g.left.Asked?
    ensures Goes(s, n, a, n1) && HalfDone(s, n1, g.left)
  {
    PhaseNamesPacket(n.traffic, g, Right);
    a := Deliver(Packet(Right, Rsp(g.right.rsp)), "", 30.0, WrapDraw(Zeros(32), Zeros(24), Zeros(16)), Zeros(32), q);
    var g1 := ResponseKeepsInv(s, n, g, a);
    n1 := Next(s, n, a);
    IsHalfDone(s, n1, g1);
  }

  /** The right side asks, the left side answers and asks in turn, and the right side gets its answer. */
  lemma HalfWay(s: Setup, n: Net, a: Bytes) returns (states: seq<Net>, actions: seq<Action>, asked: Phase)
    requires s.Valid() && Init(s, n)
    ensures IsLooseRun(s, states, actions) && states[0] == n
    ensures HalfDone(s, states[|actions|], asked) && asked.ephSk == a
  {
    var q := ReqDraw(a, Zeros(16));
    var g1, n1, a1 := FirstToAsk(s, n, q);
    var g2, n2, a2 := LeftAnswers(s, n1, g1, q);
    var n3, a3 := RightInstalls(s, n2, g2, q);
    states, actions := ThreeInARow(s, n, n1, n2, n3, a1, a2, a3);
    asked := g2.left;
  }

  lemma ThreeInARow(s: Setup, n: Net, n1: Net, n2: Net, n3: Net, a1: Action, a2: Action, a3: Action)
    returns (states: seq<Net>, actions: seq<Action>)
    requires Goes(s, n, a1, n1) && Goes(s, n1, a2, n2) && Goes(s, n2, a3, n3)
    ensures IsLooseRun(s, states, actions) && |actions| == 3 && states[0] == n && states[3] == n3
  {
    states, actions := [n] + [n1] + [n2] + [n3], [] + [a1] + [a2] + [a3];
    OneMore(s, [n], [], a1, n1);
    OneMore(s, [n] + [n1], [] + [a1], a2, n2);
    OneMore(s, [n] + [n1] + [n2], [] + [a1] + [a2], a3, n3);
  }

  lemma LateEnough(s: Setup, r: Ring, peer: Handle, p: Phase) returns (now: real)
    requires p.Asked? && Recorded(s, r, peer, p)
    ensures now >= KEYREQ_MIN_INTERVAL && !StillWaits(r, s.channel, peer, now) && AllowOutgoing(r, peer, now).1
  {
    var k := PendingKey(s.channel, peer);
    assert k in r.pending;
    var made := r.pending[k].createdAt;
    var last := if peer in r.lastSent then r.lastSent[peer].Floor + 1 else 0;
    var t := (if made > 0 then made else 0) + (if last > 0 then last else 0) + 120;
    now := t as real;
    assert now.Floor == t;
  }

  /** Two clients that answer by themselves can exchange all messages of a handshake, with nothing lost, and one
      of them ends without a session: it gave up a request, and the answer to that came first. */
  lemma RetriedHandshakeCanFail(s: Setup, n: Net, a: Bytes, b: Bytes)
    requires s.Valid() && Init(s, n) && Apart(s.c, a, b)
    ensures exists states, actions ::
              IsLooseRun(s, states, actions) && states[0] == n && Failed(s, states[|actions|])
  {
    var start, before, asked := HalfWay(s, n, a);
    var now := LateEnough(s, start[|before|].left, s.rightHandle, asked);
    var w := WrapDraw(Zeros(32), Zeros(24), Zeros(16));
    var x := Course(now, now, now, now, now, ReqDraw(b, Zeros(16)), w, w, Zeros(32), ReqDraw(b, Zeros(16)), "");
    var states, actions := RetryFails(s, start, before, asked, x);
    assert IsLooseRun(s, states, actions);
  }

  /** Such a start and such secrets exist. */
  lemma SuchSecretsExist()
    ensures ToySuite().Lawful() && Apart(ToySuite(), Zeros(32), Ones(32))
    ensures var s := Setup(ToySuite(), "#c", "a@h", "b@h");
            var side := EmptyRing(Zeros(32)).(channels := map["#c" := Settings(true, AutoAccept)]);
            s.Valid() && Init(s, Net(side, side, NO_TRAFFIC))
  {
    LawsCanHold();
    forall eph, n, info, key
      ensures var c := ToySuite();
              c.open(Mix(Ones(32), Canonical(eph)), n, info, c.seal(Mix(Zeros(32), Canonical(eph)), n, info, key))
              == None
    {
      ToyApart(eph, n, info, key);
    }
  }

  lemma ToyApart(eph: Bytes, n: Bytes, info: Bytes, key: Bytes)
    ensures var c := ToySuite();
            c.open(Mix(Ones(32), Canonical(eph)), n, info, c.seal(Mix(Zeros(32), Canonical(eph)), n, info, key))
            == None
  {
    var (k1, k2) := (Mix(Zeros(32), Canonical(eph)), Mix(Ones(32), Canonical(eph)));
    assert k1[0] != k2[0];
    assert Tag(k1)[0] == k1[0] && Tag(k2)[0] == k2[0];
    var sealed := key + Tag(k1);
    assert sealed[|sealed| - 16..] == Tag(k1);
  }
}
