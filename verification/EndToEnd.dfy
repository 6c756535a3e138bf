/** The handshake and the encrypted lines put together: what two clients can do once it is over. */
module EndToEnd {
  import opened Basics
  import opened Keyring
  import opened Convergence
  import opened Delivery
  import Chunker
  import Payloads
  import Wire
  import Wrapping

  /** A side whose own request is settled sends under the key its peer holds. */
  lemma SettledSideSends(s: Setup, r: Ring, peerRing: Ring, peer: Handle, p: Phase, self: Handle, now: real,
                         newKey: Bytes, draws: Handle -> WrapDraw)
    requires SideInv(s, r, peerRing, peer, p, Done) && Holds(s, peerRing, self, r)
    ensures var (r1, effects) := SendText(s.c, r, s.channel, now, newKey, draws);
            && r1 == r && effects.rekeys == map[]
            && effects.textKey == Some(peerRing.incoming[(self, s.channel)].sk)
  {
  }

  /** The line that is typed, the random bytes drawn for it, and when it is sent and received. */
  datatype Typing = Typing(text: string, now: real, later: real, newKey: Bytes, draws: Handle -> WrapDraw,
                           msgid: Bytes, nonces: seq<Bytes>)

  /** The line is not too long to cut up, the clocks agree within the tolerance, the random bytes are of the
      right sizes. */
  predicate Fit(s: Setup, t: Typing) {
    && IsChannel(s.channel) && Packable(s.channel, Seconds(t.now))
    && Chunker.SplitOutcome(t.text).Ok? && Distance(Seconds(t.later), Seconds(t.now)) <= TS_TOLERANCE
    && |t.newKey| == Payloads.KEY_LEN && |t.msgid| == Wire.MSGID_LEN
    && |t.nonces| >= Chunker.MAX_CHUNKS && forall i | 0 <= i < |t.nonces| :: |t.nonces[i]| == Wire.NONCE_LEN
  }

  /** The receiver reads the line, all of it, from the lines that the sender makes of it under this key. */
  ghost predicate IsRead(s: Setup, receiver: Ring, self: Handle, key: Bytes, t: Typing)
    requires Fit(s, t)
  {
    var lines := MessageOf(s.c, key, s.channel, t.text, t.msgid, Seconds(t.now), t.nonces).value;
    Reads(ReceiveAll(s.c, receiver, self, s.channel, lines, t.later)) == Some(t.text)
  }

  /** What the sender types next is encrypted under the channel key it already has, with no rekeying, and
      the receiver reads it. */
  ghost predicate Talks(s: Setup, sender: Ring, receiver: Ring, self: Handle, t: Typing)
    requires Fit(s, t)
  {
    var (sender1, effects) := SendText(s.c, sender, s.channel, t.now, t.newKey, t.draws);
    && sender1 == sender && effects.rekeys == map[] && effects.textKey.Some?
    && IsRead(s, receiver, self, effects.textKey.value, t)
  }

  /** After any run of the handshake that leaves nothing under way, the other side reads whatever one side
      types. */
  lemma ConvergedPeersTalk(s: Setup, states: seq<Net>, actions: seq<Action>, x: Side, t: Typing)
    requires s.Valid() && IsRun(s, states, actions) && Init(s, states[0])
    requires states[|actions|].traffic.bag == multiset{} && states[|actions|].traffic.reqs > 0
    requires Fit(s, t)
    ensures Talks(s, states[|actions|].Of(x), states[|actions|].Of(x.Other()), s.HandleOf(x), t)
  {
    BothDone(s, states, actions, x);
    var n := states[|actions|];
    TalkFrom(s, n.Of(x), n.Of(x.Other()), s.HandleOf(x), s.HandleOf(x.Other()), t);
  }

  lemma BothDone(s: Setup, states: seq<Net>, actions: seq<Action>, x: Side)
    requires s.Valid() && IsRun(s, states, actions) && Init(s, states[0])
    requires states[|actions|].traffic.bag == multiset{} && states[|actions|].traffic.reqs > 0
    ensures var n := states[|actions|];
            var (r, peerRing) := (n.Of(x), n.Of(x.Other()));
            && SideInv(s, r, peerRing, s.HandleOf(x.Other()), Done, Done)
            && SideInv(s, peerRing, r, s.HandleOf(x), Done, Done)
            && Holds(s, peerRing, s.HandleOf(x), r)
  {
    var g := RunKeepsInv(s, states, actions);
    var n := states[|actions|];
    DoneHolds(s, n, g);
    CountsBound(n.traffic, g);
    SidesFrom(s, n, g, x);
  }

  lemma TalkFrom(s: Setup, r: Ring, peerRing: Ring, self: Handle, peer: Handle, t: Typing)
    requires s.Valid() && SideInv(s, r, peerRing, peer, Done, Done) && Holds(s, peerRing, self, r) && Fit(s, t)
    ensures Talks(s, r, peerRing, self, t)
  {
    SettledSideSends(s, r, peerRing, peer, Done, self, t.now, t.newKey, t.draws);
    MessageArrives(s.c, peerRing, self, s.channel, t.text, t.msgid, Seconds(t.now), t.nonces, t.later);
  }

  // ---------------------------------------------------------------- after a rotation

  /** The sender asks for a rotation and types a line. The line goes out under the new key, and with it a
      REKEY for the peer, to the nick that is the ident of its handle. Once that has arrived, the receiver
      has the new key and reads the line. */
  ghost predicate RotatesAndTalks(s: Setup, sender: Ring, receiver: Ring, self: Handle, peer: Handle, t: Typing)
    requires Fit(s, t)
  {
    var effects := SendText(s.c, Rotate(sender, s.channel), s.channel, t.now, t.newKey, t.draws).1;
    && effects.textKey == Some(t.newKey)
    && peer in effects.rekeys && effects.rekeys[peer].nick == Ident(peer)
    && var receiver1 := HandleRekey(s.c, receiver, self, Some(effects.rekeys[peer].grant.msg), t.now).0;
       && IsTrusted(receiver1, self, s.channel) && receiver1.incoming[(self, s.channel)].sk == t.newKey
       && IsRead(s, receiver1, self, t.newKey, t)
  }

  lemma DueRotationSends(s: Setup, r: Ring, peer: Handle, t: Typing)
    requires IsEnabled(r, s.channel) && s.channel in r.outgoing && r.outgoing[s.channel].pendingRotation
    requires (s.channel, peer) in r.recipients && r.recipients[(s.channel, peer)].fp in r.peers
    ensures var effects := SendText(s.c, r, s.channel, t.now, t.newKey, t.draws).1;
            && effects.textKey == Some(t.newKey) && peer in effects.rekeys
            && effects.rekeys[peer]
               == RekeyFor(s.c, r.identity, s.channel, peer, r.peers[r.recipients[(s.channel, peer)].fp], t.newKey,
                           t.draws(peer))
  {
    var r1 := OutgoingKey(r, s.channel, t.now, t.newKey).0;
    assert (s.channel, peer) in r1.recipients && peer in Reachable(r1, s.channel);
  }

  lemma RotationSends(s: Setup, r: Ring, peerRing: Ring, peer: Handle, t: Typing)
    requires SideInv(s, r, peerRing, peer, Done, Done) && s.channel in r.outgoing
    ensures var effects := SendText(s.c, Rotate(r, s.channel), s.channel, t.now, t.newKey, t.draws).1;
            && effects.textKey == Some(t.newKey) && peer in effects.rekeys
            && effects.rekeys[peer]
               == Rekey(Ident(peer), GrantRekey(s.c, r.identity, s.channel, peer, s.c.edPub(peerRing.identity),
                                                t.newKey, t.draws(peer)))
  {
    DueRotationSends(s, Rotate(r, s.channel), peer, t);
  }

  lemma RotationArrives(s: Setup, r: Ring, peerRing: Ring, self: Handle, peer: Handle, t: Typing)
    requires s.Valid() && SideInv(s, peerRing, r, self, Done, Done) && Holds(s, peerRing, self, r) && Fit(s, t)
    ensures var m := GrantRekey(s.c, r.identity, s.channel, peer, s.c.edPub(peerRing.identity), t.newKey,
                                t.draws(peer)).msg;
            var peerRing1 := HandleRekey(s.c, peerRing, self, Some(m), t.now).0;
            && IsTrusted(peerRing1, self, s.channel) && peerRing1.incoming[(self, s.channel)].sk == t.newKey
            && IsRead(s, peerRing1, self, t.newKey, t)
  {
    var fp := s.c.fingerprint(s.c.edPub(r.identity));
    assert Classify(peerRing.peers, fp, self).Known? && !SessionClash(peerRing, self, s.channel, fp);
    Wrapping.RekeyOpens(s.c, r, peerRing, s.channel, self, peer, t.newKey, t.draws(peer), t.now);
    var peerRing1 := peerRing.(incoming := peerRing.incoming[(self, s.channel) :=
                                             Session(fp, t.newKey, Trusted, Seconds(t.now))]);
    MessageArrives(s.c, peerRing1, self, s.channel, t.text, t.msgid, Seconds(t.now), t.nonces, t.later);
  }

  /** After any run of the handshake that leaves nothing under way, a rotation followed by a line. */
  lemma ConvergedPeersRotate(s: Setup, states: seq<Net>, actions: seq<Action>, x: Side, t: Typing)
    requires s.Valid() && IsRun(s, states, actions) && Init(s, states[0])
    requires states[|actions|].traffic.bag == multiset{} && states[|actions|].traffic.reqs > 0
    requires Fit(s, t)
    ensures RotatesAndTalks(s, states[|actions|].Of(x), states[|actions|].Of(x.Other()), s.HandleOf(x),
                            s.HandleOf(x.Other()), t)
  {
    BothDone(s, states, actions, x);
    var n := states[|actions|];
    RotationSends(s, n.Of(x), n.Of(x.Other()), s.HandleOf(x.Other()), t);
    RotationArrives(s, n.Of(x), n.Of(x.Other()), s.HandleOf(x), s.HandleOf(x.Other()), t);
  }
}
