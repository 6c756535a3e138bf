/** Wrapped session keys: what the sender put in is what the addressed request opens, and every key a
    run installs answers a KEYREQ of that run. */
module Wrapping {
  import opened Basics
  import opened CryptoSuite
  import opened Payloads
  import opened Keyring
  import opened Pinning

  /** A message of our own making verifies, names us, and opens under the other half of the exchange. */
  lemma SealedWrapOpens(c: Suite, identity: Bytes, tag: Bytes, channel: Channel, shared: Bytes, info: Bytes,
                        key: Bytes, d: WrapDraw)
    requires c.Lawful() && |key| == KEY_LEN
    ensures var m := SealedWrap(c, identity, tag, channel, c.kdf(shared, info), info, key, d);
            && m.pub == c.edPub(identity) && m.eph == c.xPub(d.eph) && m.channel == channel
            && c.verify(m.pub, WrapPayload(tag, m), m.sig)
            && OpenWrap(c, Some(shared), info, m) == Some(key)
  {
    var m := SealedWrap(c, identity, tag, channel, c.kdf(shared, info), info, key, d);
    assert c.Signed(identity, WrapPayload(tag, m));
    assert c.Sealed(c.kdf(shared, info), d.wrapNonce, info, m.wrapCt, key);
  }

  /** The KEYRSP built for a request opens, with that request's secret, to the responder's channel key. */
  lemma KeyrspCarriesKey(c: Suite, p: Ring, channel: Channel, to: Handle, pub: Bytes, ephSk: Bytes, now: real,
                         d: WrapDraw, newKey: Bytes)
    requires c.Lawful()
    requires |newKey| == KEY_LEN && (channel in p.outgoing ==> |p.outgoing[channel].sk| == KEY_LEN)
    ensures var (p1, rsp) := BuildKeyrsp(c, p, channel, to, pub, c.xPub(ephSk), now, d, newKey);
            && rsp.Some?
            && channel in p1.outgoing && rsp.value.key == p1.outgoing[channel].sk
            && rsp.value.msg.channel == channel && rsp.value.msg.pub == c.edPub(p.identity)
            && c.verify(rsp.value.msg.pub, WrapPayload(KEYRSP_TAG, rsp.value.msg), rsp.value.msg.sig)
            && OpenWrap(c, c.dh(ephSk, rsp.value.msg.eph), WrapInfo(channel), rsp.value.msg) == Some(rsp.value.key)
  {
    var shared := c.dh(d.eph, c.xPub(ephSk));
    assert c.Exchange(d.eph, ephSk);
    var key := OutgoingKey(p, channel, now, newKey).1;
    SealedWrapOpens(c, p.identity, KEYRSP_TAG, channel, shared.value, WrapInfo(channel), key, d);
  }

  /** A REKEY opens at its addressee: a client that knows the sender, and whose session does not clash,
      installs exactly the new key. */
  lemma RekeyOpens(c: Suite, r: Ring, peer: Ring, channel: Channel, self: Handle, to: Handle, key: Bytes, d: WrapDraw,
                   now: real)
    requires c.Lawful() && |key| == KEY_LEN
    requires Classify(peer.peers, c.fingerprint(c.edPub(r.identity)), self).Known?
    requires !SessionClash(peer, self, channel, c.fingerprint(c.edPub(r.identity)))
    ensures var m := GrantRekey(c, r.identity, channel, to, c.edPub(peer.identity), key, d).msg;
            HandleRekey(c, peer, self, Some(m), now)
            == (peer.(incoming := peer.incoming[(self, channel) :=
                                    Session(c.fingerprint(c.edPub(r.identity)), key, Trusted, Seconds(now))]),
                SILENT.(installed := true))
  {
    var shared := c.toPeer(d.eph, c.edPub(peer.identity));
    assert c.PeerExchange(d.eph, peer.identity);
    SealedWrapOpens(c, r.identity, REKEY_TAG, channel, shared, RekeyInfo(channel), key, d);
  }

  /** In a pinned keyring there is no clash. */
  lemma RekeyInstalls(c: Suite, r: Ring, peer: Ring, channel: Channel, self: Handle, to: Handle, key: Bytes,
                      d: WrapDraw, now: real)
    requires c.Lawful() && |key| == KEY_LEN && Pinned(c, peer)
    requires Classify(peer.peers, c.fingerprint(c.edPub(r.identity)), self).Known?
    ensures var m := GrantRekey(c, r.identity, channel, to, c.edPub(peer.identity), key, d).msg;
            var (peer1, effects) := HandleRekey(c, peer, self, Some(m), now);
            && effects.installed && IsTrusted(peer1, self, channel)
            && peer1.incoming[(self, channel)].sk == key
            && peer1.incoming[(self, channel)].fp == c.fingerprint(c.edPub(r.identity))
  {
    NoSessionClash(c, peer, self, channel, c.fingerprint(c.edPub(r.identity)));
    RekeyOpens(c, r, peer, channel, self, to, key, d, now);
  }

  lemma RekeyTrusts(c: Suite, r: Ring, cut: Ring, channel: Channel, self: Handle, to: Handle, key: Bytes, d: WrapDraw,
                    now: real)
    requires c.Lawful() && |key| == KEY_LEN && Pinned(c, cut)
    requires Classify(cut.peers, c.fingerprint(c.edPub(r.identity)), self).Known?
    ensures var m := GrantRekey(c, r.identity, channel, to, c.edPub(cut.identity), key, d).msg;
            IsTrusted(HandleRekey(c, cut, self, Some(m), now).0, self, channel)
  {
    RekeyInstalls(c, r, cut, channel, self, to, key, d, now);
  }

  /** Revoking or declining a session lasts only until the peer's next REKEY, which needs no KEYREQ of ours:
      it makes the session trusted again. */
  lemma RekeyUndoesRevoke(c: Suite, r: Ring, peer: Ring, channel: Channel, self: Handle, to: Handle, key: Bytes,
                          d: WrapDraw, now: real, cut: Ring)
    requires c.Lawful() && |key| == KEY_LEN && Pinned(c, peer)
    requires Classify(peer.peers, c.fingerprint(c.edPub(r.identity)), self).Known?
    requires cut == Revoke(peer, channel, self) || cut == Decline(peer, channel, self)
    ensures var m := GrantRekey(c, r.identity, channel, to, c.edPub(peer.identity), key, d).msg;
            !IsTrusted(cut, self, channel) && IsTrusted(HandleRekey(c, cut, self, Some(m), now).0, self, channel)
  {
    RevokeKeepsPins(c, peer, channel, self);
    RevokeCuts(peer, channel, self);
    RekeyTrusts(c, r, cut, channel, self, to, key, d, now);
  }

  lemma RevokeCuts(peer: Ring, channel: Channel, self: Handle)
    ensures !IsTrusted(Revoke(peer, channel, self), self, channel)
    ensures !IsTrusted(Decline(peer, channel, self), self, channel)
    ensures Revoke(peer, channel, self).peers == peer.peers && Revoke(peer, channel, self).identity == peer.identity
    ensures Decline(peer, channel, self).peers == peer.peers && Decline(peer, channel, self).identity == peer.identity
  {
  }

  /** A channel key as a sender wraps it for one peer, and when it arrives. */
  datatype Wrapped = Wrapped(key: Bytes, draw: WrapDraw, now: real)

  function Arrival(c: Suite, identity: Bytes, channel: Channel, self: Handle, to: Handle, pk: Bytes, k: Wrapped)
    : Event
  {
    RecvRekey(self, Some(GrantRekey(c, identity, channel, to, pk, k.key, k.draw).msg), k.now)
  }

  function Arrivals(c: Suite, identity: Bytes, channel: Channel, self: Handle, to: Handle, pk: Bytes,
                    keys: seq<Wrapped>): (events: seq<Event>)
    ensures |events| == |keys|
  {
    seq(|keys|, i requires 0 <= i < |keys| => Arrival(c, identity, channel, self, to, pk, keys[i]))
  }

  lemma ArrivalInstalls(c: Suite, r: Ring, peer: Ring, channel: Channel, self: Handle, to: Handle, k: Wrapped)
    requires c.Lawful() && |k.key| == KEY_LEN && Pinned(c, peer)
    requires Classify(peer.peers, c.fingerprint(c.edPub(r.identity)), self).Known?
    ensures var peer1 := Step(c, peer, Arrival(c, r.identity, channel, self, to, c.edPub(peer.identity), k)).0;
            && Pinned(c, peer1) && peer1.peers == peer.peers && peer1.identity == peer.identity
            && IsTrusted(peer1, self, channel) && peer1.incoming[(self, channel)].sk == k.key
  {
    StepKeepsPins(c, peer, Arrival(c, r.identity, channel, self, to, c.edPub(peer.identity), k));
    RekeyInstalls(c, r, peer, channel, self, to, k.key, k.draw, k.now);
  }

  /** Whatever REKEYs of a known sender arrive, in whatever order and however often each: the session holds the
      key of the last one. */
  lemma {:induction false} LastRekeyWins(c: Suite, r: Ring, peer: Ring, channel: Channel, self: Handle, to: Handle,
                                         keys: seq<Wrapped>)
    requires c.Lawful() && Pinned(c, peer) && forall k <- keys :: |k.key| == KEY_LEN
    requires Classify(peer.peers, c.fingerprint(c.edPub(r.identity)), self).Known?
    ensures var peer1 := Run(c, peer, Arrivals(c, r.identity, channel, self, to, c.edPub(peer.identity), keys)).0;
            && Pinned(c, peer1) && peer1.peers == peer.peers && peer1.identity == peer.identity
            && (keys != [] ==> IsTrusted(peer1, self, channel)
                               && peer1.incoming[(self, channel)].sk == keys[|keys| - 1].key)
  {
    if keys != [] {
      var n := |keys| - 1;
      LastRekeyWins(c, r, peer, channel, self, to, keys[..n]);
      ArrivalsOfPrefix(c, r.identity, channel, self, to, c.edPub(peer.identity), keys);
      var mid := Run(c, peer, Arrivals(c, r.identity, channel, self, to, c.edPub(peer.identity), keys[..n])).0;
      ArrivalInstalls(c, r, mid, channel, self, to, keys[n]);
    }
  }

  lemma ArrivalsOfPrefix(c: Suite, identity: Bytes, channel: Channel, self: Handle, to: Handle, pk: Bytes,
                         keys: seq<Wrapped>)
    requires keys != []
    ensures var n := |keys| - 1;
            Arrivals(c, identity, channel, self, to, pk, keys)[..n]
            == Arrivals(c, identity, channel, self, to, pk, keys[..n])
  {
  }

  /** So session keys need not move forward: a REKEY delivered a second time brings back the key it carries. */
  lemma ReplayedRekeyBringsBackKey(c: Suite, r: Ring, peer: Ring, channel: Channel, self: Handle, to: Handle,
                                   first: Wrapped, second: Wrapped, again: real)
    requires c.Lawful() && Pinned(c, peer) && |first.key| == |second.key| == KEY_LEN
    requires Classify(peer.peers, c.fingerprint(c.edPub(r.identity)), self).Known?
    ensures var peer1 := Run(c, peer, Arrivals(c, r.identity, channel, self, to, c.edPub(peer.identity),
                                               [first, second, first.(now := again)])).0;
            IsTrusted(peer1, self, channel) && peer1.incoming[(self, channel)].sk == first.key
  {
    LastRekeyWins(c, r, peer, channel, self, to, [first, second, first.(now := again)]);
  }

  // ---------------------------------------------------------------- every installed key was asked for

  ghost predicate AskedWith(c: Suite, effects: seq<Effects>, ephSk: Bytes) {
    exists i :: 0 <= i < |effects| && effects[i].req.Some? && effects[i].req.value.eph == c.xPub(ephSk)
  }

  ghost predicate AllAsked(c: Suite, r: Ring, effects: seq<Effects>) {
    forall k <- r.pending :: AskedWith(c, effects, r.pending[k].ephSk)
  }

  lemma RemoteSendsRequests(c: Suite, r: Ring, e: Event)
    requires Remote(e)
    ensures RequestsSent(c, r.pending, RemoteStep(c, r, e).0.pending, RemoteStep(c, r, e).1.req)
  {
    match e
    case RecvKeyreq(sender, nick, req, now, w, newKey, q) =>
    case RecvKeyrsp(sender, rsp, now) =>
    case RecvRekey(sender, rekey, now) =>
    case RecvLine(sender, channel, now, q) =>
  }

  lemma StepSendsRequests(c: Suite, r: Ring, e: Event)
    ensures RequestsSent(c, r.pending, Step(c, r, e).0.pending, Step(c, r, e).1.req)
  {
    if Remote(e) {
      RemoteSendsRequests(c, r, e);
    } else if e.DoAccept? || e.Say? || e.DoHandshake? {
    } else {
      CommandsSendNothing(r, e);
    }
  }

  lemma CommandsSendNothing(r: Ring, e: Event)
    ensures QuietCommand(r, e).pending == if e.Restart? then map[] else r.pending
  {
  }

  lemma {:induction false} OutstandingWereAsked(c: Suite, identity: Bytes, events: seq<Event>)
    ensures var (r, effects) := Run(c, EmptyRing(identity), events);
            AllAsked(c, r, effects)
  {
    if events != [] {
      var before, last := events[..|events| - 1], events[|events| - 1];
      OutstandingWereAsked(c, identity, before);
      var (mid, sofar) := Run(c, EmptyRing(identity), before);
      var (r, effects) := Run(c, EmptyRing(identity), events);
      StepSendsRequests(c, mid, last);
      forall k | k in r.pending
        ensures AskedWith(c, effects, r.pending[k].ephSk)
      {
        if k in mid.pending && r.pending[k] == mid.pending[k] {
          var i :| 0 <= i < |sofar| && sofar[i].req.Some? && sofar[i].req.value.eph == c.xPub(mid.pending[k].ephSk);
          assert effects[i] == sofar[i];
        } else {
          assert effects[|sofar|].req.Some?;
        }
      }
    }
  }

  /** The key installed by a KEYRSP is the one its sender sealed for the ephemeral key of a KEYREQ we
      sent earlier in the run. */
  lemma InstallAnswersRequest(c: Suite, identity: Bytes, events: seq<Event>, sender: Handle, m: KeyWrap, now: real)
    requires c.SealsRight()
    requires HandleKeyrsp(c, Run(c, EmptyRing(identity), events).0, sender, Some(m), now).1.installed
    ensures var (r, effects) := Run(c, EmptyRing(identity), events);
            var key := HandleKeyrsp(c, r, sender, Some(m), now).0.incoming[(sender, m.channel)].sk;
            exists ephSk, shared :: AskedWith(c, effects, ephSk) && c.dh(ephSk, m.eph) == Some(shared)
              && m.wrapCt == c.seal(c.kdf(shared, WrapInfo(m.channel)), m.wrapNonce, WrapInfo(m.channel), key)
  {
    var (r, effects) := Run(c, EmptyRing(identity), events);
    OutstandingWereAsked(c, identity, events);
    var ephSk := r.pending[AnsweredRequest(r, m.channel, sender).value].ephSk;
    assert AskedWith(c, effects, ephSk);
    var shared := c.dh(ephSk, m.eph);
    var key := OpenWrap(c, shared, WrapInfo(m.channel), m);
    assert c.Sealed(c.kdf(shared.value, WrapInfo(m.channel)), m.wrapNonce, WrapInfo(m.channel), m.wrapCt, key.value);
    assert c.dh(ephSk, m.eph) == Some(shared.value);
  }
}
