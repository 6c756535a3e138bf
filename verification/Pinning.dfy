/** What every step keeps: fingerprints and handles stay paired one to one, and every session,
    cached request and recipient belongs to the fingerprint its handle is pinned to. */
module Pinning {
  import opened Basics
  import opened CryptoSuite
  import opened Payloads
  import opened Keyring

  /** The fingerprint is the one this handle is pinned to. */
  ghost predicate PinnedTo(peers: map<Bytes, Peer>, fp: Bytes, handle: Handle) {
    fp in peers && peers[fp].lastHandle == handle
  }

  ghost predicate OneToOne(c: Suite, peers: map<Bytes, Peer>) {
    && (forall f, g | f in peers && g in peers && peers[f].lastHandle == peers[g].lastHandle :: f == g)
    && forall f <- peers :: c.fingerprint(peers[f].pk) == f
  }

  ghost predicate SessionsPinned(peers: map<Bytes, Peer>, incoming: map<(Handle, Channel), Session>) {
    forall k <- incoming :: PinnedTo(peers, incoming[k].fp, k.0)
  }

  ghost predicate InboundPinned(c: Suite, peers: map<Bytes, Peer>, inbound: map<(Handle, Channel), Inbound>) {
    forall k <- inbound :: inbound[k].sender == k.0 && PinnedTo(peers, c.fingerprint(inbound[k].pub), k.0)
  }

  ghost predicate RecipientsPinned(peers: map<Bytes, Peer>, recipients: map<(Channel, Handle), Recipient>) {
    forall k <- recipients :: PinnedTo(peers, recipients[k].fp, k.1)
  }

  ghost predicate Pinned(c: Suite, r: Ring) {
    && OneToOne(c, r.peers)
    && SessionsPinned(r.peers, r.incoming)
    && InboundPinned(c, r.peers, r.inbound)
    && RecipientsPinned(r.peers, r.recipients)
  }

  /** Writing the row of a fingerprint that is new, or keeps its handle, moves no pin. */
  lemma RewriteKeepsPins(c: Suite, r: Ring, p: Peer)
    requires Pinned(c, r)
    requires PinnedTo(r.peers, c.fingerprint(p.pk), p.lastHandle)
             || Classify(r.peers, c.fingerprint(p.pk), p.lastHandle).Known?
             || Classify(r.peers, c.fingerprint(p.pk), p.lastHandle).New?
    ensures Pinned(c, r.(peers := r.peers[c.fingerprint(p.pk) := p]))
  {
    var fp := c.fingerprint(p.pk);
    var peers := r.peers[fp := p];
    forall f, g | f in peers && g in peers && peers[f].lastHandle == peers[g].lastHandle
      ensures f == g
    {
      if fp !in r.peers {
        assert !HandlePinned(r.peers, p.lastHandle);
      }
    }
    forall f, h | PinnedTo(r.peers, f, h)
      ensures PinnedTo(peers, f, h)
    {
    }
  }

  /** In a pinned keyring no session can clash with a key that passed classification. */
  lemma NoSessionClash(c: Suite, r: Ring, sender: Handle, channel: Channel, fp: Bytes)
    requires Pinned(c, r)
    requires Classify(r.peers, fp, sender).Known? || Classify(r.peers, fp, sender).New?
    ensures !SessionClash(r, sender, channel, fp)
  {
    if (sender, channel) in r.incoming {
      var pinned := r.incoming[(sender, channel)].fp;
      assert PinnedTo(r.peers, pinned, sender);
      assert HandlePinned(r.peers, sender);
    }
  }

  /** Pinning speaks of four tables only. */
  lemma SameTables(c: Suite, r: Ring, r1: Ring)
    requires Pinned(c, r)
    requires r1.peers == r.peers && r1.incoming == r.incoming
    requires r1.inbound == r.inbound && r1.recipients == r.recipients
    ensures Pinned(c, r1)
  {
  }

  lemma PutSession(c: Suite, r: Ring, k: (Handle, Channel), s: Session)
    requires Pinned(c, r) && PinnedTo(r.peers, s.fp, k.0)
    ensures Pinned(c, r.(incoming := r.incoming[k := s]))
  {
  }

  lemma PutInbound(c: Suite, r: Ring, k: (Handle, Channel), m: Inbound)
    requires Pinned(c, r) && m.sender == k.0 && PinnedTo(r.peers, c.fingerprint(m.pub), k.0)
    ensures Pinned(c, r.(inbound := r.inbound[k := m]))
  {
  }

  lemma PutRecipient(c: Suite, r: Ring, k: (Channel, Handle), row: Recipient)
    requires Pinned(c, r) && PinnedTo(r.peers, row.fp, k.1)
    ensures Pinned(c, r.(recipients := r.recipients[k := row]))
  {
  }

  lemma BuildKeyrspKeepsPins(c: Suite, r: Ring, channel: Channel, sender: Handle, pub: Bytes, eph: Bytes, now: real,
                             d: WrapDraw, newKey: Bytes)
    requires Pinned(c, r) && PinnedTo(r.peers, c.fingerprint(pub), sender)
    ensures Pinned(c, BuildKeyrsp(c, r, channel, sender, pub, eph, now, d, newKey).0)
  {
    if c.dh(d.eph, eph).Some? {
      var fp := c.fingerprint(pub);
      var r1 := OutgoingKey(r, channel, now, newKey).0;
      SameTables(c, r, r1);
      var p := Peer(pub, sender, None, r1.peers[fp].firstSeen, Seconds(now), Trusted);
      RewriteKeepsPins(c, r1, p);
      PutRecipient(c, r1.(peers := r1.peers[fp := p]), (channel, sender), Recipient(fp, Seconds(now)));
    }
  }

  lemma AnswerKeepsPins(c: Suite, r: Ring, sender: Handle, m: KeyReq, now: real, w: WrapDraw, newKey: Bytes, q: ReqDraw)
    requires Pinned(c, r) && PinnedTo(r.peers, c.fingerprint(m.pub), sender)
    ensures Pinned(c, AnswerKeyreq(c, r, sender, m, now, w, newKey, q).0)
  {
    BuildKeyrspKeepsPins(c, r, m.channel, sender, m.pub, m.eph, now, w, newKey);
    var r1 := BuildKeyrsp(c, r, m.channel, sender, m.pub, m.eph, now, w, newKey).0;
    SameTables(c, r1, Reciprocal(c, r1, m.channel, sender, now, q).0);
  }

  lemma CacheKeepsPins(c: Suite, r: Ring, sender: Handle, m: KeyReq, now: int)
    requires Pinned(c, r) && PinnedTo(r.peers, c.fingerprint(m.pub), sender)
    ensures Pinned(c, CacheKeyreq(r, sender, m, c.fingerprint(m.pub), now))
  {
    var k, s := (sender, m.channel), Session(c.fingerprint(m.pub), NO_KEY, Pending, now);
    PutSession(c, r, k, s);
    PutInbound(c, r.(incoming := r.incoming[k := s]), k, Inbound(sender, m.pub, m.eph, m.nonce, m.sig, now));
  }

  lemma AdmitKeepsPins(c: Suite, r: Ring, sender: Handle, nick: string, m: KeyReq, now: real, w: WrapDraw,
                       newKey: Bytes, q: ReqDraw)
    requires Pinned(c, r) && m.channel in r.channels
    ensures Pinned(c, AdmitKeyreq(c, r, sender, nick, m, now, w, newKey, q).0)
  {
    var fp := c.fingerprint(m.pub);
    var change := Classify(r.peers, fp, sender);
    if change.Known? || change.New? {
      RewriteKeepsPins(c, r, Peer(m.pub, sender, Some(nick), Seconds(now), Seconds(now), Pending));
      var r1 := PinPeer(c, r, sender, nick, m, Seconds(now));
      TreatKeepsPins(c, r1, sender, m, now, w, newKey, q);
    }
  }

  lemma TreatKeepsPins(c: Suite, r: Ring, sender: Handle, m: KeyReq, now: real, w: WrapDraw, newKey: Bytes, q: ReqDraw)
    requires Pinned(c, r) && PinnedTo(r.peers, c.fingerprint(m.pub), sender) && m.channel in r.channels
    ensures Pinned(c, TreatKeyreq(c, r, sender, m, now, w, newKey, q).0)
  {
    CacheKeepsPins(c, r, sender, m, Seconds(now));
    AnswerKeepsPins(c, r, sender, m, now, w, newKey, q);
  }

  lemma KeyreqKeepsPins(c: Suite, r: Ring, sender: Handle, nick: string, m: KeyReq, now: real, w: WrapDraw,
                        newKey: Bytes, q: ReqDraw)
    requires Pinned(c, r)
    ensures Pinned(c, HandleKeyreq(c, r, sender, nick, Some(m), now, w, newKey, q).0)
  {
    var r1 := r.(buckets := r.buckets[sender := Limiter.Decide(BucketOf(r, sender), now).0]);
    SameTables(c, r, r1);
    if IsEnabled(r1, m.channel) {
      AdmitKeepsPins(c, r1, sender, nick, m, now, w, newKey, q);
    }
  }

  lemma InstallKeepsPins(c: Suite, r: Ring, sender: Handle, m: KeyWrap, key: Bytes, t: int)
    requires Pinned(c, r)
    ensures Pinned(c, InstallAnswer(c, r, sender, m, key, t).0)
  {
    var fp := c.fingerprint(m.pub);
    var change := Classify(r.peers, fp, sender);
    if change.Known? || change.New? {
      var p := Peer(m.pub, sender, None, t, t, Trusted);
      RewriteKeepsPins(c, r, p);
      PutSession(c, r.(peers := r.peers[fp := p]), (sender, m.channel), Session(fp, key, Trusted, t));
    }
  }

  lemma KeyrspKeepsPins(c: Suite, r: Ring, sender: Handle, m: KeyWrap, now: real)
    requires Pinned(c, r)
    ensures Pinned(c, HandleKeyrsp(c, r, sender, Some(m), now).0)
  {
    var answered := AnsweredRequest(r, m.channel, sender);
    if answered.Some? {
      var r1 := r.(pending := r.pending - {answered.value});
      SameTables(c, r, r1);
      var key := OpenWrap(c, c.dh(r.pending[answered.value].ephSk, m.eph), WrapInfo(m.channel), m);
      if key.Some? {
        InstallKeepsPins(c, r1, sender, m, key.value, Seconds(now));
      }
    }
  }

  lemma RekeyKeepsPins(c: Suite, r: Ring, sender: Handle, m: KeyWrap, now: real)
    requires Pinned(c, r)
    ensures Pinned(c, HandleRekey(c, r, sender, Some(m), now).0)
  {
    var fp := c.fingerprint(m.pub);
    var key := OpenWrap(c, c.fromPeer(r.identity, m.eph), RekeyInfo(m.channel), m);
    if key.Some? && Classify(r.peers, fp, sender).Known? {
      PutSession(c, r, (sender, m.channel), Session(fp, key.value, Trusted, Seconds(now)));
    }
  }

  lemma AcceptKeepsPins(c: Suite, r: Ring, channel: Channel, handle: Handle, now: real, w: WrapDraw, newKey: Bytes,
                        q: ReqDraw)
    requires Pinned(c, r)
    ensures Pinned(c, Accept(c, r, channel, handle, now, w, newKey, q).0)
  {
    if (handle, channel) in r.inbound {
      AnswerInboundKeepsPins(c, r, channel, r.inbound[(handle, channel)], now, w, newKey, q);
    } else {
      StatusKeepsPins(c, r, handle, channel, Trusted);
    }
  }

  lemma AnswerInboundKeepsPins(c: Suite, r: Ring, channel: Channel, m: Inbound, now: real, w: WrapDraw, newKey: Bytes,
                               q: ReqDraw)
    requires Pinned(c, r) && PinnedTo(r.peers, c.fingerprint(m.pub), m.sender)
    ensures Pinned(c, AnswerInbound(c, r, channel, m, now, w, newKey, q).0)
  {
    DeletionsKeepPins(c, r, channel, m.sender);
    var r1 := r.(inbound := r.inbound - {(m.sender, channel)});
    BuildKeyrspKeepsPins(c, r1, channel, m.sender, m.pub, m.eph, now, w, newKey);
    var r2 := BuildKeyrsp(c, r1, channel, m.sender, m.pub, m.eph, now, w, newKey).0;
    SameTables(c, r2, ReciprocalOnAccept(c, r2, channel, m.sender, now, q).0);
  }

  lemma StatusKeepsPins(c: Suite, r: Ring, handle: Handle, channel: Channel, status: Status)
    requires Pinned(c, r)
    ensures Pinned(c, SetSessionStatus(r, handle, channel, status))
  {
    if (handle, channel) in r.incoming {
      PutSession(c, r, (handle, channel), r.incoming[(handle, channel)].(status := status));
    }
  }

  lemma DeletionsKeepPins(c: Suite, r: Ring, channel: Channel, handle: Handle)
    requires Pinned(c, r)
    ensures Pinned(c, r.(incoming := r.incoming - {(handle, channel)}))
    ensures Pinned(c, r.(inbound := r.inbound - {(handle, channel)}))
    ensures Pinned(c, r.(recipients := r.recipients - {(channel, handle)}))
  {
  }

  lemma RevokeKeepsPins(c: Suite, r: Ring, channel: Channel, handle: Handle)
    requires Pinned(c, r)
    ensures Pinned(c, Revoke(r, channel, handle))
    ensures Pinned(c, Decline(r, channel, handle))
  {
    StatusKeepsPins(c, r, handle, channel, Revoked);
    var r1 := SetSessionStatus(r, handle, channel, Revoked);
    DeletionsKeepPins(c, r1, channel, handle);
    var r2 := r1.(recipients := r1.recipients - {(channel, handle)});
    SameTables(c, r2, Rotate(r2, channel));
    DeletionsKeepPins(c, r, channel, handle);
    StatusKeepsPins(c, r.(inbound := r.inbound - {(handle, channel)}), handle, channel, Revoked);
  }

  lemma RemoteKeepsPins(c: Suite, r: Ring, e: Event)
    requires Pinned(c, r) && Remote(e)
    ensures Pinned(c, RemoteStep(c, r, e).0)
  {
    match e
    case RecvKeyreq(sender, nick, req, now, w, newKey, q) =>
      if req.Some? {
        KeyreqKeepsPins(c, r, sender, nick, req.value, now, w, newKey, q);
      }
    case RecvKeyrsp(sender, rsp, now) =>
      if rsp.Some? {
        KeyrspKeepsPins(c, r, sender, rsp.value, now);
      }
    case RecvRekey(sender, rekey, now) =>
      if rekey.Some? {
        RekeyKeepsPins(c, r, sender, rekey.value, now);
      }
    case RecvLine(sender, channel, now, q) => SameTables(c, r, RemoteStep(c, r, e).0);
  }

  lemma SettingsTouchNoPins(r: Ring, e: Event)
    requires !e.DoDecline? && !e.DoRevoke? && !e.DoUnrevoke? && !e.DoForget?
    ensures var r1 := QuietCommand(r, e);
            r1.peers == r.peers && r1.incoming == r.incoming && r1.inbound == r.inbound && r1.recipients == r.recipients
  {
  }

  lemma CommandKeepsPins(c: Suite, r: Ring, e: Event)
    requires Pinned(c, r)
    ensures Pinned(c, QuietCommand(r, e))
  {
    if e.DoDecline? || e.DoRevoke? {
      RevokeKeepsPins(c, r, e.channel, e.handle);
    } else if e.DoUnrevoke? {
      StatusKeepsPins(c, r, e.handle, e.channel, Trusted);
    } else if e.DoForget? {
      DeletionsKeepPins(c, r, e.channel, e.handle);
    } else {
      SettingsTouchNoPins(r, e);
      SameTables(c, r, QuietCommand(r, e));
    }
  }

  lemma StepKeepsPins(c: Suite, r: Ring, e: Event)
    requires Pinned(c, r)
    ensures Pinned(c, Step(c, r, e).0)
  {
    if Remote(e) {
      RemoteKeepsPins(c, r, e);
    } else if e.DoAccept? {
      AcceptKeepsPins(c, r, e.channel, e.handle, e.now, e.w, e.newKey, e.q);
    } else if e.Say? || e.DoHandshake? {
      SameTables(c, r, LocalStep(c, r, e).0);
    } else {
      CommandKeepsPins(c, r, e);
    }
  }

  /** Identity pinning holds after every run that starts from a pinned keyring, so from an empty one. */
  lemma {:induction false} RunKeepsPins(c: Suite, r: Ring, events: seq<Event>)
    requires Pinned(c, r)
    ensures Pinned(c, Run(c, r, events).0)
  {
    if events != [] {
      var before := events[..|events| - 1];
      RunKeepsPins(c, r, before);
      StepKeepsPins(c, Run(c, r, before).0, events[|events| - 1]);
    }
  }

  /** From an empty keyring: pins are one to one, sessions sit on their handle's pin, and the two
      "fingerprint mismatch" branches are dead. */
  lemma IdentityPinning(c: Suite, identity: Bytes, events: seq<Event>)
    ensures var r := Run(c, EmptyRing(identity), events).0;
            && (forall f, g | f in r.peers && g in r.peers ::
                  r.peers[f].lastHandle == r.peers[g].lastHandle <==> f == g)
            && (forall k <- r.incoming :: r.incoming[k].fp in r.peers && r.peers[r.incoming[k].fp].lastHandle == k.0)
            && forall sender, channel, fp |
                 Classify(r.peers, fp, sender).Known? || Classify(r.peers, fp, sender).New? ::
                 !SessionClash(r, sender, channel, fp)
  {
    RunKeepsPins(c, EmptyRing(identity), events);
    var r := Run(c, EmptyRing(identity), events).0;
    forall k | k in r.incoming
      ensures r.incoming[k].fp in r.peers && r.peers[r.incoming[k].fp].lastHandle == k.0
    {
      assert PinnedTo(r.peers, r.incoming[k].fp, k.0);
    }
    forall sender, channel, fp | Classify(r.peers, fp, sender).Known? || Classify(r.peers, fp, sender).New?
      ensures !SessionClash(r, sender, channel, fp)
    {
      NoSessionClash(c, r, sender, channel, fp);
    }
  }
}
