/** Where session keys come from, over whole runs: from the last event that wrote the session's row, which is
    not always one that brought a key. */
module Provenance {
  import opened Basics
  import opened CryptoSuite
  import opened Payloads
  import opened Keyring
  import opened Addressing
  import opened Sessions
  import Limiter
  import Text

  /** In normal mode an admitted KEYREQ of a peer without a trusted session is cached behind a keyless row. */
  predicate Caches(c: Suite, r: Ring, e: Event, handle: Handle, channel: Channel) {
    && e.RecvKeyreq? && e.req.Some? && e.sender == handle && e.req.value.channel == channel
    && Passes(c, r, handle, e.req.value, e.now) && EffectiveMode(c, r, handle, channel).Normal?
    && !IsTrusted(r, handle, channel)
  }

  predicate Writes(c: Suite, r: Ring, e: Event, handle: Handle, channel: Channel) {
    Installs(c, r, e, handle, channel) || Caches(c, r, e, handle, channel)
  }

  /** The key the event puts into the session's row: the one it carries, or none. */
  function KeyWritten(c: Suite, r: Ring, e: Event, handle: Handle, channel: Channel): Bytes
    requires Writes(c, r, e, handle, channel)
  {
    if Installs(c, r, e, handle, channel) then Carried(c, r, e, Installer(e).value).value else NO_KEY
  }

  predicate Forgets(e: Event, handle: Handle, channel: Channel) {
    e.DoForget? && e.handle == handle && e.channel == channel
  }

  /** The user makes the session trusted, whatever its row holds. */
  predicate Retrusts(r: Ring, e: Event, handle: Handle, channel: Channel) {
    || (e.DoUnrevoke? && e.handle == handle && e.channel == channel)
    || (e.DoAccept? && e.handle == handle && e.channel == channel && (handle, channel) !in r.inbound)
  }

  // ---------------------------------------------------------------- one event

  /** The event leaves the row's key alone, or deletes the row, and makes it trusted only as a user's command. */
  predicate RowKept(r: Ring, e: Event, r1: Ring, handle: Handle, channel: Channel) {
    var k := (handle, channel);
    && (k in r1.incoming <==> k in r.incoming && !Forgets(e, handle, channel))
    && (k in r1.incoming ==> r1.incoming[k].sk == r.incoming[k].sk)
    && (IsTrusted(r1, handle, channel) ==> IsTrusted(r, handle, channel) || Retrusts(r, e, handle, channel))
  }

  /** What one event does to one session row. */
  ghost predicate RowAfter(c: Suite, r: Ring, e: Event, r1: Ring, handle: Handle, channel: Channel) {
    var k := (handle, channel);
    if Writes(c, r, e, handle, channel) then
      && k in r1.incoming && r1.incoming[k].sk == KeyWritten(c, r, e, handle, channel)
      && (Caches(c, r, e, handle, channel) ==> r1.incoming[k].status.Pending?)
    else RowKept(r, e, r1, handle, channel)
  }

  lemma KeyreqRow(c: Suite, r: Ring, sender: Handle, nick: string, m: KeyReq, now: real, w: WrapDraw, newKey: Bytes,
                  q: ReqDraw)
    ensures var e := RecvKeyreq(sender, nick, Some(m), now, w, newKey, q);
            var r1 := HandleKeyreq(c, r, sender, nick, Some(m), now, w, newKey, q).0;
            if Caches(c, r, e, sender, m.channel)
            then
              r1.incoming == r.incoming[(sender, m.channel) :=
                                          Session(c.fingerprint(m.pub), NO_KEY, Pending, Seconds(now))]
            else r1.incoming == r.incoming
  {
    if Passes(c, r, sender, m, now) {
      PassingRow(c, r, sender, nick, m, now, w, newKey, q);
    } else {
      DroppedRow(c, r, sender, nick, m, now, w, newKey, q);
    }
  }

  lemma DroppedRow(c: Suite, r: Ring, sender: Handle, nick: string, m: KeyReq, now: real, w: WrapDraw, newKey: Bytes,
                   q: ReqDraw)
    requires !Passes(c, r, sender, m, now)
    ensures HandleKeyreq(c, r, sender, nick, Some(m), now, w, newKey, q).0.incoming == r.incoming
  {
  }

  lemma PassingRow(c: Suite, r: Ring, sender: Handle, nick: string, m: KeyReq, now: real, w: WrapDraw, newKey: Bytes,
                   q: ReqDraw)
    requires Passes(c, r, sender, m, now)
    ensures HandleKeyreq(c, r, sender, nick, Some(m), now, w, newKey, q).0.incoming
         == if EffectiveMode(c, r, sender, m.channel).Normal? && !IsTrusted(r, sender, m.channel)
            then r.incoming[(sender, m.channel) := Session(c.fingerprint(m.pub), NO_KEY, Pending, Seconds(now))]
            else r.incoming
  {
    var r0 := r.(buckets := r.buckets[sender := Limiter.Decide(BucketOf(r, sender), now).0]);
    AdmittedRow(c, r0, sender, nick, m, now, w, newKey, q);
    assert HandleKeyreq(c, r, sender, nick, Some(m), now, w, newKey, q)
        == AdmitKeyreq(c, r0, sender, nick, m, now, w, newKey, q);
  }

  lemma AdmittedRow(c: Suite, r: Ring, sender: Handle, nick: string, m: KeyReq, now: real, w: WrapDraw, newKey: Bytes,
                    q: ReqDraw)
    requires m.channel in r.channels
    requires var change := Classify(r.peers, c.fingerprint(m.pub), sender); change.Known? || change.New?
    ensures AdmitKeyreq(c, r, sender, nick, m, now, w, newKey, q).0.incoming
         == if EffectiveMode(c, r, sender, m.channel).Normal? && !IsTrusted(r, sender, m.channel)
            then r.incoming[(sender, m.channel) := Session(c.fingerprint(m.pub), NO_KEY, Pending, Seconds(now))]
            else r.incoming
  {
    TreatedRow(c, PinPeer(c, r, sender, nick, m, Seconds(now)), sender, m, now, w, newKey, q);
  }

  lemma TreatedRow(c: Suite, r: Ring, sender: Handle, m: KeyReq, now: real, w: WrapDraw, newKey: Bytes, q: ReqDraw)
    requires m.channel in r.channels
    ensures TreatKeyreq(c, r, sender, m, now, w, newKey, q).0.incoming
         == if EffectiveMode(c, r, sender, m.channel).Normal? && !IsTrusted(r, sender, m.channel)
            then r.incoming[(sender, m.channel) := Session(c.fingerprint(m.pub), NO_KEY, Pending, Seconds(now))]
            else r.incoming
  {
  }

  lemma KeyreqRowAfter(c: Suite, r: Ring, e: Event, handle: Handle, channel: Channel)
    requires e.RecvKeyreq?
    ensures RowAfter(c, r, e, RemoteStep(c, r, e).0, handle, channel)
  {
    if e.req.Some? {
      KeyreqRow(c, r, e.sender, e.nick, e.req.value, e.now, e.w, e.newKey, e.q);
    }
  }

  lemma KeyrspRow(c: Suite, r: Ring, sender: Handle, m: KeyWrap, now: real)
    ensures var e := RecvKeyrsp(sender, Some(m), now);
            var r1 := HandleKeyrsp(c, r, sender, Some(m), now).0;
            if Installs(c, r, e, sender, m.channel)
            then
              var key := Carried(c, r, e, m).value;
              r1.incoming == r.incoming[(sender, m.channel) :=
                                          Session(c.fingerprint(m.pub), key, Trusted, Seconds(now))]
            else r1.incoming == r.incoming
  {
  }

  lemma KeyrspRowAfter(c: Suite, r: Ring, e: Event, handle: Handle, channel: Channel)
    requires e.RecvKeyrsp?
    ensures RowAfter(c, r, e, RemoteStep(c, r, e).0, handle, channel)
  {
    if e.rsp.Some? {
      KeyrspRow(c, r, e.sender, e.rsp.value, e.now);
    }
  }

  lemma RekeyRow(c: Suite, r: Ring, sender: Handle, m: KeyWrap, now: real)
    ensures var e := RecvRekey(sender, Some(m), now);
            var r1 := HandleRekey(c, r, sender, Some(m), now).0;
            if Installs(c, r, e, sender, m.channel)
            then
              var key := Carried(c, r, e, m).value;
              r1.incoming == r.incoming[(sender, m.channel) :=
                                          Session(c.fingerprint(m.pub), key, Trusted, Seconds(now))]
            else r1.incoming == r.incoming
  {
  }

  lemma RekeyRowAfter(c: Suite, r: Ring, e: Event, handle: Handle, channel: Channel)
    requires e.RecvRekey?
    ensures RowAfter(c, r, e, RemoteStep(c, r, e).0, handle, channel)
  {
    if e.rekey.Some? {
      RekeyRow(c, r, e.sender, e.rekey.value, e.now);
    }
  }

  lemma StatusRow(r: Ring, e: Event, status: Status, handle: Handle, channel: Channel)
    requires e.DoDecline? || e.DoRevoke? || e.DoUnrevoke? || e.DoAccept?
    requires status.Trusted? ==> Retrusts(r, e, e.handle, e.channel)
    ensures RowKept(r, e, SetSessionStatus(r, e.handle, e.channel, status), handle, channel)
  {
    if (handle, channel) != (e.handle, e.channel) {
      OtherStatus(r, e.handle, e.channel, status, handle, channel);
    }
  }

  lemma OtherStatus(r: Ring, changed: Handle, on: Channel, status: Status, handle: Handle, channel: Channel)
    requires (handle, channel) != (changed, on)
    ensures var r1 := SetSessionStatus(r, changed, on, status);
            && ((handle, channel) in r1.incoming <==> (handle, channel) in r.incoming)
            && ((handle, channel) in r.incoming ==> r1.incoming[(handle, channel)] == r.incoming[(handle, channel)])
  {
  }

  /** Only the session table matters for a row. */
  lemma SameSessions(r: Ring, e: Event, r1: Ring, r2: Ring, handle: Handle, channel: Channel)
    requires RowKept(r, e, r1, handle, channel) && r2.incoming == r1.incoming
    ensures RowKept(r, e, r2, handle, channel)
  {
  }

  lemma ForgetRow(r: Ring, e: Event, handle: Handle, channel: Channel)
    requires e.DoForget?
    ensures RowKept(r, e, r.(incoming := r.incoming - {(e.handle, e.channel)}), handle, channel)
  {
  }

  lemma QuietSessions(r: Ring, e: Event)
    ensures var r1 := QuietCommand(r, e);
            match e
            case DoDecline(ch, h) => r1.incoming == SetSessionStatus(r, h, ch, Revoked).incoming
            case DoRevoke(ch, h) => r1.incoming == SetSessionStatus(r, h, ch, Revoked).incoming
            case DoUnrevoke(ch, h) => r1.incoming == SetSessionStatus(r, h, ch, Trusted).incoming
            case DoForget(ch, h) => r1.incoming == r.incoming - {(h, ch)}
            case _ => r1.incoming == r.incoming
  {
    if !e.DoForget? && !e.DoDecline? && !e.DoRevoke? && !e.DoUnrevoke? {
      OtherCommandsKeepSessions(r, e);
    }
  }

  lemma QuietRowKept(r: Ring, e: Event, handle: Handle, channel: Channel)
    ensures RowKept(r, e, QuietCommand(r, e), handle, channel)
  {
    var r1 := QuietCommand(r, e);
    QuietSessions(r, e);
    if e.DoForget? {
      ForgetRow(r, e, handle, channel);
      SameSessions(r, e, r.(incoming := r.incoming - {(e.handle, e.channel)}), r1, handle, channel);
    } else if e.DoDecline? || e.DoRevoke? {
      StatusRow(r, e, Revoked, handle, channel);
      SameSessions(r, e, SetSessionStatus(r, e.handle, e.channel, Revoked), r1, handle, channel);
    } else if e.DoUnrevoke? {
      StatusRow(r, e, Trusted, handle, channel);
      SameSessions(r, e, SetSessionStatus(r, e.handle, e.channel, Trusted), r1, handle, channel);
    }
  }

  lemma OtherCommandsKeepSessions(r: Ring, e: Event)
    requires !e.DoForget? && !e.DoDecline? && !e.DoRevoke? && !e.DoUnrevoke?
    ensures QuietCommand(r, e).incoming == r.incoming
  {
  }

  lemma AcceptRowKept(c: Suite, r: Ring, e: Event, handle: Handle, channel: Channel)
    requires e.DoAccept?
    ensures RowKept(r, e, Accept(c, r, e.channel, e.handle, e.now, e.w, e.newKey, e.q).0, handle, channel)
  {
    if (e.handle, e.channel) !in r.inbound {
      StatusRow(r, e, Trusted, handle, channel);
    }
  }

  lemma LocalRowKept(c: Suite, r: Ring, e: Event, handle: Handle, channel: Channel)
    requires !Remote(e)
    ensures RowKept(r, e, LocalStep(c, r, e).0, handle, channel)
  {
    if e.DoAccept? {
      AcceptRowKept(c, r, e, handle, channel);
    } else if e.Say? || e.DoHandshake? {
      assert LocalStep(c, r, e).0.incoming == r.incoming;
    } else {
      QuietRowKept(r, e, handle, channel);
    }
  }

  lemma StepRowAfter(c: Suite, r: Ring, e: Event, handle: Handle, channel: Channel)
    ensures RowAfter(c, r, e, Step(c, r, e).0, handle, channel)
  {
    if e.RecvKeyreq? {
      KeyreqRowAfter(c, r, e, handle, channel);
    } else if e.RecvKeyrsp? {
      KeyrspRowAfter(c, r, e, handle, channel);
    } else if e.RecvRekey? {
      RekeyRowAfter(c, r, e, handle, channel);
    } else if e.RecvLine? {
      assert Step(c, r, e).0.incoming == r.incoming;
    } else {
      LocalRowKept(c, r, e, handle, channel);
    }
  }

  // ---------------------------------------------------------------- whole runs

  /** Event `i` wrote the row, and no event after it wrote it again or deleted it. */
  predicate LastWrote(c: Suite, rings: seq<Ring>, events: seq<Event>, handle: Handle, channel: Channel, i: nat)
    requires |events| == |rings|
  {
    && i < |events| && Writes(c, rings[i], events[i], handle, channel)
    && forall j | i < j < |events| ::
         !Writes(c, rings[j], events[j], handle, channel) && !Forgets(events[j], handle, channel)
  }

  ghost predicate RetrustedAfter(rings: seq<Ring>, events: seq<Event>, handle: Handle, channel: Channel, i: nat)
    requires |events| == |rings|
  {
    exists j :: i < j < |events| && Retrusts(rings[j], events[j], handle, channel)
  }

  /** The row as the last event that wrote it left it, but for its status; and if that event brought no key, a
      trusted status is the user's own doing. */
  ghost predicate FromLastWrite(c: Suite, rings: seq<Ring>, events: seq<Event>, r: Ring, handle: Handle,
                                channel: Channel, i: nat)
    requires |events| == |rings|
  {
    && LastWrote(c, rings, events, handle, channel, i)
    && (handle, channel) in r.incoming
    && r.incoming[(handle, channel)].sk == KeyWritten(c, rings[i], events[i], handle, channel)
    && (Caches(c, rings[i], events[i], handle, channel) && IsTrusted(r, handle, channel)
        ==> RetrustedAfter(rings, events, handle, channel, i))
  }

  lemma StillLast(c: Suite, rings: seq<Ring>, events: seq<Event>, mid: Ring, r: Ring, handle: Handle, channel: Channel,
                  i: nat)
    requires |events| == |rings| > 0 && i < |events| - 1 && rings[|events| - 1] == mid
    requires var n := |events| - 1; FromLastWrite(c, rings[..n], events[..n], mid, handle, channel, i)
    requires var e := events[|events| - 1];
             RowAfter(c, mid, e, r, handle, channel) && !Writes(c, mid, e, handle, channel)
             && !Forgets(e, handle, channel)
    ensures FromLastWrite(c, rings, events, r, handle, channel, i)
  {
    var n := |events| - 1;
    if Caches(c, rings[i], events[i], handle, channel) && IsTrusted(r, handle, channel) {
      if IsTrusted(mid, handle, channel) {
        var j :| i < j < n && Retrusts(rings[..n][j], events[..n][j], handle, channel);
        assert Retrusts(rings[j], events[j], handle, channel);
      } else {
        assert Retrusts(rings[n], events[n], handle, channel);
      }
    }
  }

  lemma LastStepRow(c: Suite, identity: Bytes, events: seq<Event>, handle: Handle, channel: Channel)
    requires events != []
    ensures var n := |events| - 1;
            var mid := Run(c, EmptyRing(identity), events[..n]).0;
            && Rings(c, identity, events)[..n] == Rings(c, identity, events[..n])
            && Rings(c, identity, events)[n] == mid
            && RowAfter(c, mid, events[n], Run(c, EmptyRing(identity), events).0, handle, channel)
  {
    var n := |events| - 1;
    RingsOfPrefix(c, identity, events, n);
    StepRowAfter(c, Run(c, EmptyRing(identity), events[..n]).0, events[n], handle, channel);
  }

  /** Over every run from an empty keyring: every session has a last event that wrote it, and its key is the one
      that event carried, if it was a KEYRSP or REKEY that passed, or none, if it was a cached KEYREQ. */
  lemma {:induction false} SessionKeysHaveOrigin(c: Suite, identity: Bytes, events: seq<Event>, handle: Handle,
                                                 channel: Channel)
    requires (handle, channel) in Run(c, EmptyRing(identity), events).0.incoming
    ensures exists i :: 0 <= i < |events|
              && FromLastWrite(c, Rings(c, identity, events), events, Run(c, EmptyRing(identity), events).0, handle,
                               channel, i)
  {
    var n := |events| - 1;
    var rings := Rings(c, identity, events);
    LastStepRow(c, identity, events, handle, channel);
    if Writes(c, rings[n], events[n], handle, channel) {
      assert FromLastWrite(c, rings, events, Run(c, EmptyRing(identity), events).0, handle, channel, n);
    } else {
      SessionKeysHaveOrigin(c, identity, events[..n], handle, channel);
      var mid := Run(c, EmptyRing(identity), events[..n]).0;
      var i :| 0 <= i < n && FromLastWrite(c, rings[..n], events[..n], mid, handle, channel, i);
      StillLast(c, rings, events, mid, Run(c, EmptyRing(identity), events).0, handle, channel, i);
    }
  }

  /** So a trusted session's key came with a KEYRSP or REKEY, unless the row was last written by caching a KEYREQ
      and the user made it trusted since. */
  lemma TrustedKeysWereInstalled(c: Suite, identity: Bytes, events: seq<Event>, handle: Handle, channel: Channel)
    requires IsTrusted(Run(c, EmptyRing(identity), events).0, handle, channel)
    ensures var (r, rings) := (Run(c, EmptyRing(identity), events).0, Rings(c, identity, events));
            exists i :: 0 <= i < |events| && LastWrote(c, rings, events, handle, channel, i)
              && if Installs(c, rings[i], events[i], handle, channel)
                 then Carried(c, rings[i], events[i], Installer(events[i]).value)
                      == Some(r.incoming[(handle, channel)].sk)
                 else r.incoming[(handle, channel)].sk == NO_KEY && RetrustedAfter(rings, events, handle, channel, i)
  {
    SessionKeysHaveOrigin(c, identity, events, handle, channel);
    var (r, rings) := (Run(c, EmptyRing(identity), events).0, Rings(c, identity, events));
    var i :| 0 <= i < |events| && FromLastWrite(c, rings, events, r, handle, channel, i);
    assert LastWrote(c, rings, events, handle, channel, i);
  }

  // ---------------------------------------------------------------- trusted without a key

  /** The user turns the channel on, and a KEYREQ comes in. */
  function Caching(c: Suite, channel: Channel, peer: Handle, nick: string, peerId: Bytes, d: ReqDraw, w: WrapDraw,
                   newKey: Bytes, q: ReqDraw): seq<Event>
  {
    [DoOn(channel), RecvKeyreq(peer, nick, Some(FirstAsk(c, peerId, channel, d)), 1.0, w, newKey, q)]
  }

  lemma FirstAskIsCached(c: Suite, me: Bytes, channel: Channel, peer: Handle, nick: string, m: KeyReq, w: WrapDraw,
                         newKey: Bytes, q: ReqDraw)
    requires m.channel == channel && c.verify(m.pub, ReqPayload(m), m.sig)
    ensures var r := EmptyRing(me).(channels := map[channel := Settings(true, Normal)]);
            HandleKeyreq(c, r, peer, nick, Some(m), 1.0, w, newKey, q).0.incoming
            == map[(peer, channel) := Session(c.fingerprint(m.pub), NO_KEY, Pending, 1)]
  {
    var r := EmptyRing(me).(channels := map[channel := Settings(true, Normal)]);
    assert Limiter.Live([], 1.0) == [];
    assert Passes(c, r, peer, m, 1.0);
    KeyreqRow(c, r, peer, nick, m, 1.0, w, newKey, q);
    assert r.incoming == map[];
  }

  lemma RunOfTwo(c: Suite, r: Ring, a: Event, b: Event)
    ensures Run(c, r, [a, b]).0 == Step(c, Step(c, r, a).0, b).0
  {
    assert [a, b][..1] == [a] && [a][..0] == [];
    assert Run(c, r, []).0 == r;
    assert Run(c, r, [a]).0 == Step(c, r, a).0;
  }

  lemma CachingLeavesNoKey(c: Suite, me: Bytes, channel: Channel, peer: Handle, nick: string, peerId: Bytes,
                           d: ReqDraw, w: WrapDraw, newKey: Bytes, q: ReqDraw)
    requires c.Lawful() && |d.nonce| == REQ_NONCE_LEN && Text.NoSpace(channel)
    ensures var r := Run(c, EmptyRing(me), Caching(c, channel, peer, nick, peerId, d, w, newKey, q)).0;
            (peer, channel) in r.incoming && r.incoming[(peer, channel)].sk == NO_KEY
  {
    var events := Caching(c, channel, peer, nick, peerId, d, w, newKey, q);
    RunOfTwo(c, EmptyRing(me), events[0], events[1]);
    AskIsReceived(c, peerId, channel, d);
    FirstAskIsCached(c, me, channel, peer, nick, FirstAsk(c, peerId, channel, d), w, newKey, q);
    StepIsOn(c, EmptyRing(me), channel);
  }

  lemma StepIsOn(c: Suite, r: Ring, channel: Channel)
    ensures Step(c, r, DoOn(channel)).0 == r.(channels := r.channels[channel := Settings(true, Normal)])
  {
  }

  lemma UnrevokeTrusts(c: Suite, r: Ring, channel: Channel, peer: Handle)
    requires (peer, channel) in r.incoming
    ensures var r1 := Step(c, r, DoUnrevoke(channel, peer)).0;
            IsTrusted(r1, peer, channel) && r1.incoming[(peer, channel)].sk == r.incoming[(peer, channel)].sk
  {
  }

  /** The first KEYREQ of any peer on a channel in normal mode, then `/e2e unrevoke`: the session counts as
      trusted, with a key of all zeros that nobody sent. */
  lemma UnrevokeTrustsNoKey(c: Suite, me: Bytes, channel: Channel, peer: Handle, nick: string, peerId: Bytes,
                            d: ReqDraw, w: WrapDraw, newKey: Bytes, q: ReqDraw)
    requires c.Lawful() && |d.nonce| == REQ_NONCE_LEN && Text.NoSpace(channel)
    ensures var events := Caching(c, channel, peer, nick, peerId, d, w, newKey, q) + [DoUnrevoke(channel, peer)];
            var r := Run(c, EmptyRing(me), events).0;
            IsTrusted(r, peer, channel) && r.incoming[(peer, channel)].sk == NO_KEY
  {
    var before := Caching(c, channel, peer, nick, peerId, d, w, newKey, q);
    assert (before + [DoUnrevoke(channel, peer)])[..2] == before;
    CachingLeavesNoKey(c, me, channel, peer, nick, peerId, d, w, newKey, q);
    UnrevokeTrusts(c, Run(c, EmptyRing(me), before).0, channel, peer);
  }

  lemma DeclineThenAcceptTrusts(c: Suite, r: Ring, channel: Channel, peer: Handle, now: real, w: WrapDraw,
                                newKey: Bytes, q: ReqDraw)
    requires (peer, channel) in r.incoming
    ensures var r1 := Step(c, Step(c, r, DoDecline(channel, peer)).0, DoAccept(channel, peer, now, w, newKey, q)).0;
            IsTrusted(r1, peer, channel) && r1.incoming[(peer, channel)].sk == r.incoming[(peer, channel)].sk
  {
    var r0 := Decline(r, channel, peer);
    assert (peer, channel) !in r0.inbound;
  }

  /** So does `/e2e decline` followed by `/e2e accept`. */
  lemma AcceptTrustsNoKey(c: Suite, me: Bytes, channel: Channel, peer: Handle, nick: string, peerId: Bytes,
                          d: ReqDraw, w: WrapDraw, newKey: Bytes, q: ReqDraw)
    requires c.Lawful() && |d.nonce| == REQ_NONCE_LEN && Text.NoSpace(channel)
    ensures var r := Run(c, EmptyRing(me), Caching(c, channel, peer, nick, peerId, d, w, newKey, q)).0;
            var r1 := Run(c, r, [DoDecline(channel, peer), DoAccept(channel, peer, 2.0, w, newKey, q)]).0;
            IsTrusted(r1, peer, channel) && r1.incoming[(peer, channel)].sk == NO_KEY
  {
    CachingLeavesNoKey(c, me, channel, peer, nick, peerId, d, w, newKey, q);
    var r := Run(c, EmptyRing(me), Caching(c, channel, peer, nick, peerId, d, w, newKey, q)).0;
    RunOfTwo(c, r, DoDecline(channel, peer), DoAccept(channel, peer, 2.0, w, newKey, q));
    DeclineThenAcceptTrusts(c, r, channel, peer, 2.0, w, newKey, q);
  }
}
