/** What messages from the network can and cannot do to sessions, and where session keys come from. */
module Sessions {
  import opened Basics
  import opened CryptoSuite
  import opened Payloads
  import opened Keyring
  import Limiter

  // ---------------------------------------------------------------- trusted rows are stable

  /** The signed message, if any, with which the event can install a key. */
  function Installer(e: Event): Option<KeyWrap> {
    if e.RecvKeyrsp? then e.rsp else if e.RecvRekey? then e.rekey else None
  }

  /** The event carries a message for this session, signed by the key with this fingerprint. */
  ghost predicate SignedRefresh(c: Suite, e: Event, handle: Handle, channel: Channel, fp: Bytes) {
    && Installer(e).Some?
    && (e.RecvKeyrsp? || e.RecvRekey?)
    && var m := Installer(e).value;
       && e.sender == handle && m.channel == channel && c.fingerprint(m.pub) == fp
       && c.verify(m.pub, WrapPayload(if e.RecvKeyrsp? then KEYRSP_TAG else REKEY_TAG, m), m.sig)
  }

  /** A map changed at one key at most still agrees elsewhere. */
  lemma OneKeyChanged<K, V>(m: map<K, V>, m1: map<K, V>, changed: K, k: K)
    requires m1 - {changed} == m - {changed} && k in m && k != changed
    ensures k in m1 && m1[k] == m[k]
  {
    assert k in m - {changed};
    assert (m - {changed})[k] == m[k];
    assert k in m1 - {changed};
  }

  /** No message from the network lowers a trusted session or changes its fingerprint, and only a
      message signed by the pinned key and sent from the pinned handle gives it a new key. */
  lemma RemoteKeepsTrusted(c: Suite, r: Ring, e: Event, handle: Handle, channel: Channel)
    requires Remote(e) && IsTrusted(r, handle, channel)
    ensures var r1 := Step(c, r, e).0;
            && IsTrusted(r1, handle, channel)
            && r1.incoming[(handle, channel)].fp == r.incoming[(handle, channel)].fp
            && (r1.incoming[(handle, channel)] != r.incoming[(handle, channel)]
                ==> SignedRefresh(c, e, handle, channel, r.incoming[(handle, channel)].fp))
  {
    match e
    case RecvKeyreq(sender, nick, req, now, w, newKey, q) =>
      KeyreqKeepsSession(c, r, sender, nick, req, now, w, newKey, q, handle, channel);
    case RecvKeyrsp(sender, rsp, now) => KeyrspKeepsTrusted(c, r, e, handle, channel);
    case RecvRekey(sender, rekey, now) => RekeyKeepsTrusted(c, r, e, handle, channel);
    case RecvLine(_, _, _, _) =>
  }

  lemma KeyreqKeepsSession(c: Suite, r: Ring, sender: Handle, nick: string, req: Option<KeyReq>, now: real, w: WrapDraw,
                           newKey: Bytes, q: ReqDraw, handle: Handle, channel: Channel)
    requires IsTrusted(r, handle, channel)
    ensures var r1 := HandleKeyreq(c, r, sender, nick, req, now, w, newKey, q).0;
            (handle, channel) in r1.incoming && r1.incoming[(handle, channel)] == r.incoming[(handle, channel)]
  {
    var r1 := HandleKeyreq(c, r, sender, nick, req, now, w, newKey, q).0;
    if req.Some? && (handle, channel) != (sender, req.value.channel) {
      OneKeyChanged(r.incoming, r1.incoming, (sender, req.value.channel), (handle, channel));
    }
  }

  lemma KeyrspKeepsTrusted(c: Suite, r: Ring, e: Event, handle: Handle, channel: Channel)
    requires e.RecvKeyrsp? && IsTrusted(r, handle, channel)
    ensures var r1 := HandleKeyrsp(c, r, e.sender, e.rsp, e.now).0;
            && IsTrusted(r1, handle, channel)
            && r1.incoming[(handle, channel)].fp == r.incoming[(handle, channel)].fp
            && (r1.incoming[(handle, channel)] != r.incoming[(handle, channel)]
                ==> SignedRefresh(c, e, handle, channel, r.incoming[(handle, channel)].fp))
  {
    if e.rsp.Some? {
      var m := e.rsp.value;
      if (e.sender, m.channel) != (handle, channel) {
        OneKeyChanged(r.incoming, HandleKeyrsp(c, r, e.sender, e.rsp, e.now).0.incoming, (e.sender, m.channel),
                      (handle, channel));
      }
    }
  }

  lemma RekeyKeepsTrusted(c: Suite, r: Ring, e: Event, handle: Handle, channel: Channel)
    requires e.RecvRekey? && IsTrusted(r, handle, channel)
    ensures var r1 := HandleRekey(c, r, e.sender, e.rekey, e.now).0;
            && IsTrusted(r1, handle, channel)
            && r1.incoming[(handle, channel)].fp == r.incoming[(handle, channel)].fp
            && (r1.incoming[(handle, channel)] != r.incoming[(handle, channel)]
                ==> SignedRefresh(c, e, handle, channel, r.incoming[(handle, channel)].fp))
  {
    if e.rekey.Some? {
      var m := e.rekey.value;
      if (e.sender, m.channel) != (handle, channel) {
        OneKeyChanged(r.incoming, HandleRekey(c, r, e.sender, e.rekey, e.now).0.incoming, (e.sender, m.channel),
                      (handle, channel));
      }
    }
  }

  /** A peer marked revoked keeps its row through every message from the network. */
  lemma RemoteKeepsRevokedPeers(c: Suite, r: Ring, e: Event, fp: Bytes)
    requires Remote(e) && fp in r.peers && r.peers[fp].status.Revoked?
    ensures fp in Step(c, r, e).0.peers && Step(c, r, e).0.peers[fp] == r.peers[fp]
  {
    match e
    case RecvKeyreq(sender, nick, req, now, w, newKey, q) =>
      if req.Some? && c.fingerprint(req.value.pub) != fp {
        OneKeyChanged(r.peers, Step(c, r, e).0.peers, c.fingerprint(req.value.pub), fp);
      }
    case RecvKeyrsp(sender, rsp, now) => KeyrspKeepsRevokedPeers(c, r, sender, rsp, now, fp);
    case RecvRekey(sender, rekey, now) =>
    case RecvLine(sender, channel, now, q) =>
  }

  lemma KeyrspKeepsRevokedPeers(c: Suite, r: Ring, sender: Handle, rsp: Option<KeyWrap>, now: real, fp: Bytes)
    requires fp in r.peers && r.peers[fp].status.Revoked?
    ensures var r1 := HandleKeyrsp(c, r, sender, rsp, now).0;
            fp in r1.peers && r1.peers[fp] == r.peers[fp]
  {
    if rsp.Some? {
      if c.fingerprint(rsp.value.pub) == fp {
        assert Classify(r.peers, fp, sender).RevokedPeer?;
      } else {
        OneKeyChanged(r.peers, HandleKeyrsp(c, r, sender, rsp, now).0.peers, c.fingerprint(rsp.value.pub), fp);
      }
    }
  }

  /** Under any sequence of messages from the network trusted sessions stay trusted with the same
      fingerprint, and revoked peers stay as they are. */
  lemma {:induction false} RemoteRunsKeepTrust(c: Suite, r: Ring, events: seq<Event>)
    requires forall e <- events :: Remote(e)
    ensures var r1 := Run(c, r, events).0;
            && (forall h, ch | IsTrusted(r, h, ch) ::
                  IsTrusted(r1, h, ch) && r1.incoming[(h, ch)].fp == r.incoming[(h, ch)].fp)
            && forall fp | fp in r.peers && r.peers[fp].status.Revoked? :: fp in r1.peers && r1.peers[fp] == r.peers[fp]
  {
    if events != [] {
      var before, last := events[..|events| - 1], events[|events| - 1];
      RemoteRunsKeepTrust(c, r, before);
      var mid := Run(c, r, before).0;
      forall h, ch | IsTrusted(r, h, ch)
        ensures IsTrusted(Step(c, mid, last).0, h, ch)
        ensures Step(c, mid, last).0.incoming[(h, ch)].fp == r.incoming[(h, ch)].fp
      {
        RemoteKeepsTrusted(c, mid, last, h, ch);
      }
      forall fp | fp in r.peers && r.peers[fp].status.Revoked?
        ensures fp in Step(c, mid, last).0.peers && Step(c, mid, last).0.peers[fp] == r.peers[fp]
      {
        RemoteKeepsRevokedPeers(c, mid, last, fp);
      }
    }
  }

  // ---------------------------------------------------------------- how a session becomes trusted

  /** The key the event carries is opened under the request it answers, or under our long-term key. */
  function Carried(c: Suite, r: Ring, e: Event, m: KeyWrap): Option<Bytes>
    requires e.RecvKeyrsp? || e.RecvRekey?
  {
    if e.RecvRekey? then OpenWrap(c, c.fromPeer(r.identity, m.eph), RekeyInfo(m.channel), m)
    else
      match AnsweredRequest(r, m.channel, e.sender)
      case None => None
      case Some(k) => OpenWrap(c, c.dh(r.pending[k].ephSk, m.eph), WrapInfo(m.channel), m)
  }

  /** A signed key for this session that opens, from a sender the keyring knows or, for an answer, has never
      heard of, and that does not clash with the session's fingerprint. The session's status plays no part. */
  predicate Installs(c: Suite, r: Ring, e: Event, handle: Handle, channel: Channel) {
    && (e.RecvKeyrsp? || e.RecvRekey?)
    && Installer(e).Some?
    && var m := Installer(e).value;
       && e.sender == handle && m.channel == channel
       && c.verify(m.pub, WrapPayload(if e.RecvKeyrsp? then KEYRSP_TAG else REKEY_TAG, m), m.sig)
       && Carried(c, r, e, m).Some?
       && var change := Classify(r.peers, c.fingerprint(m.pub), handle);
          && (change.Known? || (e.RecvKeyrsp? && change.New?))
          && !SessionClash(r, handle, channel, c.fingerprint(m.pub))
  }

  /** When a message from the network makes a session trusted that was not, revoked ones included. */
  lemma BecomesTrusted(c: Suite, r: Ring, e: Event, handle: Handle, channel: Channel)
    requires Remote(e) && !IsTrusted(r, handle, channel)
    ensures IsTrusted(Step(c, r, e).0, handle, channel) <==> Installs(c, r, e, handle, channel)
  {
    match e
    case RecvKeyreq(sender, nick, req, now, w, newKey, q) =>
      if req.Some? {
        KeyreqTrustsNobody(c, r, sender, nick, req.value, now, w, newKey, q);
      }
      if req.Some? && (handle, channel) != (sender, req.value.channel) {
        StaysUntrusted(r, HandleKeyreq(c, r, sender, nick, req, now, w, newKey, q).0, sender, req.value.channel,
                       handle, channel);
      }
    case RecvKeyrsp(sender, rsp, now) =>
      if rsp.Some? {
        KeyrspInstalls(c, r, sender, rsp.value, now);
        if (handle, channel) != (sender, rsp.value.channel) {
          StaysUntrusted(r, HandleKeyrsp(c, r, sender, rsp, now).0, sender, rsp.value.channel, handle, channel);
        }
      }
    case RecvRekey(sender, rekey, now) =>
      if rekey.Some? && (handle, channel) != (sender, rekey.value.channel) {
        StaysUntrusted(r, HandleRekey(c, r, sender, rekey, now).0, sender, rekey.value.channel, handle, channel);
      }
    case RecvLine(_, _, _, _) =>
  }

  lemma KeyreqTrustsNobody(c: Suite, r: Ring, sender: Handle, nick: string, m: KeyReq, now: real, w: WrapDraw,
                           newKey: Bytes, q: ReqDraw)
    ensures !IsTrusted(r, sender, m.channel) ==>
              !IsTrusted(HandleKeyreq(c, r, sender, nick, Some(m), now, w, newKey, q).0, sender, m.channel)
  {
    var r1 := r.(buckets := r.buckets[sender := Limiter.Decide(BucketOf(r, sender), now).0]);
    if IsEnabled(r1, m.channel) {
      AdmitTrustsNobody(c, r1, sender, nick, m, now, w, newKey, q);
    }
  }

  lemma AdmitTrustsNobody(c: Suite, r: Ring, sender: Handle, nick: string, m: KeyReq, now: real, w: WrapDraw,
                          newKey: Bytes, q: ReqDraw)
    requires m.channel in r.channels
    ensures !IsTrusted(r, sender, m.channel) ==>
              !IsTrusted(AdmitKeyreq(c, r, sender, nick, m, now, w, newKey, q).0, sender, m.channel)
  {
    TreatTrustsNobody(c, PinPeer(c, r, sender, nick, m, Seconds(now)), sender, m, now, w, newKey, q);
  }

  lemma TreatTrustsNobody(c: Suite, r: Ring, sender: Handle, m: KeyReq, now: real, w: WrapDraw, newKey: Bytes,
                          q: ReqDraw)
    requires m.channel in r.channels
    ensures !IsTrusted(r, sender, m.channel) ==>
              !IsTrusted(TreatKeyreq(c, r, sender, m, now, w, newKey, q).0, sender, m.channel)
  {
  }

  lemma StaysUntrusted(r: Ring, r1: Ring, sender: Handle, ch: Channel, handle: Handle, channel: Channel)
    requires r1.incoming - {(sender, ch)} == r.incoming - {(sender, ch)}
    requires (handle, channel) != (sender, ch) && !IsTrusted(r, handle, channel)
    ensures !IsTrusted(r1, handle, channel)
  {
    if (handle, channel) in r1.incoming {
      OneKeyChanged(r1.incoming, r.incoming, (sender, ch), (handle, channel));
    }
  }

  lemma KeyrspInstalls(c: Suite, r: Ring, sender: Handle, m: KeyWrap, now: real)
    ensures HandleKeyrsp(c, r, sender, Some(m), now).1.installed
            <==> Installs(c, r, RecvKeyrsp(sender, Some(m), now), sender, m.channel)
  {
  }

  // ---------------------------------------------------------------- no unsolicited install

  /** KEYREQs sent in a run. */
  function Built(effects: seq<Effects>): nat {
    if effects == [] then 0
    else Built(effects[..|effects| - 1]) + if effects[|effects| - 1].req.Some? then 1 else 0
  }

  /** Session keys installed by a KEYRSP in a run. */
  function Installed(events: seq<Event>, effects: seq<Effects>): nat
    requires |events| == |effects|
  {
    if events == [] then 0
    else
      var n := |events| - 1;
      Installed(events[..n], effects[..n]) + if events[n].RecvKeyrsp? && effects[n].installed then 1 else 0
  }

  lemma RemovingShrinks<V>(m: map<string, V>, k: string)
    ensures |m - {k}| == if k in m then |m| - 1 else |m|
  {
    assert (m - {k}).Keys == m.Keys - {k};
  }

  lemma PuttingGrows<V>(m: map<string, V>, k: string, v: V)
    ensures |m[k := v]| <= |m| + 1
  {
    assert m[k := v].Keys == m.Keys + {k};
  }

  lemma BuildCosts(c: Suite, r: Ring, channel: Channel, handle: Handle, now: real, q: ReqDraw)
    ensures var (r1, req) := BuildKeyreq(c, r, channel, handle, now, q);
            |r1.pending| <= |r.pending| + if req.Some? then 1 else 0
  {
    var k := PendingKey(channel, handle);
    PuttingGrows(r.pending, k, Request(q.eph, Seconds(now)));
  }

  /** What a step may do to the number of outstanding requests. */
  predicate PaysFor(before: nat, after: nat, effects: Effects, answered: bool) {
    after + (if answered && effects.installed then 1 else 0) <= before + if effects.req.Some? then 1 else 0
  }

  lemma RemoteCosts(c: Suite, r: Ring, e: Event)
    requires Remote(e)
    ensures PaysFor(|r.pending|, |RemoteStep(c, r, e).0.pending|, RemoteStep(c, r, e).1, e.RecvKeyrsp?)
  {
    match e
    case RecvKeyreq(sender, nick, req, now, w, newKey, q) =>
      if req.Some? {
        KeyreqCosts(c, r, sender, nick, req.value, now, w, newKey, q);
      }
    case RecvKeyrsp(sender, rsp, now) => KeyrspCosts(c, r, sender, rsp, now);
    case RecvRekey(_, _, _) =>
    case RecvLine(sender, channel, now, q) => BuildCosts(c, AllowOutgoing(r, sender, now).0, channel, sender, now, q);
  }

  lemma QuietCosts(r: Ring, e: Event)
    ensures |QuietCommand(r, e).pending| <= |r.pending|
  {
    if e.Restart? {
      assert QuietCommand(r, e).pending == map[];
    } else {
      assert QuietCommand(r, e).pending == r.pending;
    }
  }

  lemma LocalCosts(c: Suite, r: Ring, e: Event)
    ensures PaysFor(|r.pending|, |LocalStep(c, r, e).0.pending|, LocalStep(c, r, e).1, false)
  {
    if e.Say? {
    } else if e.DoAccept? {
      AcceptCosts(c, r, e.channel, e.handle, e.now, e.w, e.newKey, e.q);
    } else if e.DoHandshake? {
      BuildCosts(c, r, e.channel, "", e.now, e.q);
    } else {
      QuietCosts(r, e);
    }
  }

  /** One step adds at most one outstanding request per KEYREQ sent, and takes one away per install. */
  lemma StepCosts(c: Suite, r: Ring, e: Event)
    ensures PaysFor(|r.pending|, |Step(c, r, e).0.pending|, Step(c, r, e).1, e.RecvKeyrsp?)
  {
    if Remote(e) {
      RemoteCosts(c, r, e);
    } else {
      LocalCosts(c, r, e);
    }
  }

  lemma KeyrspCosts(c: Suite, r: Ring, sender: Handle, rsp: Option<KeyWrap>, now: real)
    ensures var (r1, effects) := HandleKeyrsp(c, r, sender, rsp, now);
            |r1.pending| + (if effects.installed then 1 else 0) <= |r.pending|
  {
    if rsp.Some? && AnsweredRequest(r, rsp.value.channel, sender).Some? {
      var k := AnsweredRequest(r, rsp.value.channel, sender).value;
      RemovingShrinks(r.pending, k);
    }
  }

  lemma AnswerCosts(c: Suite, r: Ring, sender: Handle, m: KeyReq, now: real, w: WrapDraw, newKey: Bytes, q: ReqDraw)
    ensures var (r1, effects) := AnswerKeyreq(c, r, sender, m, now, w, newKey, q);
            |r1.pending| <= |r.pending| + if effects.req.Some? then 1 else 0
  {
    var (r1, rsp) := BuildKeyrsp(c, r, m.channel, sender, m.pub, m.eph, now, w, newKey);
    if rsp.Some? {
      BuildCosts(c, AllowOutgoing(r1, sender, now).0, m.channel, sender, now, q);
    }
  }

  lemma KeyreqCosts(c: Suite, r: Ring, sender: Handle, nick: string, m: KeyReq, now: real, w: WrapDraw,
                    newKey: Bytes, q: ReqDraw)
    ensures var (r1, effects) := HandleKeyreq(c, r, sender, nick, Some(m), now, w, newKey, q);
            |r1.pending| <= |r.pending| + if effects.req.Some? then 1 else 0
  {
    var r0 := r.(buckets := r.buckets[sender := Limiter.Decide(BucketOf(r, sender), now).0]);
    if IsEnabled(r0, m.channel) {
      AdmitCosts(c, r0, sender, nick, m, now, w, newKey, q);
    }
  }

  lemma AdmitCosts(c: Suite, r: Ring, sender: Handle, nick: string, m: KeyReq, now: real, w: WrapDraw,
                   newKey: Bytes, q: ReqDraw)
    requires m.channel in r.channels
    ensures var (r1, effects) := AdmitKeyreq(c, r, sender, nick, m, now, w, newKey, q);
            |r1.pending| <= |r.pending| + if effects.req.Some? then 1 else 0
  {
    TreatCosts(c, PinPeer(c, r, sender, nick, m, Seconds(now)), sender, m, now, w, newKey, q);
  }

  lemma TreatCosts(c: Suite, r: Ring, sender: Handle, m: KeyReq, now: real, w: WrapDraw, newKey: Bytes, q: ReqDraw)
    requires m.channel in r.channels
    ensures var (r1, effects) := TreatKeyreq(c, r, sender, m, now, w, newKey, q);
            |r1.pending| <= |r.pending| + if effects.req.Some? then 1 else 0
  {
    AnswerCosts(c, r, sender, m, now, w, newKey, q);
  }

  lemma AcceptCosts(c: Suite, r: Ring, channel: Channel, handle: Handle, now: real, w: WrapDraw, newKey: Bytes,
                    q: ReqDraw)
    ensures var (r1, effects) := Accept(c, r, channel, handle, now, w, newKey, q);
            |r1.pending| <= |r.pending| + if effects.req.Some? then 1 else 0
  {
    if (handle, channel) in r.inbound {
      AnswerInboundCosts(c, r, channel, r.inbound[(handle, channel)], now, w, newKey, q);
    }
  }

  lemma AnswerInboundCosts(c: Suite, r: Ring, channel: Channel, m: Inbound, now: real, w: WrapDraw, newKey: Bytes,
                           q: ReqDraw)
    ensures var (r1, effects) := AnswerInbound(c, r, channel, m, now, w, newKey, q);
            |r1.pending| <= |r.pending| + if effects.req.Some? then 1 else 0
  {
    var r1 := r.(inbound := r.inbound - {(m.sender, channel)});
    var (r2, rsp) := BuildKeyrsp(c, r1, channel, m.sender, m.pub, m.eph, now, w, newKey);
    if rsp.Some? {
      RemovingShrinks(r2.pending, PendingKey(channel, m.sender));
      BuildCosts(c, r2.(pending := r2.pending - {PendingKey(channel, m.sender)}), channel, m.sender, now, q);
    }
  }

  /** Over every run from an empty keyring, installs and outstanding requests together never exceed
      the KEYREQs sent. */
  lemma {:induction false} NoUnsolicitedInstall(c: Suite, identity: Bytes, events: seq<Event>)
    ensures var (r, effects) := Run(c, EmptyRing(identity), events);
            Installed(events, effects) + |r.pending| <= Built(effects)
  {
    if events != [] {
      var before := events[..|events| - 1];
      NoUnsolicitedInstall(c, identity, before);
      var (mid, sofar) := Run(c, EmptyRing(identity), before);
      StepCosts(c, mid, events[|events| - 1]);
      var effects := Run(c, EmptyRing(identity), events).1;
      assert effects[..|before|] == sofar;
    }
  }
}
