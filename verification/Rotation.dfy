/** Key rotation: a revoked peer is cut off from the channel, and who learns of a changed key. */
module Rotation {
  import opened Basics
  import opened CryptoSuite
  import opened Payloads
  import opened Keyring
  import opened Pinning

  /** The fresh channel key an event would use. */
  function NewKey(e: Event): Option<Bytes> {
    if e.RecvKeyreq? || e.Say? || e.DoAccept? then Some(e.newKey) else None
  }

  /** No use of the channel can come back to this key. */
  predicate KeyGone(r: Ring, channel: Channel, key: Bytes) {
    channel in r.outgoing && !r.outgoing[channel].pendingRotation ==> r.outgoing[channel].sk != key
  }

  /** The event answered a KEYREQ of this peer for this channel. */
  predicate Answers(effects: Effects, channel: Channel, handle: Handle) {
    effects.rsp.Some? && effects.rsp.value.channel == channel && effects.rsp.value.to == handle
  }

  /** Nothing the event does on the channel uses the key. */
  predicate Avoids(e: Event, effects: Effects, channel: Channel, key: Bytes) {
    && (e.Say? && e.channel == channel ==> effects.textKey != Some(key))
    && (effects.rsp.Some? && effects.rsp.value.channel == channel ==> effects.rsp.value.key != key)
    && forall h <- effects.rekeys :: effects.rekeys[h].grant.channel == channel ==> effects.rekeys[h].grant.key != key
  }

  /** The event sends this peer a REKEY for this channel. */
  predicate Rekeyed(effects: Effects, channel: Channel, handle: Handle) {
    handle in effects.rekeys && effects.rekeys[handle].grant.channel == channel
  }

  /** A KEYRSP is the answer to a KEYREQ of the peer it goes to, either just received or cached. */
  lemma AnswersOnlyRequests(c: Suite, r: Ring, e: Event, channel: Channel, handle: Handle)
    requires Answers(Step(c, r, e).1, channel, handle)
    ensures (e.RecvKeyreq? && e.sender == handle && e.req.Some? && e.req.value.channel == channel)
            || (e.DoAccept? && e.channel == channel && (e.handle, channel) in r.inbound
                && r.inbound[(e.handle, channel)].sender == handle)
  {
  }

  lemma RevokeRetires(r: Ring, channel: Channel, handle: Handle)
    ensures channel in r.outgoing ==> KeyGone(Revoke(r, channel, handle), channel, r.outgoing[channel].sk)
    ensures (channel, handle) !in Revoke(r, channel, handle).recipients
  {
  }

  lemma GrantAvoids(r: Ring, r1: Ring, rsp: Option<Grant>, now: real, newKey: Bytes, channel: Channel, key: Bytes)
    requires KeyGone(r, channel, key) && newKey != key && KeyGranted(r.outgoing, r.recipients, r1, rsp, now, newKey)
    ensures rsp.Some? && rsp.value.channel == channel ==> rsp.value.key != key
    ensures KeyGone(r1, channel, key)
  {
  }

  lemma GrantAddsOnlyItsPeer(r: Ring, r1: Ring, rsp: Option<Grant>, now: real, newKey: Bytes, k: (Channel, Handle))
    requires k !in r.recipients && KeyGranted(r.outgoing, r.recipients, r1, rsp, now, newKey)
    ensures k in r1.recipients ==> rsp.Some? && k == (rsp.value.channel, rsp.value.to)
  {
    if rsp.Some? {
      var g := rsp.value;
      assert k !in r.recipients - {(g.channel, g.to)};
      assert k !in r1.recipients - {(g.channel, g.to)};
    }
  }

  lemma CommandsMakeNoKeys(r: Ring, e: Event, channel: Channel, key: Bytes)
    requires KeyGone(r, channel, key)
    ensures KeyGone(QuietCommand(r, e), channel, key)
  {
    if e.DoRevoke? || e.DoRotate? {
      RotateMakesNoKeys(r, e.channel, if e.DoRevoke? then e.handle else "", channel, key);
    } else {
      OtherCommandsKeepKeys(r, e);
    }
  }

  lemma RotateMakesNoKeys(r: Ring, rotated: Channel, handle: Handle, channel: Channel, key: Bytes)
    requires KeyGone(r, channel, key)
    ensures KeyGone(Rotate(r, rotated), channel, key) && KeyGone(Revoke(r, rotated, handle), channel, key)
  {
  }

  lemma CommandsAddNoRecipients(r: Ring, e: Event, k: (Channel, Handle))
    requires k !in r.recipients
    ensures k !in QuietCommand(r, e).recipients
  {
    if !e.DoRevoke? && !e.DoRotate? {
      OtherCommandsKeepKeys(r, e);
    }
  }

  lemma OtherCommandsKeepKeys(r: Ring, e: Event)
    requires !e.DoRevoke? && !e.DoRotate?
    ensures QuietCommand(r, e).outgoing == r.outgoing && QuietCommand(r, e).recipients == r.recipients
  {
  }

  lemma RemoteKeepsKeyGone(c: Suite, r: Ring, e: Event, channel: Channel, key: Bytes)
    requires Remote(e) && KeyGone(r, channel, key) && NewKey(e) != Some(key)
    ensures KeyGone(RemoteStep(c, r, e).0, channel, key) && Avoids(e, RemoteStep(c, r, e).1, channel, key)
  {
    var (r1, effects) := RemoteStep(c, r, e);
    if e.RecvKeyreq? {
      GrantAvoids(r, r1, effects.rsp, e.now, e.newKey, channel, key);
    }
  }

  lemma SayKeepsKeyGone(c: Suite, r: Ring, said: Channel, now: real, newKey: Bytes, draws: Handle -> WrapDraw,
                        channel: Channel, key: Bytes)
    requires KeyGone(r, channel, key) && newKey != key
    ensures var (r1, effects) := SendText(c, r, said, now, newKey, draws);
            && KeyGone(r1, channel, key) && effects.rsp.None?
            && (said == channel ==> effects.textKey != Some(key))
            && forall h <- effects.rekeys ::
                 effects.rekeys[h].grant.channel == channel ==> effects.rekeys[h].grant.key != key
  {
  }

  lemma LocalKeepsKeyGone(c: Suite, r: Ring, e: Event, channel: Channel, key: Bytes)
    requires !Remote(e) && KeyGone(r, channel, key) && NewKey(e) != Some(key)
    ensures KeyGone(LocalStep(c, r, e).0, channel, key) && Avoids(e, LocalStep(c, r, e).1, channel, key)
  {
    if e.DoAccept? {
      var (r1, effects) := Accept(c, r, e.channel, e.handle, e.now, e.w, e.newKey, e.q);
      GrantAvoids(r, r1, effects.rsp, e.now, e.newKey, channel, key);
    } else if e.Say? {
      SayKeepsKeyGone(c, r, e.channel, e.now, e.newKey, e.draws, channel, key);
    } else if e.DoHandshake? {
    } else {
      CommandsMakeNoKeys(r, e, channel, key);
    }
  }

  lemma StepKeepsKeyGone(c: Suite, r: Ring, e: Event, channel: Channel, key: Bytes)
    requires KeyGone(r, channel, key) && NewKey(e) != Some(key)
    ensures KeyGone(Step(c, r, e).0, channel, key) && Avoids(e, Step(c, r, e).1, channel, key)
  {
    if Remote(e) {
      RemoteKeepsKeyGone(c, r, e, channel, key);
    } else {
      LocalKeepsKeyGone(c, r, e, channel, key);
    }
  }

  lemma StepKeepsExcluded(c: Suite, r: Ring, e: Event, channel: Channel, handle: Handle)
    requires (channel, handle) !in r.recipients
    ensures !Rekeyed(Step(c, r, e).1, channel, handle)
    ensures (channel, handle) in Step(c, r, e).0.recipients ==> Answers(Step(c, r, e).1, channel, handle)
  {
    var (r1, effects) := Step(c, r, e);
    if e.RecvKeyreq? || e.DoAccept? {
      GrantAddsOnlyItsPeer(r, r1, effects.rsp, e.now, e.newKey, (channel, handle));
    } else if e.Say? || Remote(e) || e.DoHandshake? {
    } else {
      CommandsAddNoRecipients(r, e, (channel, handle));
    }
  }

  /** No event of the run uses the key. */
  predicate AllAvoid(events: seq<Event>, effects: seq<Effects>, channel: Channel, key: Bytes) {
    |effects| == |events| && forall i | 0 <= i < |events| :: Avoids(events[i], effects[i], channel, key)
  }

  lemma {:induction false} RunKeepsKeyGone(c: Suite, r: Ring, channel: Channel, key: Bytes, events: seq<Event>)
    requires KeyGone(r, channel, key) && forall i | 0 <= i < |events| :: NewKey(events[i]) != Some(key)
    ensures KeyGone(Run(c, r, events).0, channel, key) && AllAvoid(events, Run(c, r, events).1, channel, key)
  {
    if events != [] {
      var n := |events| - 1;
      RunKeepsKeyGone(c, r, channel, key, events[..n]);
      var (mid, sofar) := Run(c, r, events[..n]);
      StepKeepsKeyGone(c, mid, events[n], channel, key);
    }
  }

  /** After a revoke no later event of any run uses the channel key of that moment, provided fresh keys
      do not repeat it. */
  lemma RevokedKeyIsNeverUsed(c: Suite, r: Ring, channel: Channel, handle: Handle, events: seq<Event>)
    requires channel in r.outgoing
    requires forall i | 0 <= i < |events| :: NewKey(events[i]) != Some(r.outgoing[channel].sk)
    ensures AllAvoid(events, Run(c, Revoke(r, channel, handle), events).1, channel, r.outgoing[channel].sk)
  {
    RevokeRetires(r, channel, handle);
    RunKeepsKeyGone(c, Revoke(r, channel, handle), channel, r.outgoing[channel].sk, events);
  }

  /** After a revoke the peer gets no REKEY for the channel, and is no recipient of it, until one of its
      KEYREQs has been answered again. */
  lemma {:induction false} RevokedPeerGetsNoKey(c: Suite, r: Ring, channel: Channel, handle: Handle, events: seq<Event>)
    ensures var (r1, effects) := Run(c, Revoke(r, channel, handle), events);
            && ((channel, handle) in r1.recipients ==>
                  exists j :: 0 <= j < |events| && Answers(effects[j], channel, handle))
            && forall i | 0 <= i < |events| && Rekeyed(effects[i], channel, handle) ::
                 exists j :: 0 <= j < i && Answers(effects[j], channel, handle)
  {
    RevokeRetires(r, channel, handle);
    if events != [] {
      var n := |events| - 1;
      RevokedPeerGetsNoKey(c, r, channel, handle, events[..n]);
      var (mid, sofar) := Run(c, Revoke(r, channel, handle), events[..n]);
      var (r1, effects) := Run(c, Revoke(r, channel, handle), events);
      assert effects[..n] == sofar;
      if (channel, handle) in mid.recipients {
        var j :| 0 <= j < n && Answers(sofar[j], channel, handle);
        assert Answers(effects[j], channel, handle);
      } else {
        StepKeepsExcluded(c, mid, events[n], channel, handle);
        if (channel, handle) in r1.recipients {
          assert Answers(effects[n], channel, handle);
        }
      }
      forall i | 0 <= i <= n && Rekeyed(effects[i], channel, handle)
        ensures exists j :: 0 <= j < i && Answers(effects[j], channel, handle)
      {
        if i < n {
          assert Rekeyed(sofar[i], channel, handle);
          var j :| 0 <= j < i && Answers(sofar[j], channel, handle);
          assert Answers(effects[j], channel, handle);
        }
      }
    }
  }

  /** In a pinned keyring a REKEY for one peer is wrapped to that peer's own long-term key. */
  lemma RekeysFollowPins(c: Suite, r: Ring, e: Event, handle: Handle)
    requires Pinned(c, r) && handle in Step(c, r, e).1.rekeys
    ensures var pub := Step(c, r, e).1.rekeys[handle].grant.pub;
            forall fp, other | PinnedTo(r.peers, fp, other) :: fp == c.fingerprint(pub) <==> other == handle
  {
    assert e.Say?;
    var r1 := OutgoingKey(r, e.channel, e.now, e.newKey).0;
    assert PinnedTo(r.peers, r.recipients[(e.channel, handle)].fp, handle);
  }

  // ---------------------------------------------------------------- who learns of a changed key

  /** The event gets this key of the channel to the peer: as the answer to the peer's own request, or by a
      REKEY sent to the nick the peer goes by. */
  predicate Reached(effects: Effects, channel: Channel, handle: Handle, key: Bytes, nick: string) {
    || (Answers(effects, channel, handle) && effects.rsp.value.key == key)
    || (Rekeyed(effects, channel, handle)
        && effects.rekeys[handle].grant.key == key && effects.rekeys[handle].nick == nick)
  }

  predicate AllReached(r: Ring, effects: Effects, channel: Channel, key: Bytes, nicks: Handle -> string) {
    forall k <- r.recipients :: k.0 == channel ==> Reached(effects, channel, k.1, key, nicks(k.1))
  }

  /** Whose request the event would answer. */
  function Requester(r: Ring, e: Event): Option<Handle> {
    if e.RecvKeyreq? then Some(e.sender)
    else if e.DoAccept? && (e.handle, e.channel) in r.inbound then Some(r.inbound[(e.handle, e.channel)].sender)
    else None
  }

  /** A REKEY for this recipient would be sent to the nick it goes by. */
  predicate WellAddressed(r: Ring, k: (Channel, Handle), nick: string) {
    k in r.recipients && r.recipients[k].fp in r.peers && NoticeNick(r.peers[r.recipients[k].fp].lastNick, k.1) == nick
  }

  /** What must hold before the event for all recipients of the channel to get the key it brings in: for a
      message of ours, the recorded addresses are right; for an answer, nobody but the requester has the
      old key. */
  predicate NobodyMissed(r: Ring, e: Event, channel: Channel, nicks: Handle -> string) {
    forall k <- r.recipients :: k.0 == channel ==>
      if e.Say? then WellAddressed(r, k, nicks(k.1)) else Requester(r, e) == Some(k.1)
  }

  ghost predicate Replaces(c: Suite, r: Ring, e: Event, channel: Channel) {
    channel in r.outgoing
    && var r1 := Step(c, r, e).0; channel in r1.outgoing && r1.outgoing[channel].sk != r.outgoing[channel].sk
  }

  /** When an event replaces the channel key, all recipients get the new one exactly when nobody is missed,
      as can be told before the event. */
  lemma RotationReachesEveryone(c: Suite, r: Ring, e: Event, channel: Channel, nicks: Handle -> string)
    requires Pinned(c, r) && Replaces(c, r, e, channel)
    ensures var (r1, effects) := Step(c, r, e);
            AllReached(r1, effects, channel, r1.outgoing[channel].sk, nicks) <==> NobodyMissed(r, e, channel, nicks)
  {
    if e.Say? {
      SayReaches(c, r, e, channel, nicks);
    } else if e.RecvKeyreq? {
      AnswerReaches(r, Step(c, r, e).0, Step(c, r, e).1, channel, e.now, e.newKey, e.sender, nicks);
    } else if e.DoAccept? {
      AcceptReaches(c, r, e, channel, nicks);
    } else if Remote(e) || e.DoHandshake? {
    } else {
      CommandsKeepKeyBytes(r, e, channel);
    }
  }

  /** An answer that replaces the key of the channel reaches the requester, who is a recipient then. */
  lemma AnswerReaches(r: Ring, r1: Ring, effects: Effects, channel: Channel, now: real, newKey: Bytes, to: Handle,
                      nicks: Handle -> string)
    requires KeyGranted(r.outgoing, r.recipients, r1, effects.rsp, now, newKey)
    requires effects.rekeys == map[] && (effects.rsp.Some? ==> effects.rsp.value.to == to)
    requires channel in r.outgoing && channel in r1.outgoing && r1.outgoing[channel].sk != r.outgoing[channel].sk
    ensures AllReached(r1, effects, channel, r1.outgoing[channel].sk, nicks)
            <==> forall k <- r.recipients :: k.0 == channel ==> k.1 == to
  {
    var g := effects.rsp.value;
    var key := r1.outgoing[channel].sk;
    assert g.channel == channel && g.key == key;
    forall h
      ensures (channel, h) in r1.recipients <==> h == to || (channel, h) in r.recipients
    {
      if h != to {
        assert (channel, h) in r1.recipients - {(channel, to)} <==> (channel, h) in r.recipients - {(channel, to)};
      }
    }
    forall h
      ensures Reached(effects, channel, h, key, nicks(h)) <==> h == to
    {
    }
    forall k | k in r.recipients && k.0 == channel
      ensures (channel, k.1) == k && k in r1.recipients
    {
    }
    forall k | k in r1.recipients && k.0 == channel
      ensures (channel, k.1) == k && (k.1 == to || k in r.recipients)
    {
    }
  }

  lemma AcceptReaches(c: Suite, r: Ring, e: Event, channel: Channel, nicks: Handle -> string)
    requires e.DoAccept? && Replaces(c, r, e, channel)
    ensures var (r1, effects) := Step(c, r, e);
            AllReached(r1, effects, channel, r1.outgoing[channel].sk, nicks) <==> NobodyMissed(r, e, channel, nicks)
  {
    var (r1, effects) := Accept(c, r, e.channel, e.handle, e.now, e.w, e.newKey, e.q);
    assert (e.handle, e.channel) in r.inbound;
    AnswerReaches(r, r1, effects, channel, e.now, e.newKey, r.inbound[(e.handle, e.channel)].sender, nicks);
  }

  lemma RotateKeepsKeyBytes(r: Ring, rotated: Channel, handle: Handle, channel: Channel)
    requires channel in r.outgoing
    ensures channel in Rotate(r, rotated).outgoing && Rotate(r, rotated).outgoing[channel].sk == r.outgoing[channel].sk
    ensures var r1 := Revoke(r, rotated, handle);
            channel in r1.outgoing && r1.outgoing[channel].sk == r.outgoing[channel].sk
  {
  }

  lemma CommandsKeepKeyBytes(r: Ring, e: Event, channel: Channel)
    requires channel in r.outgoing
    ensures channel in QuietCommand(r, e).outgoing
    ensures QuietCommand(r, e).outgoing[channel].sk == r.outgoing[channel].sk
  {
    if e.DoRevoke? || e.DoRotate? {
      RotateKeepsKeyBytes(r, e.channel, if e.DoRevoke? then e.handle else "", channel);
    } else {
      OtherCommandsKeepKeys(r, e);
    }
  }

  /** One recipient of a rotated key. */
  lemma SayReachesOne(c: Suite, r: Ring, channel: Channel, now: real, newKey: Bytes, draws: Handle -> WrapDraw,
                      handle: Handle, nick: string)
    requires IsEnabled(r, channel) && channel in r.outgoing && r.outgoing[channel].pendingRotation
    requires (channel, handle) in r.recipients && r.recipients[(channel, handle)].fp in r.peers
    ensures var (r1, effects) := SendText(c, r, channel, now, newKey, draws);
            Reached(effects, channel, handle, newKey, nick) <==> WellAddressed(r, (channel, handle), nick)
  {
    var (r1, effects) := SendText(c, r, channel, now, newKey, draws);
    assert (channel, handle) in r1.recipients && handle in Reachable(r1, channel);
    assert effects.rekeys == Rekeys(c, r1, channel, newKey, draws);
  }

  lemma SayReachesEach(c: Suite, r: Ring, channel: Channel, now: real, newKey: Bytes, draws: Handle -> WrapDraw,
                       nicks: Handle -> string)
    requires Pinned(c, r) && IsEnabled(r, channel) && channel in r.outgoing && r.outgoing[channel].pendingRotation
    ensures var effects := SendText(c, r, channel, now, newKey, draws).1;
            forall k <- r.recipients :: k.0 == channel ==>
              (Reached(effects, channel, k.1, newKey, nicks(k.1)) <==> WellAddressed(r, k, nicks(k.1)))
  {
    forall k | k in r.recipients && k.0 == channel
      ensures var effects := SendText(c, r, channel, now, newKey, draws).1;
              Reached(effects, channel, k.1, newKey, nicks(k.1)) <==> WellAddressed(r, k, nicks(k.1))
    {
      assert PinnedTo(r.peers, r.recipients[k].fp, k.1) && k == (channel, k.1);
      SayReachesOne(c, r, channel, now, newKey, draws, k.1, nicks(k.1));
    }
  }

  /** Only a rotation that is due replaces a key on sending. */
  lemma SayReplaces(c: Suite, r: Ring, e: Event, channel: Channel)
    requires e.Say? && channel in r.outgoing
    requires var r1 := LocalStep(c, r, e).0; channel in r1.outgoing && r1.outgoing[channel].sk != r.outgoing[channel].sk
    ensures e.channel == channel && IsEnabled(r, channel) && r.outgoing[channel].pendingRotation
    ensures var r1 := LocalStep(c, r, e).0; r1.recipients == r.recipients && r1.outgoing[channel].sk == e.newKey
  {
  }

  lemma SayReaches(c: Suite, r: Ring, e: Event, channel: Channel, nicks: Handle -> string)
    requires Pinned(c, r) && e.Say? && channel in r.outgoing
    requires var r1 := LocalStep(c, r, e).0; channel in r1.outgoing && r1.outgoing[channel].sk != r.outgoing[channel].sk
    ensures var (r1, effects) := LocalStep(c, r, e);
            AllReached(r1, effects, channel, r1.outgoing[channel].sk, nicks) <==> NobodyMissed(r, e, channel, nicks)
  {
    SayReplaces(c, r, e, channel);
    SayReachesEach(c, r, channel, e.now, e.newKey, e.draws, nicks);
  }
}
