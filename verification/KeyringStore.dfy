/** The client as it runs: the tables of the keyring as mutable fields, and the handlers that read and
    write them. Each handler is proved to take exactly the step that `Keyring` specifies. */
module KeyringStore {
  import opened Basics
  import opened CryptoSuite
  import opened Payloads
  import opened Keyring
  import opened Delivery
  import opened Handshake
  import opened Limiter
  import Chunker
  import Utf8

  /** What happens to a typed line: sent as it is, or as encrypted lines instead. */
  datatype Typed = Untouched | Encrypted(lines: seq<string>)

  /** Commands and lines that other scripts own are never encrypted. */
  predicate LeftAlone(text: string) {
    text == "" || text[0] == '/' || text[0] == '.' || text[0] == '!'
  }

  /** A line that is not encrypted is sent as typed. */
  function AsTyped(lines: Option<seq<string>>): Typed {
    match lines
    case None => Untouched
    case Some(all) => Encrypted(all)
  }

  /** An ordinary text of 2881 bytes is one that cannot be encrypted. */
  lemma LongTextGoesOutPlain()
    ensures var text := seq(2881, i => 'x');
            !LeftAlone(text) && Chunker.SplitOutcome(text) == Err(Chunker.TooManyChunks)
  {
    var text := seq(2881, i => 'x');
    Chunker.SplitLimits(text);
  }

  /** One session's status changed, if there is the session. */
  function WithStatus(r: Ring, handle: Handle, channel: Channel, status: Status): Ring {
    var k := (handle, channel);
    if k in r.incoming then r.(incoming := r.incoming[k := r.incoming[k].(status := status)]) else r
  }

  class Store {
    const c: Suite
    const limiter: IncomingLimiter
    var identity: Bytes
    var peers: map<Bytes, Peer>
    var incoming: map<(Handle, Channel), Session>
    var outgoing: map<Channel, Outgoing>
    var recipients: map<(Channel, Handle), Recipient>
    var channels: map<Channel, Settings>
    var pending: map<string, Keyring.Request>
    var inbound: map<(Handle, Channel), Inbound>
    var autotrust: set<(string, string)>
    var lastSent: map<Handle, real>

    ghost predicate Valid()
      reads limiter
    {
      limiter.Valid()
    }

    /** All tables as one value. */
    function State(): Ring
      reads this, limiter, limiter.buckets.Values
    {
      Ring(identity, peers, incoming, outgoing, recipients, channels, pending, inbound, autotrust, limiter.Views(),
           lastSent)
    }

    constructor (c: Suite, identity: Bytes)
      ensures Valid() && fresh(limiter) && this.c == c
      ensures State() == EmptyRing(identity)
    {
      this.c := c;
      this.identity := identity;
      peers, incoming, outgoing, recipients, channels := map[], map[], map[], map[], map[];
      pending, inbound, autotrust, lastSent := map[], map[], {}, map[];
      limiter := new IncomingLimiter();
    }

    // -------------------------------------------------------------- building messages

    method AllowOutgoing(handle: Handle, now: real) returns (ok: bool)
      modifies this
      ensures (State(), ok) == Keyring.AllowOutgoing(old(State()), handle, now)
    {
      var last := if handle in lastSent then lastSent[handle] else 0.0;
      if now - last < KEYREQ_MIN_INTERVAL {
        return false;
      }
      lastSent := lastSent[handle := now];
      return true;
    }

    method BuildKeyreq(channel: Channel, handle: Handle, now: real, d: ReqDraw) returns (req: Option<KeyReq>)
      modifies this
      ensures (State(), req) == Keyring.BuildKeyreq(c, old(State()), channel, handle, now, d)
    {
      var k := PendingKey(channel, handle);
      if k in pending {
        if Seconds(now) - pending[k].createdAt < PENDING_KEYREQ_TTL {
          return None;
        }
        pending := pending - {k};
      }
      var pub, eph := c.edPub(identity), c.xPub(d.eph);
      var sig := c.sign(identity, SignedKeyreq(channel, pub, eph, d.nonce));
      pending := pending[k := Keyring.Request(d.eph, Seconds(now))];
      assert pending == old(pending)[k := Keyring.Request(d.eph, Seconds(now))];
      return Some(KeyReq(channel, pub, eph, d.nonce, sig));
    }

    method GetOrGenerateOutgoingKey(channel: Channel, now: real, newKey: Bytes) returns (key: Bytes, hadPending: bool)
      modifies this
      ensures (State(), key) == Keyring.OutgoingKey(old(State()), channel, now, newKey)
      ensures hadPending <==> channel in old(outgoing) && old(outgoing)[channel].pendingRotation
    {
      if channel in outgoing && !outgoing[channel].pendingRotation {
        return outgoing[channel].sk, false;
      }
      hadPending := channel in outgoing && outgoing[channel].pendingRotation;
      outgoing := outgoing[channel := Keyring.Outgoing(newKey, Seconds(now), false)];
      return newKey, hadPending;
    }

    method BuildKeyrspForReq(channel: Channel, sender: Handle, pub: Bytes, eph: Bytes, now: real, d: WrapDraw,
                             newKey: Bytes) returns (rsp: Option<Grant>)
      modifies this
      ensures (State(), rsp) == Keyring.BuildKeyrsp(c, old(State()), channel, sender, pub, eph, now, d, newKey)
    {
      var shared := c.dh(d.eph, eph);
      if shared.None? {
        return None;
      }
      var info := WrapInfo(channel);
      var wrapKey := c.kdf(shared.value, info);
      var key, _ := GetOrGenerateOutgoingKey(channel, now, newKey);
      var msg := SealedWrap(c, identity, KEYRSP_TAG, channel, wrapKey, info, key, d);
      var fp := c.fingerprint(pub);
      var first := if fp in peers then peers[fp].firstSeen else Seconds(now);
      peers := peers[fp := Peer(pub, sender, None, first, Seconds(now), Trusted)];
      recipients := recipients[(channel, sender) := Recipient(fp, Seconds(now))];
      return Some(Grant(channel, sender, pub, key, msg));
    }

    method MaybeBuildReciprocalKeyreq(channel: Channel, sender: Handle, now: real, d: ReqDraw)
      returns (req: Option<KeyReq>)
      modifies this
      ensures (State(), req) == Keyring.Reciprocal(c, old(State()), channel, sender, now, d)
    {
      var trusted := (sender, channel) in incoming && incoming[(sender, channel)].status.Trusted?;
      var outstanding := PendingKey(channel, sender) in pending;
      var allow := AllowOutgoing(sender, now);
      if outstanding || trusted || !allow {
        return None;
      }
      req := BuildKeyreq(channel, sender, now, d);
    }

    method BuildReciprocalKeyreqOnAccept(channel: Channel, sender: Handle, now: real, d: ReqDraw)
      returns (req: Option<KeyReq>)
      modifies this
      ensures (State(), req) == Keyring.ReciprocalOnAccept(c, old(State()), channel, sender, now, d)
    {
      var trusted := (sender, channel) in incoming && incoming[(sender, channel)].status.Trusted?;
      pending := pending - {PendingKey(channel, sender)};
      if trusted {
        return None;
      }
      req := BuildKeyreq(channel, sender, now, d);
    }

    // -------------------------------------------------------------- handling messages

    method HandleKeyreq(sender: Handle, nick: string, body: string, now: real, w: WrapDraw, newKey: Bytes, q: ReqDraw)
      returns (effects: Effects)
      requires Valid()
      modifies this, limiter, limiter.buckets.Values
      ensures Valid() && fresh(limiter.buckets.Values - old(limiter.buckets.Values))
      ensures (State(), effects)
              == Keyring.HandleKeyreq(c, old(State()), sender, nick, ParseKeyreq(body), now, w, newKey, q)
    {
      var req := ParseKeyreq(body);
      if req.None? {
        return SILENT;
      }
      var m := req.value;
      var allowed := limiter.AllowIncoming(sender, now);
      if !allowed {
        return SILENT;
      }
      if !c.verify(m.pub, ReqPayload(m), m.sig) {
        return SILENT;
      }
      if m.channel !in channels || !channels[m.channel].enabled {
        return SILENT;
      }
      effects := AdmitKeyreq(sender, nick, m, now, w, newKey, q);
    }

    method AdmitKeyreq(sender: Handle, nick: string, m: KeyReq, now: real, w: WrapDraw, newKey: Bytes, q: ReqDraw)
      returns (effects: Effects)
      requires m.channel in channels
      modifies this
      ensures (State(), effects) == Keyring.AdmitKeyreq(c, old(State()), sender, nick, m, now, w, newKey, q)
    {
      var fp := c.fingerprint(m.pub);
      var change := Classify(peers, fp, sender);
      if change.RevokedPeer? || change.HandleChanged? || change.FingerprintChanged? {
        return SILENT;
      }
      peers := peers[fp := Peer(m.pub, sender, Some(nick), Seconds(now), Seconds(now), Pending)];
      effects := TreatKeyreq(sender, m, now, w, newKey, q);
    }

    /** The mode decides what becomes of the request. */
    method TreatKeyreq(sender: Handle, m: KeyReq, now: real, w: WrapDraw, newKey: Bytes, q: ReqDraw)
      returns (effects: Effects)
      requires m.channel in channels
      modifies this
      ensures (State(), effects) == Keyring.TreatKeyreq(c, old(State()), sender, m, now, w, newKey, q)
    {
      var fp := c.fingerprint(m.pub);
      var matched := Autotrusted(c, autotrust, sender, m.channel);
      var mode := if matched then AutoAccept else channels[m.channel].mode;
      var trusted := (sender, m.channel) in incoming && incoming[(sender, m.channel)].status.Trusted?;
      if mode.Quiet? && !trusted {
        return SILENT;
      }
      if mode.Normal? && !trusted && !matched {
        incoming := incoming[(sender, m.channel) := Session(fp, NO_KEY, Pending, Seconds(now))];
        inbound := inbound[(sender, m.channel) := Inbound(sender, m.pub, m.eph, m.nonce, m.sig, Seconds(now))];
        return SILENT;
      }
      var rsp := BuildKeyrspForReq(m.channel, sender, m.pub, m.eph, now, w, newKey);
      if rsp.None? {
        return SILENT;
      }
      var reciprocal := MaybeBuildReciprocalKeyreq(m.channel, sender, now, q);
      return SILENT.(rsp := rsp, req := reciprocal);
    }

    method HandleKeyrsp(sender: Handle, body: string, now: real) returns (effects: Effects)
      modifies this
      ensures (State(), effects) == Keyring.HandleKeyrsp(c, old(State()), sender, ParseWrap(KEYRSP, body), now)
    {
      var rsp := ParseWrap(KEYRSP, body);
      if rsp.None? {
        return SILENT;
      }
      var m := rsp.value;
      if !c.verify(m.pub, WrapPayload(KEYRSP_TAG, m), m.sig) {
        return SILENT;
      }
      var k := PendingKey(m.channel, sender);
      if k !in pending {
        k := m.channel;
        if k !in pending {
          return SILENT;
        }
      }
      var ephSk := pending[k].ephSk;
      pending := pending - {k};
      var key := OpenWrap(c, c.dh(ephSk, m.eph), WrapInfo(m.channel), m);
      if key.None? {
        return SILENT;
      }
      effects := InstallAnswer(sender, m, key.value, Seconds(now));
    }

    method InstallAnswer(sender: Handle, m: KeyWrap, key: Bytes, t: int) returns (effects: Effects)
      modifies this
      ensures (State(), effects) == Keyring.InstallAnswer(c, old(State()), sender, m, key, t)
    {
      var fp := c.fingerprint(m.pub);
      var change := Classify(peers, fp, sender);
      if change.RevokedPeer? || change.HandleChanged? || change.FingerprintChanged? {
        return SILENT;
      }
      if (sender, m.channel) in incoming && incoming[(sender, m.channel)].fp != fp {
        return SILENT;
      }
      peers := peers[fp := Peer(m.pub, sender, None, t, t, Trusted)];
      incoming := incoming[(sender, m.channel) := Session(fp, key, Trusted, t)];
      return SILENT.(installed := true);
    }

    method HandleRekey(sender: Handle, body: string, now: real) returns (effects: Effects)
      modifies this
      ensures (State(), effects) == Keyring.HandleRekey(c, old(State()), sender, ParseWrap(REKEY, body), now)
    {
      var rekey := ParseWrap(REKEY, body);
      if rekey.None? {
        return SILENT;
      }
      var m := rekey.value;
      if !c.verify(m.pub, WrapPayload(REKEY_TAG, m), m.sig) {
        return SILENT;
      }
      var fp := c.fingerprint(m.pub);
      var change := Classify(peers, fp, sender);
      if !change.Known? {
        return SILENT;
      }
      var key := OpenWrap(c, c.fromPeer(identity, m.eph), RekeyInfo(m.channel), m);
      if key.None? {
        return SILENT;
      }
      if (sender, m.channel) in incoming && incoming[(sender, m.channel)].fp != fp {
        return SILENT;
      }
      incoming := incoming[(sender, m.channel) := Session(fp, key.value, Trusted, Seconds(now))];
      return SILENT.(installed := true);
    }

    /** `hook_irc_in_notice`, from the text of the notice on. */
    method HandleNotice(sender: Handle, nick: string, text: string, now: real, w: WrapDraw, newKey: Bytes, q: ReqDraw)
      returns (effects: Effects)
      requires Valid()
      modifies this, limiter, limiter.buckets.Values
      ensures Valid() && fresh(limiter.buckets.Values - old(limiter.buckets.Values))
      ensures (State(), effects) ==
              match ReadNotice(text)
              case ReqNotice(req) => Keyring.HandleKeyreq(c, old(State()), sender, nick, req, now, w, newKey, q)
              case RspNotice(rsp) => Keyring.HandleKeyrsp(c, old(State()), sender, rsp, now)
              case RekeyNotice(rekey) => Keyring.HandleRekey(c, old(State()), sender, rekey, now)
              case Foreign => (old(State()), SILENT)
    {
      if |text| < 2 || text[..1] != CTCP_MARK || text[|text| - 1..] != CTCP_MARK {
        return SILENT;
      }
      var inner := text[1..|text| - 1];
      if Opening(KEYREQ) <= inner {
        effects := HandleKeyreq(sender, nick, inner, now, w, newKey, q);
      } else if Opening(KEYRSP) <= inner {
        effects := HandleKeyrsp(sender, inner, now);
      } else if Opening(REKEY) <= inner {
        effects := HandleRekey(sender, inner, now);
      } else {
        effects := SILENT;
      }
    }

    /** `hook_irc_in_privmsg`, from the target and the text of the message on. */
    method HandlePrivmsg(handle: Handle, target: string, text: string, now: real, q: ReqDraw)
      returns (received: Received, effects: Effects)
      modifies this
      ensures received == Receive(c, old(State()), handle, target, text, now)
      ensures (State(), effects) ==
              if received.KeyMissing? then AutoKeyreq(c, old(State()), handle, ContextKey(target, handle), now, q)
              else (old(State()), SILENT)
    {
      effects := SILENT;
      var line := Wire.ParseWire(text);
      if line.None? {
        return PassedThrough, SILENT;
      }
      var m := line.value;
      if Distance(Seconds(now), m.ts) > TS_TOLERANCE {
        return Swallowed, SILENT;
      }
      var channel := ContextKey(target, handle);
      if (handle, channel) !in incoming || !incoming[(handle, channel)].status.Trusted? {
        var allowed := AllowOutgoing(handle, now);
        if allowed {
          var req := BuildKeyreq(channel, handle, now, q);
          effects := SILENT.(req := req);
        }
        return KeyMissing, effects;
      }
      received := Decrypt(c, incoming[(handle, channel)].sk, channel, m);
    }

    // -------------------------------------------------------------- sending

    method DistributeRekey(channel: Channel, key: Bytes, draws: Handle -> WrapDraw) returns (sent: map<Handle, Rekey>)
      ensures sent == Rekeys(c, State(), channel, key, draws)
    {
      sent := map[];
      var rows := set k <- recipients | k.0 == channel;
      while rows != {}
        invariant forall k <- rows :: k in recipients && k.0 == channel
        invariant forall h :: h in sent <==> (channel, h) in recipients && (channel, h) !in rows
                                             && recipients[(channel, h)].fp in peers
        invariant forall h <- sent ::
                    sent[h] == RekeyFor(c, identity, channel, h, peers[recipients[(channel, h)].fp], key, draws(h))
        decreases |rows|
      {
        var k :| k in rows;
        rows := rows - {k};
        if recipients[k].fp in peers {
          var row := peers[recipients[k].fp];
          var msg := GrantRekey(c, identity, channel, k.1, row.pk, key, draws(k.1));
          var nick := if row.lastNick.Some? && row.lastNick.value != "" then row.lastNick.value else Ident(k.1);
          sent := sent[k.1 := Rekey(nick, msg)];
        }
      }
      forall h
        ensures h in sent <==> h in Reachable(State(), channel)
      {
        if h in sent {
          assert (channel, h) in recipients;
        }
      }
    }

    /** Cuts up and encrypts a line; it stays as it is where that is impossible. */
    method EncryptText(key: Bytes, channel: Channel, text: string, ts: int, msgid: Bytes, nonces: seq<Bytes>)
      returns (typed: Typed)
      requires |nonces| >= Chunker.MAX_CHUNKS && text != ""
      ensures typed == AsTyped(MessageOf(c, key, channel, text, msgid, ts, nonces))
    {
      var split := Chunker.SplitPlaintext(text);
      if split.Err? {
        return Untouched;
      }
      var lines, ok := SendChunks(c, key, channel, msgid, ts, split.value, nonces);
      ghost var i := if ok then 0 else |lines|;
      AllChunksGo(c, key, channel, msgid, ts, i + 1, |split.value|, split.value[i], nonces[i]);
      if !ok {
        return Untouched;
      }
      LoopSendsMessage(c, key, channel, text, msgid, ts, nonces, lines);
      return Encrypted(lines);
    }

    /** `hook_input_text_for_buffer` on a real channel, from the typed line on. A line that cannot be
        encrypted is sent as typed, though the channel key has been settled by then. */
    method InputText(channel: Channel, text: string, now: real, newKey: Bytes, draws: Handle -> WrapDraw, msgid: Bytes,
                     nonces: seq<Bytes>) returns (typed: Typed, effects: Effects)
      requires |nonces| >= Chunker.MAX_CHUNKS
      modifies this
      ensures var plain := text == "" || text[0] == '/' || text[0] == '.' || text[0] == '!'
                           || channel !in old(channels) || !old(channels)[channel].enabled;
              && (plain ==> State() == old(State()) && typed == Untouched && effects == SILENT)
              && (!plain ==> (State(), effects) == SendText(c, old(State()), channel, now, newKey, draws))
              && (typed.Encrypted? <==>
                    && !plain && Chunker.SplitOutcome(text).Ok? && Utf8.Size(channel) < 65536
                    && -0x8000_0000_0000_0000 <= now.Floor < 0x8000_0000_0000_0000)
      ensures typed.Encrypted? ==>
                && effects.textKey.Some?
                && MessageOf(c, effects.textKey.value, channel, text, msgid, Seconds(now), nonces) == Some(typed.lines)
    {
      if LeftAlone(text) || channel !in channels || !channels[channel].enabled {
        return Untouched, SILENT;
      }
      effects := SettleKey(channel, now, newKey, draws);
      typed := EncryptText(effects.textKey.value, channel, text, Seconds(now), msgid, nonces);
    }

    /** The key the line goes out under, and after a scheduled rotation the REKEYs that go with it. */
    method SettleKey(channel: Channel, now: real, newKey: Bytes, draws: Handle -> WrapDraw) returns (effects: Effects)
      requires channel in channels && channels[channel].enabled
      modifies this
      ensures (State(), effects) == SendText(c, old(State()), channel, now, newKey, draws)
      ensures effects.textKey.Some?
    {
      var key, hadPending := GetOrGenerateOutgoingKey(channel, now, newKey);
      effects := SILENT.(textKey := Some(key));
      if hadPending {
        var sent := DistributeRekey(channel, key, draws);
        effects := effects.(rekeys := sent);
      }
    }

    // -------------------------------------------------------------- commands

    method Accept(channel: Channel, handle: Handle, now: real, w: WrapDraw, newKey: Bytes, q: ReqDraw)
      returns (effects: Effects)
      modifies this
      ensures (State(), effects) == Keyring.Accept(c, old(State()), channel, handle, now, w, newKey, q)
    {
      if (handle, channel) !in inbound {
        UpdateStatus(handle, channel, Trusted);
        return SILENT;
      }
      var m := inbound[(handle, channel)];
      inbound := inbound - {(m.sender, channel)};
      var rsp := BuildKeyrspForReq(channel, m.sender, m.pub, m.eph, now, w, newKey);
      if rsp.None? {
        return SILENT;
      }
      var reciprocal := BuildReciprocalKeyreqOnAccept(channel, m.sender, now, q);
      return SILENT.(rsp := rsp, req := reciprocal);
    }

    /** `UPDATE incoming SET status` */
    method UpdateStatus(handle: Handle, channel: Channel, status: Status)
      modifies this
      ensures State() == SetSessionStatus(old(State()), handle, channel, status)
                      == WithStatus(old(State()), handle, channel, status)
    {
      if (handle, channel) in incoming {
        incoming := incoming[(handle, channel) := incoming[(handle, channel)].(status := status)];
      }
    }

    method ScheduleRotation(channel: Channel)
      modifies this
      ensures State() == Rotate(old(State()), channel)
      ensures State() == old(State()).(outgoing := outgoing)
      ensures outgoing == if channel in old(outgoing)
                          then old(outgoing)[channel := old(outgoing)[channel].(pendingRotation := true)]
                          else old(outgoing)
    {
      if channel in outgoing {
        outgoing := outgoing[channel := outgoing[channel].(pendingRotation := true)];
      }
    }

    // The commands that send nothing.

    method TurnOn(channel: Channel)
      modifies this
      ensures State() == QuietCommand(old(State()), DoOn(channel))
    {
      channels := channels[channel := Settings(true, Normal)];
    }

    method TurnOff(channel: Channel)
      modifies this
      ensures State() == QuietCommand(old(State()), DoOff(channel))
    {
      if channel in channels {
        channels := channels[channel := channels[channel].(enabled := false)];
      }
    }

    method SetMode(channel: Channel, mode: Mode)
      modifies this
      ensures State() == QuietCommand(old(State()), DoMode(channel, mode))
    {
      channels := channels[channel := Settings(true, mode)];
    }

    method Decline(channel: Channel, handle: Handle)
      modifies this
      ensures State() == QuietCommand(old(State()), DoDecline(channel, handle))
      ensures State() == WithStatus(old(State()), handle, channel, Revoked)
                         .(inbound := old(inbound) - {(handle, channel)})
    {
      inbound := inbound - {(handle, channel)};
      UpdateStatus(handle, channel, Revoked);
    }

    method Revoke(channel: Channel, handle: Handle)
      modifies this
      ensures State() == QuietCommand(old(State()), DoRevoke(channel, handle))
      ensures State() == WithStatus(old(State()), handle, channel, Revoked)
                         .(recipients := old(recipients) - {(channel, handle)}, outgoing := outgoing)
      ensures outgoing == if channel in old(outgoing)
                          then old(outgoing)[channel := old(outgoing)[channel].(pendingRotation := true)]
                          else old(outgoing)
    {
      UpdateStatus(handle, channel, Revoked);
      recipients := recipients - {(channel, handle)};
      ScheduleRotation(channel);
    }

    method Unrevoke(channel: Channel, handle: Handle)
      modifies this
      ensures State() == QuietCommand(old(State()), DoUnrevoke(channel, handle))
      ensures State() == WithStatus(old(State()), handle, channel, Trusted)
    {
      UpdateStatus(handle, channel, Trusted);
    }

    method Forget(channel: Channel, handle: Handle)
      modifies this
      ensures State() == QuietCommand(old(State()), DoForget(channel, handle))
      ensures State() == old(State()).(incoming := old(incoming) - {(handle, channel)})
    {
      incoming := incoming - {(handle, channel)};
    }

    method AddAutotrust(scope: string, pattern: string)
      modifies this
      ensures State() == QuietCommand(old(State()), DoAutotrust(scope, pattern))
    {
      autotrust := autotrust + {(scope, pattern)};
    }

    method RemoveAutotrust(pattern: string)
      modifies this
      ensures State() == QuietCommand(old(State()), DoUntrust(pattern))
    {
      autotrust := set rule <- autotrust | rule.1 != pattern;
    }

    /** `init_db` on loading the script, whose globals start out empty. */
    method StartUp()
      requires Valid()
      modifies this, limiter
      ensures Valid() && limiter.buckets == map[]
      ensures State() == QuietCommand(old(State()), Restart)
      ensures State() == old(State()).(pending := map[], buckets := map[], lastSent := map[])
    {
      pending, lastSent := map[], map[];
      limiter.buckets := map[];
    }
  }
}
