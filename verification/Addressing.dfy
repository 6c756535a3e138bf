/** Where REKEY notices go. The nick they are sent to is the one on record for the key, and answering a
    request wipes it; so a rotated key can miss a recipient. */
module Addressing {
  import opened Basics
  import opened CryptoSuite
  import opened Payloads
  import opened Keyring
  import opened Pinning
  import opened Rotation
  import Handshake
  import Limiter
  import Sessions
  import Text

  // ---------------------------------------------------------------- the nick on record

  /** The request gets past the limiter, the signature, the channel switch and the classification. */
  predicate Passes(c: Suite, r: Ring, sender: Handle, m: KeyReq, now: real) {
    var change := Classify(r.peers, c.fingerprint(m.pub), sender);
    && Limiter.Decide(BucketOf(r, sender), now).1.Accepted?
    && c.verify(m.pub, ReqPayload(m), m.sig) && IsEnabled(r, m.channel) && (change.Known? || change.New?)
  }

  /** The event is a KEYREQ of this key that gets that far. */
  predicate Admits(c: Suite, r: Ring, e: Event, fp: Bytes) {
    && e.RecvKeyreq? && e.req.Some? && c.fingerprint(e.req.value.pub) == fp
    && Passes(c, r, e.sender, e.req.value, e.now)
  }

  /** The event answers a KEYREQ of this key, or installs the key's own answer. */
  predicate WipesNick(c: Suite, e: Event, effects: Effects, fp: Bytes) {
    || (effects.rsp.Some? && c.fingerprint(effects.rsp.value.pub) == fp)
    || (e.RecvKeyrsp? && effects.installed && e.rsp.Some? && c.fingerprint(e.rsp.value.pub) == fp)
  }

  predicate HasNick(peers: map<Bytes, Peer>, fp: Bytes, nick: string) {
    fp in peers && peers[fp].lastNick == Some(nick)
  }

  lemma QuietKeepsPeers(r: Ring, e: Event)
    ensures QuietCommand(r, e).peers == r.peers
  {
  }

  /** A row that a change at another key leaves alone. */
  lemma ElsewhereSame(before: map<Bytes, Peer>, after: map<Bytes, Peer>, changed: Bytes, fp: Bytes, nick: string)
    requires after - {changed} == before - {changed} && changed != fp
    ensures HasNick(before, fp, nick) <==> HasNick(after, fp, nick)
  {
    assert fp in before <==> fp in before - {changed};
    assert fp in after <==> fp in after - {changed};
    if fp in before {
      Sessions.OneKeyChanged(before, after, changed, fp);
    }
  }

  /** A request that gets past the guards leaves its nick on record unless it is answered; any other leaves
      the peer table alone. */
  lemma KeyreqNotes(c: Suite, r: Ring, sender: Handle, nick: string, m: KeyReq, now: real, w: WrapDraw,
                    newKey: Bytes, q: ReqDraw)
    ensures var (r1, effects) := HandleKeyreq(c, r, sender, nick, Some(m), now, w, newKey, q);
            var fp := c.fingerprint(m.pub);
            if Passes(c, r, sender, m, now)
            then
              && fp in r1.peers && r1.peers[fp].lastNick == (if effects.rsp.Some? then None else Some(nick))
              && GrantedTo(effects.rsp, m.pub)
            else r1.peers == r.peers && effects.rsp.None?
  {
    if Passes(c, r, sender, m, now) {
      var r1 := r.(buckets := r.buckets[sender := Limiter.Decide(BucketOf(r, sender), now).0]);
      AdmittedNotes(c, r1, sender, nick, m, now, w, newKey, q);
    }
  }

  lemma AnswerWipes(c: Suite, r: Ring, sender: Handle, m: KeyReq, now: real, w: WrapDraw, newKey: Bytes, q: ReqDraw)
    requires m.channel in r.channels
    ensures var (r1, effects) := TreatKeyreq(c, r, sender, m, now, w, newKey, q);
            NickAfter(r.peers, r1.peers, c.fingerprint(m.pub), effects.rsp.Some?) && GrantedTo(effects.rsp, m.pub)
  {
  }

  lemma AdmittedNotes(c: Suite, r: Ring, sender: Handle, nick: string, m: KeyReq, now: real, w: WrapDraw,
                      newKey: Bytes, q: ReqDraw)
    requires m.channel in r.channels
    requires var change := Classify(r.peers, c.fingerprint(m.pub), sender); change.Known? || change.New?
    ensures var (r1, effects) := AdmitKeyreq(c, r, sender, nick, m, now, w, newKey, q);
            var fp := c.fingerprint(m.pub);
            && fp in r1.peers && r1.peers[fp].lastNick == (if effects.rsp.Some? then None else Some(nick))
            && GrantedTo(effects.rsp, m.pub)
  {
    var r1 := PinPeer(c, r, sender, nick, m, Seconds(now));
    var out := TreatKeyreq(c, r1, sender, m, now, w, newKey, q);
    AnswerWipes(c, r1, sender, m, now, w, newKey, q);
  }

  /** What the event does to the nick on record for the key. */
  ghost predicate RecordedAfter(c: Suite, r: Ring, e: Event, r1: Ring, effects: Effects, fp: Bytes, nick: string) {
    HasNick(r1.peers, fp, nick)
    <==> if Admits(c, r, e, fp) then e.nick == nick && effects.rsp.None?
         else HasNick(r.peers, fp, nick) && !WipesNick(c, e, effects, fp)
  }

  lemma KeyreqRecords(c: Suite, r: Ring, e: Event, fp: Bytes, nick: string)
    requires e.RecvKeyreq?
    ensures RecordedAfter(c, r, e, RemoteStep(c, r, e).0, RemoteStep(c, r, e).1, fp, nick)
  {
    if e.req.Some? {
      var m := e.req.value;
      KeyreqNotes(c, r, e.sender, e.nick, m, e.now, e.w, e.newKey, e.q);
      if c.fingerprint(m.pub) != fp {
        ElsewhereSame(r.peers, RemoteStep(c, r, e).0.peers, c.fingerprint(m.pub), fp, nick);
      }
    }
  }

  lemma RemoteNick(c: Suite, r: Ring, e: Event, fp: Bytes, nick: string)
    requires Remote(e)
    ensures RecordedAfter(c, r, e, RemoteStep(c, r, e).0, RemoteStep(c, r, e).1, fp, nick)
  {
    var (r1, effects) := RemoteStep(c, r, e);
    if e.RecvKeyreq? {
      KeyreqRecords(c, r, e, fp, nick);
    } else if e.RecvKeyrsp? && e.rsp.Some? {
      if c.fingerprint(e.rsp.value.pub) != fp {
        ElsewhereSame(r.peers, r1.peers, c.fingerprint(e.rsp.value.pub), fp, nick);
      }
    }
  }

  lemma LocalNick(c: Suite, r: Ring, e: Event, fp: Bytes, nick: string)
    requires !Remote(e)
    ensures RecordedAfter(c, r, e, LocalStep(c, r, e).0, LocalStep(c, r, e).1, fp, nick)
  {
    if e.DoAccept? {
      AcceptNick(c, r, e.channel, e.handle, e.now, e.w, e.newKey, e.q, fp, nick);
    } else if e.Say? || e.DoHandshake? {
    } else {
      QuietKeepsPeers(r, e);
    }
  }

  lemma AcceptNick(c: Suite, r: Ring, channel: Channel, handle: Handle, now: real, w: WrapDraw, newKey: Bytes,
                   q: ReqDraw, fp: Bytes, nick: string)
    ensures var (r1, effects) := Accept(c, r, channel, handle, now, w, newKey, q);
            HasNick(r1.peers, fp, nick)
            <==> HasNick(r.peers, fp, nick)
                 && (effects.rsp.Some? ==> c.fingerprint(effects.rsp.value.pub) != fp)
  {
    if (handle, channel) in r.inbound {
      var m := r.inbound[(handle, channel)];
      var (r1, effects) := AnswerInbound(c, r, channel, m, now, w, newKey, q);
      if c.fingerprint(m.pub) != fp {
        ElsewhereSame(r.peers, r1.peers, c.fingerprint(m.pub), fp, nick);
      }
    }
  }

  lemma StepNick(c: Suite, r: Ring, e: Event, fp: Bytes, nick: string)
    ensures RecordedAfter(c, r, e, Step(c, r, e).0, Step(c, r, e).1, fp, nick)
  {
    if Remote(e) {
      RemoteNick(c, r, e, fp, nick);
    } else {
      LocalNick(c, r, e, fp, nick);
    }
  }

  /** The keyrings a run from an empty one goes through, one before each event. */
  function Rings(c: Suite, identity: Bytes, events: seq<Event>): seq<Ring> {
    seq(|events|, i requires 0 <= i < |events| => Run(c, EmptyRing(identity), events[..i]).0)
  }

  /** Event `i` admitted a KEYREQ of the key from this nick and did not answer it, and no event after it admitted
      or answered one, or installed the key's own answer. */
  predicate LastNoted(c: Suite, rings: seq<Ring>, events: seq<Event>, effects: seq<Effects>, fp: Bytes, nick: string,
                      i: nat)
    requires |events| == |effects| == |rings|
  {
    && i < |events| && Admits(c, rings[i], events[i], fp) && events[i].nick == nick && effects[i].rsp.None?
    && forall j | i < j < |events| :: !Admits(c, rings[j], events[j], fp) && !WipesNick(c, events[j], effects[j], fp)
  }

  ghost predicate Noted(c: Suite, rings: seq<Ring>, events: seq<Event>, effects: seq<Effects>, fp: Bytes, nick: string)
    requires |events| == |effects| == |rings|
  {
    exists i :: 0 <= i < |events| && LastNoted(c, rings, events, effects, fp, nick, i)
  }

  lemma NotedEarlier(c: Suite, rings: seq<Ring>, events: seq<Event>, effects: seq<Effects>, fp: Bytes, nick: string,
                     i: nat)
    requires |events| == |effects| == |rings| && i < |events| - 1
    ensures var n := |events| - 1;
            LastNoted(c, rings, events, effects, fp, nick, i)
            <==> LastNoted(c, rings[..n], events[..n], effects[..n], fp, nick, i)
                 && !Admits(c, rings[n], events[n], fp) && !WipesNick(c, events[n], effects[n], fp)
  {
  }

  lemma NotedStep(c: Suite, rings: seq<Ring>, events: seq<Event>, effects: seq<Effects>, fp: Bytes, nick: string)
    requires |events| == |effects| == |rings| > 0
    ensures var n := |events| - 1;
            Noted(c, rings, events, effects, fp, nick)
            <==> if Admits(c, rings[n], events[n], fp) then events[n].nick == nick && effects[n].rsp.None?
                 else Noted(c, rings[..n], events[..n], effects[..n], fp, nick)
                      && !WipesNick(c, events[n], effects[n], fp)
  {
    var n := |events| - 1;
    forall i | 0 <= i < n
      ensures LastNoted(c, rings, events, effects, fp, nick, i)
              <==> LastNoted(c, rings[..n], events[..n], effects[..n], fp, nick, i)
                   && !Admits(c, rings[n], events[n], fp) && !WipesNick(c, events[n], effects[n], fp)
    {
      NotedEarlier(c, rings, events, effects, fp, nick, i);
    }
    assert LastNoted(c, rings, events, effects, fp, nick, n)
      <==> Admits(c, rings[n], events[n], fp) && events[n].nick == nick && effects[n].rsp.None?;
  }

  /** Over every run from an empty keyring: a nick is on record for a key exactly when the last event that
      admitted or answered a KEYREQ of that key, or installed its answer, was a KEYREQ from that nick that got
      no answer. */
  lemma {:induction false} NickOnRecord(c: Suite, identity: Bytes, events: seq<Event>, fp: Bytes, nick: string)
    ensures HasNick(Run(c, EmptyRing(identity), events).0.peers, fp, nick)
            <==> Noted(c, Rings(c, identity, events), events, Run(c, EmptyRing(identity), events).1, fp, nick)
  {
    if events != [] {
      var n := |events| - 1;
      LastStepRecords(c, identity, events, fp, nick);
      NickOnRecord(c, identity, events[..n], fp, nick);
      NotedStep(c, Rings(c, identity, events), events, Run(c, EmptyRing(identity), events).1, fp, nick);
    }
  }

  lemma RingsOfPrefix(c: Suite, identity: Bytes, events: seq<Event>, n: nat)
    requires n <= |events|
    ensures Rings(c, identity, events)[..n] == Rings(c, identity, events[..n])
  {
    assert forall i | 0 <= i < n :: events[..n][..i] == events[..i];
  }

  lemma LastStepRecords(c: Suite, identity: Bytes, events: seq<Event>, fp: Bytes, nick: string)
    requires events != []
    ensures var n := |events| - 1;
            var (r, effects) := Run(c, EmptyRing(identity), events);
            && effects[..n] == Run(c, EmptyRing(identity), events[..n]).1
            && Rings(c, identity, events)[..n] == Rings(c, identity, events[..n])
            && Rings(c, identity, events)[n] == Run(c, EmptyRing(identity), events[..n]).0
            && RecordedAfter(c, Run(c, EmptyRing(identity), events[..n]).0, events[n], r, effects[n], fp, nick)
  {
    var n := |events| - 1;
    RingsOfPrefix(c, identity, events, n);
    StepNick(c, Run(c, EmptyRing(identity), events[..n]).0, events[n], fp, nick);
  }

  /** Every KEYREQ of the key that was admitted was answered at once. */
  predicate AnsweredAtOnce(c: Suite, rings: seq<Ring>, events: seq<Event>, effects: seq<Effects>, fp: Bytes)
    requires |events| == |effects| == |rings|
  {
    forall i | 0 <= i < |events| :: Admits(c, rings[i], events[i], fp) ==> effects[i].rsp.Some?
  }

  /** So a peer whose admitted KEYREQs were all answered is sent its REKEYs under the ident of its handle, and
      gets them exactly when that is its nick. */
  lemma AnsweredPeersGoByIdent(c: Suite, identity: Bytes, events: seq<Event>, k: (Channel, Handle), nick: string)
    requires k in Run(c, EmptyRing(identity), events).0.recipients
    requires var (r, effects) := Run(c, EmptyRing(identity), events);
             AnsweredAtOnce(c, Rings(c, identity, events), events, effects, r.recipients[k].fp)
    ensures WellAddressed(Run(c, EmptyRing(identity), events).0, k, nick) <==> Ident(k.1) == nick
  {
    var r := Run(c, EmptyRing(identity), events).0;
    RunKeepsPins(c, EmptyRing(identity), events);
    assert PinnedTo(r.peers, r.recipients[k].fp, k.1);
    var row := r.peers[r.recipients[k].fp];
    NickOnRecord(c, identity, events, r.recipients[k].fp, if row.lastNick.Some? then row.lastNick.value else "");
  }

  // ---------------------------------------------------------------- two runs that miss a recipient

  /** A first KEYREQ on an auto-accepting channel is answered at once: the row it pins has no nick, and the
      requester is a recipient of the channel. */
  lemma FirstContactAnswered(c: Suite, r: Ring, sender: Handle, nick: string, m: KeyReq, now: real, w: WrapDraw,
                             newKey: Bytes, q: ReqDraw)
    requires sender !in r.buckets && c.verify(m.pub, ReqPayload(m), m.sig)
    requires m.channel in r.channels && r.channels[m.channel] == Settings(true, AutoAccept)
    requires Classify(r.peers, c.fingerprint(m.pub), sender).New? && c.dh(w.eph, m.eph).Some?
    ensures var (r1, effects) := HandleKeyreq(c, r, sender, nick, Some(m), now, w, newKey, q);
            && effects.rsp.Some? && r1.channels == r.channels
            && r1.incoming == r.incoming && r1.inbound == r.inbound && r1.buckets.Keys == r.buckets.Keys + {sender}
            && r1.outgoing == ChannelKey(r.outgoing, m.channel, now, newKey).0
            && r1.recipients == r.recipients[(m.channel, sender) := Recipient(c.fingerprint(m.pub), Seconds(now))]
            && r1.peers == r.peers[c.fingerprint(m.pub) :=
                                     Peer(m.pub, sender, None, Seconds(now), Seconds(now), Trusted)]
  {
    var (bucket, decision) := Limiter.Decide(Limiter.FRESH_BUCKET, now);
    assert Limiter.Live([], now) == [] && decision.Accepted?;
    var r1 := r.(buckets := r.buckets[sender := bucket]);
    var r2 := PinPeer(c, r1, sender, nick, m, Seconds(now));
    var (r3, rsp) := BuildKeyrsp(c, r2, m.channel, sender, m.pub, m.eph, now, w, newKey);
    assert EffectiveMode(c, r2, sender, m.channel).AutoAccept?;
    assert TreatKeyreq(c, r2, sender, m, now, w, newKey, q) == AnswerKeyreq(c, r2, sender, m, now, w, newKey, q);
    assert r3.peers == r.peers[c.fingerprint(m.pub) :=
                                 Peer(m.pub, sender, None, Seconds(now), Seconds(now), Trusted)];
  }

  /** The KEYREQ that a client with this identity sends for the channel. */
  function FirstAsk(c: Suite, identity: Bytes, channel: Channel, d: ReqDraw): KeyReq {
    BuildKeyreq(c, EmptyRing(identity), channel, "", 1.0, d).1.value
  }

  /** What it prints is what the receiver parses, and its signature is good. */
  lemma AskIsReceived(c: Suite, identity: Bytes, channel: Channel, d: ReqDraw)
    requires c.Lawful() && |d.nonce| == REQ_NONCE_LEN && Text.NoSpace(channel)
    ensures var m := FirstAsk(c, identity, channel, d);
            && Handshake.ParseKeyreq(Handshake.PrintKeyreq(m)) == Some(m)
            && m.channel == channel && m.pub == c.edPub(identity) && m.eph == c.xPub(d.eph)
            && c.verify(m.pub, ReqPayload(m), m.sig)
  {
    var m := FirstAsk(c, identity, channel, d);
    assert c.Signed(identity, ReqPayload(m));
    Handshake.KeyreqRoundTrip(m);
  }

  /** Two peers and what is drawn at random in the runs below. */
  datatype Cast = Cast(c: Suite, channel: Channel, me: Bytes, alice: Handle, aliceNick: string, aliceId: Bytes,
                       aliceDraw: ReqDraw, bob: Handle, bobNick: string, bobId: Bytes, bobDraw: ReqDraw, w: WrapDraw,
                       q: ReqDraw, first: Bytes, second: Bytes, draws: Handle -> WrapDraw)
  {
    function AliceAsk(): KeyReq {
      FirstAsk(c, aliceId, channel, aliceDraw)
    }

    function BobAsk(): KeyReq {
      FirstAsk(c, bobId, channel, bobDraw)
    }

    /** The channel answers by itself, alice asks and is answered, and the user asks for a rotation. */
    function RotationDue(): seq<Event> {
      [DoMode(channel, AutoAccept), AliceAsks(), DoRotate(channel)]
    }

    function AliceAsks(): Event {
      RecvKeyreq(alice, aliceNick, Some(AliceAsk()), 1.0, w, first, q)
    }

    function BobAsks(): Event {
      RecvKeyreq(bob, bobNick, Some(BobAsk()), 1.0, w, second, q)
    }

    function Saying(): Event {
      Say(channel, 2.0, second, draws)
    }

    ghost predicate Valid() {
      && c.Lawful() && Text.NoSpace(channel) && alice != bob
      && c.fingerprint(c.edPub(aliceId)) != c.fingerprint(c.edPub(bobId))
      && |aliceDraw.nonce| == |bobDraw.nonce| == REQ_NONCE_LEN && |first| == |second| == KEY_LEN && first != second
    }
  }

  lemma RunOfThree(c: Suite, r: Ring, a: Event, b: Event, d: Event)
    ensures Run(c, r, [a, b, d]).0 == Step(c, Step(c, Step(c, r, a).0, b).0, d).0
  {
    assert [a, b, d][..2] == [a, b] && [a, b][..1] == [a] && [a][..0] == [];
    assert Run(c, r, []).0 == r;
    assert Run(c, r, [a]).0 == Step(c, r, a).0;
    assert Run(c, r, [a, b]).0 == Step(c, Run(c, r, [a]).0, b).0;
  }

  /** The tables that matter in what the run leaves. */
  predicate Prepared(k: Cast, r: Ring) {
    var pub := k.c.edPub(k.aliceId);
    && r.channels == map[k.channel := Settings(true, AutoAccept)]
    && r.peers == map[k.c.fingerprint(pub) := Peer(pub, k.alice, None, 1, 1, Trusted)]
    && r.recipients == map[(k.channel, k.alice) := Recipient(k.c.fingerprint(pub), 1)]
    && r.outgoing == map[k.channel := Outgoing(k.first, 1, true)]
    && r.incoming == map[] && r.inbound == map[] && r.buckets.Keys == {k.alice}
  }

  lemma StepIsContact(c: Suite, r: Ring, sender: Handle, nick: string, m: KeyReq, w: WrapDraw, newKey: Bytes,
                      q: ReqDraw)
    ensures Step(c, r, RecvKeyreq(sender, nick, Some(m), 1.0, w, newKey, q))
         == HandleKeyreq(c, r, sender, nick, Some(m), 1.0, w, newKey, q)
  {
  }

  lemma RotatedIsPrepared(k: Cast, r: Ring)
    requires Prepared(k, r.(outgoing := map[k.channel := Outgoing(k.first, 1, true)]))
    requires r.outgoing == map[k.channel := Outgoing(k.first, 1, false)]
    ensures Prepared(k, Rotate(r, k.channel))
  {
    assert Rotate(r, k.channel).outgoing == map[k.channel := Outgoing(k.first, 1, true)];
  }

  lemma FirstContactTables(k: Cast, r: Ring)
    requires k.Valid() && r == EmptyRing(k.me).(channels := map[k.channel := Settings(true, AutoAccept)])
    ensures var r1 := HandleKeyreq(k.c, r, k.alice, k.aliceNick, Some(k.AliceAsk()), 1.0, k.w, k.first, k.q).0;
            && r1.outgoing == map[k.channel := Outgoing(k.first, 1, false)]
            && Prepared(k, r1.(outgoing := map[k.channel := Outgoing(k.first, 1, true)]))
  {
    AskIsReceived(k.c, k.aliceId, k.channel, k.aliceDraw);
    assert k.c.Exchange(k.w.eph, k.aliceDraw.eph);
    FirstContactAnswered(k.c, r, k.alice, k.aliceNick, k.AliceAsk(), 1.0, k.w, k.first, k.q);
  }

  lemma FirstContactPrepares(k: Cast, r: Ring)
    requires k.Valid() && r == EmptyRing(k.me).(channels := map[k.channel := Settings(true, AutoAccept)])
    ensures Prepared(k, Rotate(Step(k.c, r, k.AliceAsks()).0, k.channel))
  {
    StepIsContact(k.c, r, k.alice, k.aliceNick, k.AliceAsk(), k.w, k.first, k.q);
    FirstContactTables(k, r);
    RotatedIsPrepared(k, Step(k.c, r, k.AliceAsks()).0);
  }

  lemma RotationDuePrepares(k: Cast)
    requires k.Valid()
    ensures Prepared(k, Run(k.c, EmptyRing(k.me), k.RotationDue()).0)
    ensures Pinned(k.c, Run(k.c, EmptyRing(k.me), k.RotationDue()).0)
  {
    var events := k.RotationDue();
    RunKeepsPins(k.c, EmptyRing(k.me), events);
    RunOfThree(k.c, EmptyRing(k.me), events[0], events[1], events[2]);
    ThreeSteps(k, Step(k.c, EmptyRing(k.me), events[0]).0);
  }

  lemma ThreeSteps(k: Cast, r: Ring)
    requires k.Valid() && r == Step(k.c, EmptyRing(k.me), DoMode(k.channel, AutoAccept)).0
    ensures Prepared(k, Step(k.c, Step(k.c, r, k.AliceAsks()).0, DoRotate(k.channel)).0)
  {
    FirstContactPrepares(k, r);
    StepIsRotate(k.c, Step(k.c, r, k.AliceAsks()).0, k.channel);
  }

  lemma StepIsRotate(c: Suite, r: Ring, channel: Channel)
    ensures Step(c, r, DoRotate(channel)).0 == Rotate(r, channel)
  {
  }

  lemma SayingSends(k: Cast, r: Ring)
    requires Prepared(k, r) && k.first != k.second
    ensures var (r1, effects) := Step(k.c, r, k.Saying());
            && Replaces(k.c, r, k.Saying(), k.channel) && r1.outgoing[k.channel].sk == k.second
            && Rekeyed(effects, k.channel, k.alice) && effects.rekeys[k.alice].nick == Ident(k.alice)
            && effects.rekeys[k.alice].grant.key == k.second && effects.rsp.None?
  {
    var r1 := OutgoingKey(r, k.channel, 2.0, k.second).0;
    assert (k.channel, k.alice) in r1.recipients && k.alice in Reachable(r1, k.channel);
  }

  /** Our next message replaces the key and sends the REKEY for alice, whose request was answered, to the ident
      of her handle; so she gets it only if that is her nick. */
  lemma SayingMissesAlice(k: Cast)
    requires k.Valid()
    ensures var r := Run(k.c, EmptyRing(k.me), k.RotationDue()).0;
            var (r1, effects) := Step(k.c, r, k.Saying());
            && Replaces(k.c, r, k.Saying(), k.channel) && r1.outgoing[k.channel].sk == k.second
            && Rekeyed(effects, k.channel, k.alice)
            && forall nick :: Reached(effects, k.channel, k.alice, k.second, nick) <==> nick == Ident(k.alice)
  {
    RotationDuePrepares(k);
    SayingSends(k, Run(k.c, EmptyRing(k.me), k.RotationDue()).0);
  }

  lemma BobIsNew(k: Cast, r: Ring)
    requires k.Valid() && Prepared(k, r)
    ensures Classify(r.peers, k.c.fingerprint(k.c.edPub(k.bobId)), k.bob).New? && k.bob !in r.buckets
  {
  }

  /** What handing out the due key does to the tables. */
  lemma GrantReplaces(k: Cast, r: Ring, row: Recipient)
    requires Prepared(k, r)
    ensures ChannelKey(r.outgoing, k.channel, 1.0, k.second).0 == map[k.channel := Outgoing(k.second, 1, false)]
    ensures (k.channel, k.alice) in r.recipients[(k.channel, k.bob) := row]
  {
  }

  lemma BobsAskReplaces(k: Cast, r: Ring)
    requires k.Valid() && Prepared(k, r)
    ensures var (r1, effects) := HandleKeyreq(k.c, r, k.bob, k.bobNick, Some(k.BobAsk()), 1.0, k.w, k.second, k.q);
            && r1.outgoing == map[k.channel := Outgoing(k.second, 1, false)]
            && (k.channel, k.alice) in r1.recipients
            && OnlyAnswers(effects, k.channel, k.bob)
  {
    AskIsReceived(k.c, k.bobId, k.channel, k.bobDraw);
    assert k.c.Exchange(k.w.eph, k.bobDraw.eph);
    BobIsNew(k, r);
    GrantReplaces(k, r, Recipient(k.c.fingerprint(k.c.edPub(k.bobId)), 1));
    FirstContactAnswered(k.c, r, k.bob, k.bobNick, k.BobAsk(), 1.0, k.w, k.second, k.q);
  }

  lemma BobsAnswerMisses(k: Cast, r: Ring)
    requires k.Valid() && Prepared(k, r)
    ensures var (r1, effects) := Step(k.c, r, k.BobAsks());
            && Replaces(k.c, r, k.BobAsks(), k.channel) && r1.outgoing[k.channel].sk == k.second
            && (k.channel, k.alice) in r1.recipients
            && forall nick :: !Reached(effects, k.channel, k.alice, k.second, nick)
  {
    StepIsContact(k.c, r, k.bob, k.bobNick, k.BobAsk(), k.w, k.second, k.q);
    BobsAskReplaces(k, r);
  }

  /** And if another peer asks first, the answer replaces the key and alice is sent nothing, under whatever
      nick. */
  lemma AnswerMissesAlice(k: Cast)
    requires k.Valid()
    ensures var r := Run(k.c, EmptyRing(k.me), k.RotationDue()).0;
            var (r1, effects) := Step(k.c, r, k.BobAsks());
            && Replaces(k.c, r, k.BobAsks(), k.channel) && r1.outgoing[k.channel].sk == k.second
            && (k.channel, k.alice) in r1.recipients
            && forall nick :: !Reached(effects, k.channel, k.alice, k.second, nick)
  {
    RotationDuePrepares(k);
    BobsAnswerMisses(k, Run(k.c, EmptyRing(k.me), k.RotationDue()).0);
  }

  /** Such peers, with a nick that is not the ident of the handle. */
  function Example(): Cast {
    var (draw, wrap) := (ReqDraw(Zeros(32), Zeros(16)), WrapDraw(Zeros(32), Zeros(24), Zeros(16)));
    Cast(ToySuite(), "#c", Zeros(32), "a@h", "alice", Zeros(32), draw, "b@h", "bob", Ones(32), draw, wrap, draw,
         Zeros(32), Ones(32), h => wrap)
  }

  lemma SuchPeersExist()
    ensures Example().Valid() && Example().aliceNick != Ident(Example().alice)
  {
    LawsCanHold();
    assert Zeros(32)[0] != Ones(32)[0];
    assert "a@h"[0] == 'a' && "a@h"[1] == '@' && "a@h"[1..][0] == '@';
    assert Ident("a@h") == "a";
  }
}
