/** How often KEYREQs go out by themselves. */
module Spacing {
  import opened Basics
  import opened CryptoSuite
  import opened Payloads
  import opened Keyring
  import Limiter

  /** The event sends this handle a KEYREQ that no user asked for: to make up for a line that cannot be read,
      or in return for the handle's own. */
  predicate AsksByItself(e: Event, effects: Effects, handle: Handle) {
    (e.RecvLine? || e.RecvKeyreq?) && e.sender == handle && effects.req.Some?
  }

  /** The time of the last attempt is there and not before this one. */
  predicate AskedSince(r: Ring, handle: Handle, time: real) {
    handle in r.lastSent && r.lastSent[handle] >= time
  }

  lemma TreatSpaced(c: Suite, r: Ring, sender: Handle, m: KeyReq, now: real, w: WrapDraw, newKey: Bytes, q: ReqDraw)
    requires m.channel in r.channels
    ensures var (r1, effects) := TreatKeyreq(c, r, sender, m, now, w, newKey, q);
            Spaced(r.lastSent, r1.lastSent, sender, now, effects.req.Some?)
  {
  }

  lemma AdmitSpaced(c: Suite, r: Ring, sender: Handle, nick: string, m: KeyReq, now: real, w: WrapDraw,
                    newKey: Bytes, q: ReqDraw)
    requires m.channel in r.channels
    ensures var (r1, effects) := AdmitKeyreq(c, r, sender, nick, m, now, w, newKey, q);
            Spaced(r.lastSent, r1.lastSent, sender, now, effects.req.Some?)
  {
    TreatSpaced(c, PinPeer(c, r, sender, nick, m, Seconds(now)), sender, m, now, w, newKey, q);
  }

  lemma KeyreqSpaced(c: Suite, r: Ring, sender: Handle, nick: string, m: KeyReq, now: real, w: WrapDraw,
                     newKey: Bytes, q: ReqDraw)
    ensures var (r1, effects) := HandleKeyreq(c, r, sender, nick, Some(m), now, w, newKey, q);
            Spaced(r.lastSent, r1.lastSent, sender, now, effects.req.Some?)
  {
    var r1 := r.(buckets := r.buckets[sender := Limiter.Decide(BucketOf(r, sender), now).0]);
    if IsEnabled(r1, m.channel) {
      AdmitSpaced(c, r1, sender, nick, m, now, w, newKey, q);
    }
  }

  lemma RemoteSpacing(c: Suite, r: Ring, e: Event, handle: Handle, time: real)
    requires Remote(e)
    ensures var (r1, effects) := RemoteStep(c, r, e);
            && (AskedSince(r, handle, time) ==> AskedSince(r1, handle, time))
            && (AsksByItself(e, effects, handle) ==>
                  AskedSince(r1, handle, e.now)
                  && (AskedSince(r, handle, time) ==> e.now - time >= KEYREQ_MIN_INTERVAL))
  {
    match e
    case RecvKeyreq(sender, nick, req, now, w, newKey, q) =>
      if req.Some? {
        KeyreqSpaced(c, r, sender, nick, req.value, now, w, newKey, q);
      }
    case RecvKeyrsp(sender, rsp, now) =>
    case RecvRekey(sender, rekey, now) =>
    case RecvLine(sender, channel, now, q) =>
      var (r1, effects) := AutoKeyreq(c, r, sender, channel, now, q);
      assert Spaced(r.lastSent, r1.lastSent, sender, now, effects.req.Some?);
  }

  lemma QuietSpacing(r: Ring, e: Event)
    requires !e.Restart?
    ensures QuietCommand(r, e).lastSent == r.lastSent
  {
  }

  lemma LocalSpacing(c: Suite, r: Ring, e: Event)
    requires !Remote(e) && !e.Restart?
    ensures LocalStep(c, r, e).0.lastSent == r.lastSent
  {
    if !e.Say? && !e.DoAccept? && !e.DoHandshake? {
      QuietSpacing(r, e);
    }
  }

  lemma StepSpacing(c: Suite, r: Ring, e: Event, handle: Handle, time: real)
    requires !e.Restart?
    ensures var (r1, effects) := Step(c, r, e);
            && (AskedSince(r, handle, time) ==> AskedSince(r1, handle, time))
            && (AsksByItself(e, effects, handle) ==>
                  AskedSince(r1, handle, e.now)
                  && (AskedSince(r, handle, time) ==> e.now - time >= KEYREQ_MIN_INTERVAL))
  {
    if Remote(e) {
      RemoteSpacing(c, r, e, handle, time);
    } else {
      LocalSpacing(c, r, e);
    }
  }

  lemma LastStepRemembers(c: Suite, r: Ring, events: seq<Event>, handle: Handle, time: real)
    requires events != [] && !events[|events| - 1].Restart?
    requires AskedSince(Run(c, r, events[..|events| - 1]).0, handle, time)
    ensures AskedSince(Run(c, r, events).0, handle, time)
    ensures var n := |events| - 1;
            AsksByItself(events[n], Run(c, r, events).1[n], handle) ==> events[n].now - time >= KEYREQ_MIN_INTERVAL
  {
    var n := |events| - 1;
    StepSpacing(c, Run(c, r, events[..n]).0, events[n], handle, time);
  }

  lemma LastStepAsks(c: Suite, r: Ring, events: seq<Event>, handle: Handle)
    requires events != [] && AsksByItself(events[|events| - 1], Run(c, r, events).1[|events| - 1], handle)
    ensures AskedSince(Run(c, r, events).0, handle, events[|events| - 1].now)
  {
    var n := |events| - 1;
    StepSpacing(c, Run(c, r, events[..n]).0, events[n], handle, 0.0);
  }

  /** Once event `i` has asked, the time stays on record until a restart. */
  lemma {:induction false} AskedIsRemembered(c: Suite, r: Ring, events: seq<Event>, i: nat, handle: Handle)
    requires i < |events| && AsksByItself(events[i], Run(c, r, events).1[i], handle)
    requires forall k | i <= k < |events| :: !events[k].Restart?
    ensures AskedSince(Run(c, r, events).0, handle, events[i].now)
  {
    var n := |events| - 1;
    if i == n {
      LastStepAsks(c, r, events, handle);
    } else {
      EffectsOfPrefix(c, r, events, n);
      AskedIsRemembered(c, r, events[..n], i, handle);
      LastStepRemembers(c, r, events, handle, events[i].now);
    }
  }

  /** What an event showed does not depend on what came later. */
  lemma {:induction false} EffectsOfPrefix(c: Suite, r: Ring, events: seq<Event>, n: nat)
    requires n <= |events|
    ensures Run(c, r, events[..n]).1 == Run(c, r, events).1[..n]
  {
    if n == |events| {
      assert events[..n] == events;
    } else {
      var last := |events| - 1;
      EffectsOfPrefix(c, r, events[..last], n);
      assert events[..last][..n] == events[..n];
      assert Run(c, r, events).1[..n] == Run(c, r, events[..last]).1[..n];
    }
  }

  /** Between restarts two KEYREQs that go to the same handle by themselves are at least 30 seconds apart. */
  lemma AskedEveryThirtySeconds(c: Suite, r: Ring, events: seq<Event>, i: nat, j: nat, handle: Handle)
    requires i < j < |events| && forall k | i <= k <= j :: !events[k].Restart?
    requires AsksByItself(events[i], Run(c, r, events).1[i], handle)
    requires AsksByItself(events[j], Run(c, r, events).1[j], handle)
    ensures events[j].now - events[i].now >= KEYREQ_MIN_INTERVAL
  {
    var upTo := events[..j + 1];
    EffectsOfPrefix(c, r, events, j + 1);
    EffectsOfPrefix(c, r, upTo, j);
    assert Run(c, r, events).1[..j + 1][i] == Run(c, r, events).1[i];
    assert Run(c, r, events).1[..j + 1][j] == Run(c, r, events).1[j];
    AskedIsRemembered(c, r, upTo[..j], i, handle);
    LastStepRemembers(c, r, upTo, handle, events[i].now);
  }
}
