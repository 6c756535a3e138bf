/** What the user's commands set, over whole runs: the mode a channel is in and the autotrust rules in force are
    those of the last command about them, whatever messages came in between. */
module Commands {
  import opened Basics
  import opened CryptoSuite
  import opened Payloads
  import opened Keyring
  import Answering

  // ---------------------------------------------------------------- messages change no settings

  predicate SameSettings(r: Ring, r1: Ring) {
    r1.channels == r.channels && r1.autotrust == r.autotrust
  }

  lemma TreatKeepsSettings(c: Suite, r: Ring, sender: Handle, m: KeyReq, now: real, w: WrapDraw, newKey: Bytes,
                           q: ReqDraw)
    requires m.channel in r.channels
    ensures SameSettings(r, TreatKeyreq(c, r, sender, m, now, w, newKey, q).0)
  {
  }

  lemma AdmissibleKeepsSettings(c: Suite, r: Ring, sender: Handle, nick: string, m: KeyReq, now: real, w: WrapDraw,
                                newKey: Bytes, q: ReqDraw)
    requires Answering.Admissible(c, r, sender, m, now)
    ensures SameSettings(r, HandleKeyreq(c, r, sender, nick, Some(m), now, w, newKey, q).0)
  {
    var r0 := Answering.Noted(c, r, sender, nick, m, now);
    assert SameSettings(r, r0) && m.channel in r0.channels;
    TreatKeepsSettings(c, r0, sender, m, now, w, newKey, q);
    Answering.AdmissibleIsTreated(c, r, sender, nick, m, now, w, newKey, q);
  }

  lemma KeyreqKeepsSettings(c: Suite, r: Ring, sender: Handle, nick: string, m: KeyReq, now: real, w: WrapDraw,
                            newKey: Bytes, q: ReqDraw)
    ensures SameSettings(r, HandleKeyreq(c, r, sender, nick, Some(m), now, w, newKey, q).0)
  {
    if Answering.Admissible(c, r, sender, m, now) {
      AdmissibleKeepsSettings(c, r, sender, nick, m, now, w, newKey, q);
    } else {
      Answering.InadmissibleIsDropped(c, r, sender, nick, m, now, w, newKey, q);
    }
  }

  lemma RemoteKeepsSettings(c: Suite, r: Ring, e: Event)
    requires Remote(e)
    ensures SameSettings(r, RemoteStep(c, r, e).0)
  {
    match e
    case RecvKeyreq(sender, nick, req, now, w, newKey, q) =>
      if req.Some? {
        KeyreqKeepsSettings(c, r, sender, nick, req.value, now, w, newKey, q);
      }
    case RecvKeyrsp(sender, rsp, now) =>
    case RecvRekey(sender, rekey, now) =>
    case RecvLine(sender, channel, now, q) =>
  }

  predicate Sends(e: Event) {
    e.Say? || e.DoAccept? || e.DoHandshake?
  }

  lemma SendingKeepsSettings(c: Suite, r: Ring, e: Event)
    requires Sends(e)
    ensures SameSettings(r, LocalStep(c, r, e).0)
  {
  }

  // ---------------------------------------------------------------- the mode of a channel

  /** `/e2e on`, `/e2e mode` or `/e2e off` for the channel. */
  predicate Switches(e: Event, channel: Channel) {
    (e.DoOn? || e.DoMode? || e.DoOff?) && e.channel == channel
  }

  /** The command puts the channel into this mode; `/e2e on` stands for normal mode. */
  ghost predicate SwitchesTo(e: Event, channel: Channel, mode: Mode) {
    e == DoMode(channel, mode) || (e == DoOn(channel) && mode == Normal)
  }

  predicate InMode(r: Ring, channel: Channel, mode: Mode) {
    channel in r.channels && r.channels[channel].enabled && r.channels[channel].mode == mode
  }

  lemma OtherCommandsKeepModes(r: Ring, e: Event)
    requires !e.DoOn? && !e.DoMode? && !e.DoOff?
    ensures QuietCommand(r, e).channels == r.channels
  {
  }

  lemma SwitchedModes(r: Ring, channel: Channel, mode: Mode)
    ensures QuietCommand(r, DoOn(channel)).channels == r.channels[channel := Settings(true, Normal)]
    ensures QuietCommand(r, DoMode(channel, mode)).channels == r.channels[channel := Settings(true, mode)]
    ensures QuietCommand(r, DoOff(channel)).channels
         == if channel in r.channels then r.channels[channel := r.channels[channel].(enabled := false)] else r.channels
  {
  }

  lemma QuietMode(r: Ring, e: Event, channel: Channel, mode: Mode)
    ensures InMode(QuietCommand(r, e), channel, mode)
            <==> if Switches(e, channel) then SwitchesTo(e, channel, mode) else InMode(r, channel, mode)
  {
    if e.DoOn? || e.DoMode? || e.DoOff? {
      SwitchedModes(r, e.channel, if e.DoMode? then e.mode else mode);
    } else {
      OtherCommandsKeepModes(r, e);
    }
  }

  lemma StepMode(c: Suite, r: Ring, e: Event, channel: Channel, mode: Mode)
    ensures InMode(Step(c, r, e).0, channel, mode)
            <==> if Switches(e, channel) then SwitchesTo(e, channel, mode) else InMode(r, channel, mode)
  {
    if Remote(e) {
      RemoteKeepsSettings(c, r, e);
    } else if Sends(e) {
      SendingKeepsSettings(c, r, e);
    } else {
      QuietMode(r, e, channel, mode);
    }
  }

  /** Event `i` puts the channel into this mode, and no later one switches it. */
  ghost predicate SetAt(events: seq<Event>, i: nat, channel: Channel, mode: Mode) {
    && i < |events| && SwitchesTo(events[i], channel, mode)
    && forall e <- events[i + 1..] :: !Switches(e, channel)
  }

  ghost predicate LastSetTo(events: seq<Event>, channel: Channel, mode: Mode) {
    exists i: nat :: SetAt(events, i, channel, mode)
  }

  lemma SetBefore(events: seq<Event>, last: Event, i: nat, channel: Channel, mode: Mode)
    requires i < |events|
    ensures SetAt(events + [last], i, channel, mode) <==> SetAt(events, i, channel, mode) && !Switches(last, channel)
  {
    assert (events + [last])[i + 1..] == events[i + 1..] + [last];
  }

  lemma SetNow(events: seq<Event>, last: Event, channel: Channel, mode: Mode)
    ensures SetAt(events + [last], |events|, channel, mode) <==> SwitchesTo(last, channel, mode)
  {
    assert (events + [last])[|events| + 1..] == [];
  }

  lemma LastSetStep(events: seq<Event>, last: Event, channel: Channel, mode: Mode)
    ensures LastSetTo(events + [last], channel, mode)
            <==> if Switches(last, channel) then SwitchesTo(last, channel, mode) else LastSetTo(events, channel, mode)
  {
    SetNow(events, last, channel, mode);
    if i: nat :| SetAt(events + [last], i, channel, mode) {
      if i < |events| {
        SetBefore(events, last, i, channel, mode);
      }
    }
    if i: nat :| SetAt(events, i, channel, mode) {
      SetBefore(events, last, i, channel, mode);
    }
  }

  lemma LastSetFrom(events: seq<Event>, channel: Channel, mode: Mode)
    requires events != []
    ensures var n := |events| - 1;
            LastSetTo(events, channel, mode)
            <==> if Switches(events[n], channel) then SwitchesTo(events[n], channel, mode)
                 else LastSetTo(events[..n], channel, mode)
  {
    var n := |events| - 1;
    assert events == events[..n] + [events[n]];
    LastSetStep(events[..n], events[n], channel, mode);
  }

  /** Over every run from an empty keyring: a channel is encrypted, and in this mode, exactly when the last of its
      switching commands says so. */
  lemma {:induction false} ModeIsLastSet(c: Suite, identity: Bytes, events: seq<Event>, channel: Channel, mode: Mode)
    ensures InMode(Run(c, EmptyRing(identity), events).0, channel, mode) <==> LastSetTo(events, channel, mode)
  {
    if events != [] {
      var n := |events| - 1;
      ModeIsLastSet(c, identity, events[..n], channel, mode);
      LastStepMode(c, identity, events, channel, mode);
      LastSetFrom(events, channel, mode);
    }
  }

  lemma LastStepMode(c: Suite, identity: Bytes, events: seq<Event>, channel: Channel, mode: Mode)
    requires events != []
    ensures var n := |events| - 1;
            InMode(Run(c, EmptyRing(identity), events).0, channel, mode)
            <==> if Switches(events[n], channel) then SwitchesTo(events[n], channel, mode)
                 else InMode(Run(c, EmptyRing(identity), events[..n]).0, channel, mode)
  {
    var n := |events| - 1;
    StepMode(c, Run(c, EmptyRing(identity), events[..n]).0, events[n], channel, mode);
  }

  // ---------------------------------------------------------------- the autotrust rules

  lemma OtherCommandsKeepRules(r: Ring, e: Event)
    requires !e.DoAutotrust? && !e.DoUntrust?
    ensures QuietCommand(r, e).autotrust == r.autotrust
  {
  }

  lemma QuietRule(r: Ring, e: Event, scope: string, pattern: string)
    ensures (scope, pattern) in QuietCommand(r, e).autotrust
            <==> e == DoAutotrust(scope, pattern) || ((scope, pattern) in r.autotrust && e != DoUntrust(pattern))
  {
    if e.DoAutotrust? {
      assert QuietCommand(r, e).autotrust == r.autotrust + {(e.scope, e.pattern)};
    } else if e.DoUntrust? {
      assert QuietCommand(r, e).autotrust == set rule <- r.autotrust | rule.1 != e.pattern;
    } else {
      OtherCommandsKeepRules(r, e);
    }
  }

  lemma StepRule(c: Suite, r: Ring, e: Event, scope: string, pattern: string)
    ensures (scope, pattern) in Step(c, r, e).0.autotrust
            <==> e == DoAutotrust(scope, pattern) || ((scope, pattern) in r.autotrust && e != DoUntrust(pattern))
  {
    if Remote(e) {
      RemoteKeepsSettings(c, r, e);
    } else if Sends(e) {
      SendingKeepsSettings(c, r, e);
    } else {
      QuietRule(r, e, scope, pattern);
    }
  }

  /** Event `i` gives the rule, and no later one takes its pattern back. */
  ghost predicate GivenAt(events: seq<Event>, i: nat, scope: string, pattern: string) {
    i < |events| && events[i] == DoAutotrust(scope, pattern) && DoUntrust(pattern) !in events[i + 1..]
  }

  ghost predicate RuleGiven(events: seq<Event>, scope: string, pattern: string) {
    exists i: nat :: GivenAt(events, i, scope, pattern)
  }

  lemma GivenBefore(events: seq<Event>, last: Event, i: nat, scope: string, pattern: string)
    requires i < |events|
    ensures GivenAt(events + [last], i, scope, pattern)
            <==> GivenAt(events, i, scope, pattern) && last != DoUntrust(pattern)
  {
    assert (events + [last])[i + 1..] == events[i + 1..] + [last];
  }

  lemma RuleGivenStep(events: seq<Event>, last: Event, scope: string, pattern: string)
    ensures RuleGiven(events + [last], scope, pattern)
            <==> last == DoAutotrust(scope, pattern)
                 || (RuleGiven(events, scope, pattern) && last != DoUntrust(pattern))
  {
    assert (events + [last])[|events| + 1..] == [];
    assert GivenAt(events + [last], |events|, scope, pattern) <==> last == DoAutotrust(scope, pattern);
    if i: nat :| GivenAt(events + [last], i, scope, pattern) {
      if i < |events| {
        GivenBefore(events, last, i, scope, pattern);
      }
    }
    if i: nat :| GivenAt(events, i, scope, pattern) {
      GivenBefore(events, last, i, scope, pattern);
    }
  }

  lemma RuleGivenFrom(events: seq<Event>, scope: string, pattern: string)
    requires events != []
    ensures var n := |events| - 1;
            RuleGiven(events, scope, pattern)
            <==> events[n] == DoAutotrust(scope, pattern)
                 || (RuleGiven(events[..n], scope, pattern) && events[n] != DoUntrust(pattern))
  {
    var n := |events| - 1;
    assert events == events[..n] + [events[n]];
    RuleGivenStep(events[..n], events[n], scope, pattern);
  }

  /** And a rule is in force exactly when it was given and its pattern not taken back since, in whatever scope. */
  lemma {:induction false} RulesAreThoseGiven(c: Suite, identity: Bytes, events: seq<Event>, scope: string,
                                              pattern: string)
    ensures (scope, pattern) in Run(c, EmptyRing(identity), events).0.autotrust <==> RuleGiven(events, scope, pattern)
  {
    if events != [] {
      var n := |events| - 1;
      RulesAreThoseGiven(c, identity, events[..n], scope, pattern);
      LastStepRule(c, identity, events, scope, pattern);
      RuleGivenFrom(events, scope, pattern);
    }
  }

  lemma LastStepRule(c: Suite, identity: Bytes, events: seq<Event>, scope: string, pattern: string)
    requires events != []
    ensures var (e, rule) := (events[|events| - 1], (scope, pattern));
            rule in Run(c, EmptyRing(identity), events).0.autotrust
            <==> e == DoAutotrust(scope, pattern)
                 || (rule in Run(c, EmptyRing(identity), events[..|events| - 1]).0.autotrust && e != DoUntrust(pattern))
  {
    var n := |events| - 1;
    StepRule(c, Run(c, EmptyRing(identity), events[..n]).0, events[n], scope, pattern);
  }
}
