/** What an end-of-WHO reply settles: by its text, up to the case of ASCII letters, a list name by name; and that
    the replies to a batch, however they come, set the next one on its way. */
module WhoReplies {
  import opened Basics
  import opened Text
  import opened WhoQueue
  import Utf8

  // ---------------------------------------------------------------- names up to ASCII case

  /** The same character, or the two cases of one ASCII letter. */
  predicate CaseOf(a: char, b: char) {
    || a == b
    || ('A' <= a <= 'Z' && b as int == a as int + 32)
    || ('A' <= b <= 'Z' && a as int == b as int + 32)
  }

  predicate Alike(s: string, t: string) {
    |s| == |t| && forall i | 0 <= i < |s| :: CaseOf(s[i], t[i])
  }

  lemma AlikeIsSame(s: string, t: string)
    ensures Alike(s, t) <==> SameIgnoringCase(s, t)
  {
    if |s| == |t| {
      assert forall i | 0 <= i < |s| :: CaseOf(s[i], t[i]) <==> Lower(s[i]) == Lower(t[i]);
    }
  }

  lemma AlikeIsEquivalence(s: string, t: string, u: string)
    ensures Alike(s, s) && (Alike(s, t) <==> Alike(t, s))
    ensures Alike(s, t) ==> (Alike(s, u) <==> Alike(t, u))
  {
    AlikeIsSame(s, t);
    AlikeIsSame(s, u);
    AlikeIsSame(t, u);
  }

  /** The entries that are this name up to case. */
  function Class(entries: set<string>, x: string): set<string> {
    set e <- entries | Alike(e, x)
  }

  /** How often the name is among these up to case. */
  function Count(names: seq<string>, x: string): nat {
    if names == [] then 0
    else Count(names[..|names| - 1], x) + if Alike(names[|names| - 1], x) then 1 else 0
  }

  function Less(n: nat, m: nat): nat {
    if n < m then 0 else n - m
  }

  // ---------------------------------------------------------------- striking names off

  lemma Removed(before: set<string>, e: string, x: string)
    requires e in before
    ensures |Class(before - {e}, x)| == |Class(before, x)| - if Alike(e, x) then 1 else 0
  {
    if Alike(e, x) {
      assert Class(before - {e}, x) == Class(before, x) - {e};
    } else {
      assert Class(before - {e}, x) == Class(before, x);
    }
  }

  /** One name strikes off one entry that is it up to case, if there is any, and itself rather than another. */
  lemma OneStruck(before: set<string>, value: string, after: set<string>, x: string)
    requires RemovesOne(before, value, after)
    ensures after <= before && value !in after
    ensures |Class(after, x)| == Less(|Class(before, x)|, if Alike(value, x) then 1 else 0)
  {
    if value in before {
      Removed(before, value, x);
      assert Alike(value, x) ==> value in Class(before, x);
    } else if exists e <- before :: SameIgnoringCase(e, value) {
      var e :| e in before && SameIgnoringCase(e, value) && after == before - {e};
      AlikeIsSame(e, value);
      AlikeIsEquivalence(e, value, x);
      Removed(before, e, x);
      assert Alike(e, x) ==> e in Class(before, x);
    } else {
      NoneAlike(before, value, x);
    }
  }

  lemma NoneAlike(before: set<string>, value: string, x: string)
    requires !(exists e <- before :: SameIgnoringCase(e, value))
    ensures Alike(value, x) ==> Class(before, x) == {}
  {
    if e :| e in Class(before, x) && Alike(value, x) {
      AlikeIsEquivalence(value, x, e);
      AlikeIsEquivalence(x, e, e);
      AlikeIsSame(e, value);
      AlikeIsEquivalence(value, e, e);
    }
  }

  /** Several names strike off as many of each class as they name, and leave everything else. */
  ghost predicate Struck(before: set<string>, names: seq<string>, left: set<string>) {
    && left <= before
    && (forall name <- names :: name !in left)
    && forall x :: |Class(left, x)| == Less(|Class(before, x)|, Count(names, x))
  }

  lemma {:induction false} AllStruck(before: set<string>, names: seq<string>, left: set<string>)
    requires RemovesAll(before, names, left)
    ensures Struck(before, names, left)
    decreases |names|
  {
    if names != [] {
      var (init, last) := (names[..|names| - 1], names[|names| - 1]);
      assert RemovesThen(before, init, last, left);
      var mid :| RemovesAll(before, init, mid) && RemovesOne(mid, last, left);
      AllStruck(before, init, mid);
      OneMoreStruck(before, init, mid, last, left);
      assert names == init + [last];
    }
  }

  lemma OneMoreStruck(before: set<string>, init: seq<string>, mid: set<string>, last: string, left: set<string>)
    requires Struck(before, init, mid) && RemovesOne(mid, last, left)
    ensures Struck(before, init + [last], left)
  {
    var names := init + [last];
    assert names[..|names| - 1] == init;
    OneStruck(mid, last, left, last);
    forall x
      ensures |Class(left, x)| == Less(|Class(before, x)|, Count(names, x))
    {
      OneStruck(mid, last, left, x);
    }
  }

  // ---------------------------------------------------------------- one reply

  /** The names of a list, none of which holds a comma. */
  predicate Names(names: seq<string>) {
    names != [] && forall name <- names :: ',' !in name
  }

  lemma FirstComesOff(first: string, rest: string)
    requires ',' !in first
    ensures SplitCommas(first + "," + rest) == [first] + SplitCommas(rest) && ',' in first + "," + rest
    ensures SplitCommas(first) == [first]
  {
    var list := first + [','] + rest;
    SplitOnceAt(first, ',', rest);
    assert list[|first|] == ',' && first + "," + rest == list;
  }

  lemma {:induction false} ListComesApart(names: seq<string>)
    requires Names(names)
    ensures SplitCommas(Join(names, ",")) == names && (',' in Join(names, ",") <==> |names| > 1)
  {
    assert names[0] in names && names == [names[0]] + names[1..];
    if |names| == 1 {
      FirstComesOff(names[0], "");
    } else {
      FirstComesOff(names[0], Join(names[1..], ","));
      ListComesApart(names[1..]);
    }
  }

  /** What a reply for this list strikes off: the list as one name, and, if there are several, each of them. */
  function StruckBy(names: seq<string>): seq<string> {
    if |names| == 1 then names else [Join(names, ",")] + names
  }

  /** The next channels go out: as many as the command holds, five at most, and they are the batch in flight. */
  predicate SendsNext(v: Conn, now: real, v1: Conn, sent: Sent) {
    if v.queue == [] then v1 == v.(inFlight := None, sentAt := None) && sent == None
    else
      && sent.Some? && sent.value + v1.queue == v.queue
      && LargestBatch(sent.value, v1.queue, if v.whox then 490 else 505)
      && v1 == v.(queue := v1.queue, inFlight := Some(set ch | ch in sent.value), sentAt := Some(now))
  }

  predicate LargestBatch(batch: seq<string>, rest: seq<string>, bytes: nat) {
    && 1 <= |batch| <= 5 && (|batch| == 1 || Utf8.Size(Join(batch, ",")) <= bytes)
    && (rest == [] || |batch| == 5 || Utf8.Size(Join(batch + [rest[0]], ",")) > bytes)
  }

  lemma SendIsNext(v: Conn, now: real)
    requires v.ready
    ensures SendsNext(v, now, SendBatch(v, now).0, SendBatch(v, now).1)
  {
    if v.queue != [] {
      var k := BatchSize(v.queue, Budget(v.whox));
      BatchIsFull(v.queue, Budget(v.whox));
      var (batch, rest) := (v.queue[..k], v.queue[k..]);
      assert batch + rest == v.queue;
      ListSizeIsBytes(batch);
      if rest != [] {
        ListSizeIsBytes(batch + [rest[0]]);
      }
    }
  }

  /** The timer sends the next channels exactly if the last batch went out more than 30 s ago. */
  lemma TimerSends(v: Conn, now: real, v1: Conn, sent: Sent)
    requires v.ready && StepTo(v, Timer, now, v1, sent)
    ensures if v.sentAt.Some? && now - v.sentAt.value > 30.0 then SendsNext(v, now, v1, sent)
            else v1 == v && sent == None
  {
    SendIsNext(v.(inFlight := None, sentAt := None), now);
  }

  /** A joined channel waits behind the others, and is sent at once if nothing is in flight. */
  lemma JoinSends(v: Conn, ch: string, now: real, v1: Conn, sent: Sent)
    requires v.ready && StepTo(v, Joined(ch), now, v1, sent)
    ensures if v.inFlight.None? then SendsNext(v.(queue := v.queue + [ch]), now, v1, sent)
            else v1 == v.(queue := v.queue + [ch]) && sent == None
  {
    SendIsNext(v.(queue := v.queue + [ch]), now);
  }

  /** An end-of-WHO reply for a list of names: it strikes them off, and when nothing is left in flight the next
      channels go out at once. Without a batch in flight it does nothing. */
  lemma ReplyStrikes(v: Conn, names: seq<string>, now: real, v1: Conn, sent: Sent)
    requires Names(names) && v.ready && StepTo(v, EndOfWho(Join(names, ",")), now, v1, sent)
    ensures if v.inFlight.None? then v1 == v && sent == None
            else exists left :: Struck(v.inFlight.value, StruckBy(names), left)
                   && if left == {} then SendsNext(v, now, v1, sent)
                      else v1 == v.(inFlight := Some(left)) && sent == None
  {
    if v.inFlight.Some? {
      ListComesApart(names);
      assert Settled(Join(names, ",")) == StruckBy(names) by {
        assert [names[0]] + [] == [names[0]];
        assert |names| == 1 ==> names == [names[0]];
      }
      var left :| RemovesAll(v.inFlight.value, StruckBy(names), left)
        && (v1, sent) == if left == {} then SendBatch(v.(inFlight := None), now)
                         else (v.(inFlight := Some(left)), None);
      AllStruck(v.inFlight.value, StruckBy(names), left);
      SendIsNext(v.(inFlight := None), now);
      assert left == {} ==> SendsNext(v, now, v1, sent);
    }
  }

  /** Every target is such a list. */
  lemma {:induction false} EveryTargetIsList(target: string) returns (names: seq<string>)
    ensures Names(names) && Join(names, ",") == target
  {
    match SplitOnce(target, ',')
    case None => names := [target];
    case Some((before, after)) =>
      var rest := EveryTargetIsList(after);
      names := [before] + rest;
      assert names[1..] == rest && before + [','] + after == target;
  }

  lemma {:induction false} CountConcat(a: seq<string>, b: seq<string>, x: string)
    ensures Count(a + b, x) == Count(a, x) + Count(b, x)
    decreases |b|
  {
    if b == [] {
      assert a + b == a;
    } else {
      assert (a + b)[..|a + b| - 1] == a + b[..|b| - 1];
      CountConcat(a, b[..|b| - 1], x);
    }
  }

  lemma CountOne(name: string, x: string)
    ensures Count([name], x) == if Alike(name, x) then 1 else 0
  {
    assert [name][..0] == [];
  }

  lemma CommaStays(s: string, t: string)
    requires Alike(s, t) && ',' in s
    ensures ',' in t
  {
    var i :| 0 <= i < |s| && s[i] == ',';
    assert CaseOf(s[i], t[i]);
    assert t[i] == ',';
  }

  /** No channel is a list of several. */
  lemma ListIsNoName(names: seq<string>, x: string)
    requires Names(names) && ',' !in x
    ensures Count(StruckBy(names), x) == Count(names, x)
  {
    if |names| > 1 {
      var list := Join(names, ",");
      ListComesApart(names);
      if Alike(list, x) {
        CommaStays(list, x);
      }
      CountOne(list, x);
      CountConcat([list], names, x);
    }
  }

  lemma EmptyWhenAllStruck(before: set<string>, names: seq<string>, left: set<string>)
    requires Struck(before, names, left)
    ensures left == {} <==> forall x <- before :: |Class(before, x)| <= Count(names, x)
  {
    if x :| x in left {
      AlikeIsEquivalence(x, x, x);
      assert x in Class(left, x);
      assert |Class(left, x)| > 0 && x in before;
    } else {
      assert forall x :: Class(left, x) == {};
    }
  }

  /** A reply ends a batch exactly if it names every channel in flight, up to case; two channels that differ in
      case alone have to be named twice. */
  lemma ReplyEnds(v: Conn, names: seq<string>, now: real, v1: Conn, sent: Sent)
    requires Names(names) && v.ready && StepTo(v, EndOfWho(Join(names, ",")), now, v1, sent)
    requires v.inFlight.Some? && forall ch <- v.inFlight.value :: ',' !in ch
    ensures if forall ch <- v.inFlight.value :: |Class(v.inFlight.value, ch)| <= Count(names, ch)
            then SendsNext(v, now, v1, sent)
            else sent == None && v1 == v.(inFlight := v1.inFlight) && v1.inFlight.Some? && v1.inFlight.value != {}
  {
    ReplyStrikes(v, names, now, v1, sent);
    var left :| Struck(v.inFlight.value, StruckBy(names), left)
      && if left == {} then SendsNext(v, now, v1, sent) else v1 == v.(inFlight := Some(left)) && sent == None;
    EmptyWhenAllStruck(v.inFlight.value, StruckBy(names), left);
    forall ch | ch in v.inFlight.value
      ensures Count(StruckBy(names), ch) == Count(names, ch)
    {
      ListIsNoName(names, ch);
    }
  }

  lemma {:induction false} ClassOfBatch(batch: seq<string>, x: string)
    ensures |Class(SetOf(batch), x)| <= Count(batch, x)
  {
    if batch == [] {
      assert Class(SetOf(batch), x) == {};
    } else {
      var (init, last) := (batch[..|batch| - 1], batch[|batch| - 1]);
      assert batch == init + [last];
      assert SetOf(batch) == SetOf(init) + {last};
      ClassOfBatch(init, x);
      assert Class(SetOf(batch), x) == Class(SetOf(init), x) + if Alike(last, x) then {last} else {};
    }
  }

  /** The reply for the very list that was sent ends its batch. */
  lemma OwnListEnds(v: Conn, batch: seq<string>, now: real, v1: Conn, sent: Sent)
    requires Names(batch) && v.ready && v.inFlight == Some(set ch | ch in batch)
    requires StepTo(v, EndOfWho(Join(batch, ",")), now, v1, sent)
    ensures SendsNext(v, now, v1, sent)
  {
    ReplyEnds(v, batch, now, v1, sent);
    forall ch | ch in v.inFlight.value
      ensures |Class(v.inFlight.value, ch)| <= Count(batch, ch)
    {
      assert v.inFlight.value == SetOf(batch);
      ClassOfBatch(batch, ch);
    }
  }

  // ---------------------------------------------------------------- replies one by one

  /** The replies name the channels in flight one by one, in any order and in any case. */
  ghost predicate Enumerate(replies: seq<string>, entries: set<string>) {
    (forall name <- replies :: ',' !in name) && forall x :: |Class(entries, x)| == Count(replies, x)
  }

  /** The run consists of these replies. */
  ghost predicate RepliesOnly(moments: seq<Moment>, replies: seq<string>) {
    |moments| == |replies| && forall i | 0 <= i < |moments| :: moments[i].event == EndOfWho(replies[i])
  }

  /** What is still in flight after some of the replies. */
  ghost predicate LeftAfter(v: Conn, v1: Conn, done: seq<string>, count: int) {
    && v.inFlight.Some? && v1.inFlight.Some? && v1 == v.(inFlight := v1.inFlight)
    && |v1.inFlight.value| == count
    && forall x :: |Class(v1.inFlight.value, x)| == Less(|Class(v.inFlight.value, x)|, Count(done, x))
  }

  lemma CountOfPrefix(replies: seq<string>, n: nat, x: string)
    requires n <= |replies|
    ensures Count(replies[..n], x) <= Count(replies, x)
  {
    CountConcat(replies[..n], replies[n..], x);
    assert replies[..n] + replies[n..] == replies;
  }

  /** One more of the replies that enumerate the batch finds its channel. */
  lemma NextReply(v: Conn, mid: Conn, replies: seq<string>, n: nat, left: set<string>)
    requires v.inFlight.Some? && Enumerate(replies, v.inFlight.value) && n < |replies|
    requires mid.inFlight.Some? && LeftAfter(v, mid, replies[..n], |mid.inFlight.value|)
    requires RemovesOne(mid.inFlight.value, replies[n], left)
    ensures |left| == |mid.inFlight.value| - 1
    ensures LeftAfter(v, mid.(inFlight := Some(left)), replies[..n + 1], |left|)
  {
    var x := replies[n];
    AlikeIsEquivalence(x, x, x);
    CountOfPrefix(replies, n + 1, x);
    assert replies[..n + 1] == replies[..n] + [x];
    CountOne(x, x);
    CountConcat(replies[..n], [x], x);
    assert |Class(mid.inFlight.value, x)| > 0;
    var e :| e in Class(mid.inFlight.value, x);
    AlikeIsSame(e, x);
    forall y
      ensures |Class(left, y)| == Less(|Class(v.inFlight.value, y)|, Count(replies[..n + 1], y))
    {
      OneStruck(mid.inFlight.value, x, left, y);
      CountOne(x, y);
      CountConcat(replies[..n], [x], y);
    }
  }

  lemma OneName(before: set<string>, name: string, left: set<string>)
    requires ',' !in name && RemovesAll(before, Settled(name), left)
    ensures RemovesOne(before, name, left)
  {
    var names := Settled(name);
    assert names == [name] && names[..0] == [];
    assert RemovesThen(before, [], name, left);
  }

  lemma SingleReply(v: Conn, mid: Conn, replies: seq<string>, n: nat, now: real, v1: Conn, sent: Sent)
    requires v.ready && v.inFlight.Some? && Enumerate(replies, v.inFlight.value) && n < |replies|
    requires mid.inFlight.Some? && LeftAfter(v, mid, replies[..n], |v.inFlight.value| - n)
    requires StepTo(mid, EndOfWho(replies[n]), now, v1, sent)
    ensures if n + 1 < |replies|
            then sent == None && LeftAfter(v, v1, replies[..n + 1], |v.inFlight.value| - n - 1)
            else SendsNext(v, now, v1, sent)
  {
    assert replies[n] in replies;
    var left :| RemovesAll(mid.inFlight.value, Settled(replies[n]), left)
      && (v1, sent) == if left == {} then SendBatch(mid.(inFlight := None), now)
                       else (mid.(inFlight := Some(left)), None);
    OneName(mid.inFlight.value, replies[n], left);
    NextReply(v, mid, replies, n, left);
    SendIsNext(mid.(inFlight := None), now);
    LeftIsEmpty(v, mid.(inFlight := Some(left)), replies, n + 1, |left|);
  }

  lemma NoClassNoEntry(entries: set<string>)
    requires forall x :: |Class(entries, x)| == 0
    ensures entries == {}
  {
    forall x
      ensures x !in entries
    {
      AlikeIsEquivalence(x, x, x);
      assert |Class(entries, x)| == 0;
      assert x in entries ==> x in Class(entries, x);
    }
  }

  /** Something is left exactly as long as not all replies have come. */
  lemma LeftIsEmpty(v: Conn, v1: Conn, replies: seq<string>, n: nat, count: int)
    requires v.inFlight.Some? && Enumerate(replies, v.inFlight.value) && n <= |replies|
    requires v1.inFlight.Some? && LeftAfter(v, v1, replies[..n], count)
    ensures v1.inFlight.value == {} <==> n == |replies|
  {
    if n == |replies| {
      assert replies[..n] == replies;
      NoClassNoEntry(v1.inFlight.value);
    } else {
      var x := replies[n];
      AlikeIsEquivalence(x, x, x);
      CountOfPrefix(replies, n + 1, x);
      assert replies[..n + 1] == replies[..n] + [x];
      CountOne(x, x);
      CountConcat(replies[..n], [x], x);
      assert Class(v1.inFlight.value, x) != {};
    }
  }

  lemma {:induction false} RepliesLeave(states: seq<Conn>, moments: seq<Moment>, replies: seq<string>, n: nat)
    requires IsRun(states, moments) && RepliesOnly(moments, replies) && n < |replies|
    requires states[0].ready && states[0].inFlight.Some? && Enumerate(replies, states[0].inFlight.value)
    ensures LeftAfter(states[0], states[n], replies[..n], |states[0].inFlight.value| - n)
    ensures forall i | 0 <= i < n :: moments[i].sent == None
  {
    if n == 0 {
      assert replies[..0] == [];
    } else {
      RepliesLeave(states, moments, replies, n - 1);
      SingleReply(states[0], states[n - 1], replies, n - 1, moments[n - 1].now, states[n], moments[n - 1].sent);
    }
  }

  /** So replies for the channels of a batch, in any order and in any case, end it with the last one, and not before:
      until then they leave one channel less in flight each and send nothing. */
  lemma SinglesEnd(states: seq<Conn>, moments: seq<Moment>, replies: seq<string>)
    requires IsRun(states, moments) && RepliesOnly(moments, replies) && replies != []
    requires states[0].ready && states[0].inFlight.Some? && Enumerate(replies, states[0].inFlight.value)
    ensures var n := |replies| - 1;
            && (forall i | 0 <= i < n :: moments[i].sent == None)
            && (forall i | 0 <= i <= n ::
                  states[i].inFlight.Some? && |states[i].inFlight.value| == |states[0].inFlight.value| - i)
            && SendsNext(states[0], moments[n].now, states[n + 1], moments[n].sent)
  {
    var n := |replies| - 1;
    forall i | 0 <= i <= n
      ensures states[i].inFlight.Some? && |states[i].inFlight.value| == |states[0].inFlight.value| - i
    {
      RepliesLeave(states, moments, replies, i);
    }
    RepliesLeave(states, moments, replies, n);
    SingleReply(states[0], states[n], replies, n, moments[n].now, states[n + 1], moments[n].sent);
  }

  // ---------------------------------------------------------------- which replies enumerate a batch

  lemma {:induction false} CountVariants(base: seq<string>, replies: seq<string>, x: string)
    requires |base| == |replies| && forall i | 0 <= i < |base| :: Alike(base[i], replies[i])
    ensures Count(base, x) == Count(replies, x)
  {
    if base != [] {
      var n := |base| - 1;
      CountVariants(base[..n], replies[..n], x);
      assert Alike(base[n], replies[n]);
      AlikeIsEquivalence(base[n], replies[n], x);
    }
  }

  lemma {:induction false} CountReordered(a: seq<string>, b: seq<string>, x: string)
    requires multiset(a) == multiset(b)
    ensures Count(a, x) == Count(b, x)
    decreases |a|
  {
    if a == [] {
      assert |multiset(b)| == 0;
    } else {
      var (init, last) := (a[..|a| - 1], a[|a| - 1]);
      assert a == init + [last];
      assert last in multiset(b);
      var i :| 0 <= i < |b| && b[i] == last;
      assert b == b[..i] + [last] + b[i + 1..];
      assert multiset(init) == multiset(a) - multiset{last} == multiset(b[..i] + b[i + 1..]);
      CountReordered(init, b[..i] + b[i + 1..], x);
      CountConcat(b[..i], b[i + 1..], x);
      CountConcat(b[..i] + [last], b[i + 1..], x);
      CountConcat(b[..i], [last], x);
      CountOne(last, x);
    }
  }

  lemma WithoutLast(init: seq<string>, last: string)
    requires forall i | 0 <= i < |init| :: init[i] != last
    ensures last in SetOf(init + [last]) && SetOf(init + [last]) - {last} == SetOf(init)
  {
    assert last in init + [last];
  }

  lemma {:induction false} CountDistinct(batch: seq<string>, x: string)
    requires forall i, j | 0 <= i < j < |batch| :: batch[i] != batch[j]
    ensures |Class(SetOf(batch), x)| == Count(batch, x)
  {
    if batch == [] {
      assert Class(SetOf(batch), x) == {};
    } else {
      var (init, last) := (batch[..|batch| - 1], batch[|batch| - 1]);
      assert batch == init + [last];
      CountDistinct(init, x);
      WithoutLast(init, last);
      Removed(SetOf(batch), last, x);
    }
  }

  /** The channels of a batch, each once, reordered and with the case of any letters changed. */
  lemma VariantsEnumerate(batch: seq<string>, reordered: seq<string>, replies: seq<string>)
    requires Names(batch) && forall i, j | 0 <= i < j < |batch| :: batch[i] != batch[j]
    requires multiset(reordered) == multiset(batch) && |replies| == |reordered|
    requires forall i | 0 <= i < |replies| :: Alike(reordered[i], replies[i])
    ensures Enumerate(replies, set ch | ch in batch)
  {
    forall name | name in replies
      ensures ',' !in name
    {
      var i :| 0 <= i < |replies| && replies[i] == name;
      assert reordered[i] in multiset(batch);
      AlikeIsEquivalence(reordered[i], name, name);
      if ',' in name {
        CommaStays(name, reordered[i]);
      }
    }
    forall x
      ensures |Class(SetOf(batch), x)| == Count(replies, x)
    {
      CountDistinct(batch, x);
      CountReordered(reordered, batch, x);
      CountVariants(reordered, replies, x);
    }
    assert SetOf(batch) == set ch | ch in batch;
  }

  // ---------------------------------------------------------------- reply after reply

  /** Every event is the reply for the list in flight: the batch in flight at first, then the one just sent. */
  ghost predicate ListReplies(first: seq<string>, moments: seq<Moment>) {
    forall i | 0 <= i < |moments| ::
      Awaited(first, moments, i).Some? && moments[i].event == EndOfWho(Join(Awaited(first, moments, i).value, ","))
  }

  /** The list in flight before reply `i`. */
  function Awaited(first: seq<string>, moments: seq<Moment>, i: nat): Sent
    requires i < |moments|
  {
    if i == 0 then Some(first) else moments[i - 1].sent
  }

  ghost predicate Flying(v: Conn, batch: seq<string>) {
    && v.ready && v.inFlight == Some(set ch | ch in batch) && Names(batch) && forall ch <- v.queue :: ',' !in ch
  }

  lemma ReplySendsNext(v: Conn, batch: seq<string>, now: real, v1: Conn, sent: Sent)
    requires Flying(v, batch) && StepTo(v, EndOfWho(Join(batch, ",")), now, v1, sent)
    ensures SendsNext(v, now, v1, sent) && v1.whox == v.whox && (sent.Some? ==> Flying(v1, sent.value))
  {
    OwnListEnds(v, batch, now, v1, sent);
    if sent.Some? {
      forall ch | ch in sent.value + v1.queue
        ensures ',' !in ch
      {
        assert ch in v.queue;
      }
      assert forall ch <- sent.value :: ch in sent.value + v1.queue;
      assert forall ch <- v1.queue :: ch in sent.value + v1.queue;
    }
  }

  lemma ReplyAt(states: seq<Conn>, moments: seq<Moment>, first: seq<string>, n: nat)
    requires IsRun(states, moments) && ListReplies(first, moments) && n < |moments|
    ensures Awaited(first, moments, n).Some?
    ensures StepTo(states[n], EndOfWho(Join(Awaited(first, moments, n).value, ",")), moments[n].now, states[n + 1],
                   moments[n].sent)
  {
  }

  lemma {:induction false} StaysFlying(states: seq<Conn>, moments: seq<Moment>, first: seq<string>, n: nat)
    requires IsRun(states, moments) && ListReplies(first, moments) && Flying(states[0], first) && n < |moments|
    ensures SendsNext(states[n], moments[n].now, states[n + 1], moments[n].sent)
    ensures moments[n].sent.Some? ==> Flying(states[n + 1], moments[n].sent.value)
  {
    if n > 0 {
      StaysFlying(states, moments, first, n - 1);
    }
    ReplyAt(states, moments, first, n);
    ReplySendsNext(states[n], Awaited(first, moments, n).value, moments[n].now, states[n + 1], moments[n].sent);
  }

  /** When the server answers every list, each reply sends the next one, as large as the command allows, at once: so
      as many lists go out as replies come in, until nothing waits; and everything sent and left makes up what waited
      at first, in order. No timeout is needed. */
  lemma {:induction false} RepliesDrain(states: seq<Conn>, moments: seq<Moment>, first: seq<string>)
    requires IsRun(states, moments) && ListReplies(first, moments) && Flying(states[0], first)
    ensures forall i | 0 <= i < |moments| :: SendsNext(states[i], moments[i].now, states[i + 1], moments[i].sent)
    ensures SentInAll(moments) + states[|moments|].queue == states[0].queue
    ensures states[|moments|].queue == [] || |SentInAll(moments)| >= |moments|
  {
    forall i | 0 <= i < |moments|
      ensures SendsNext(states[i], moments[i].now, states[i + 1], moments[i].sent)
    {
      StaysFlying(states, moments, first, i);
    }
    SentSoFar(states, moments);
  }

  lemma {:induction false} SentSoFar(states: seq<Conn>, moments: seq<Moment>)
    requires |states| == |moments| + 1
    requires forall i | 0 <= i < |moments| :: SendsNext(states[i], moments[i].now, states[i + 1], moments[i].sent)
    ensures SentInAll(moments) + states[|moments|].queue == states[0].queue
    ensures states[|moments|].queue == [] || |SentInAll(moments)| >= |moments|
  {
    if moments != [] {
      var n := |moments| - 1;
      SentSoFar(states[..n + 1], moments[..n]);
      Associate(SentInAll(moments[..n]), Contents(moments[n].sent), states[n + 1].queue);
    }
  }
}
