/** The WHO and MODE queries sent for every joined channel: queued per connection, sent in batches, one
    batch in flight at a time. */
module WhoQueue {
  import opened Basics
  import opened Text
  import Numerals
  import opened Utf8

  const MAX_WHO_TARGETS := 5
  const STALE_SECS := 30.0

  /** What is left of 512 bytes for the channel list. */
  function Budget(whox: bool): (n: nat)
    ensures n == if whox then 490 else 505
  {
    Min(512 - (if whox then 22 else 6), 512 - 7)
  }

  // ---------------------------------------------------------------- one batch

  /** What one more channel adds to the list of `n` channels. */
  function Added(ch: string, n: nat): nat {
    if n == 0 then Size(ch) else 1 + Size(ch)
  }

  /** How many channels come off the queue after `n` channels of `len` bytes. */
  function Fill(queue: seq<string>, n: nat, len: nat, budget: nat): (k: nat)
    ensures k <= |queue|
  {
    if queue == [] || n >= MAX_WHO_TARGETS then 0
    else if len + Added(queue[0], n) > budget && n > 0 then 0
    else 1 + Fill(queue[1..], n + 1, len + Added(queue[0], n), budget)
  }

  function BatchSize(queue: seq<string>, budget: nat): nat {
    Fill(queue, 0, 0, budget)
  }

  /** The length of the comma-joined list. */
  function ListSize(batch: seq<string>): nat {
    if batch == [] then 0 else ListSize(batch[..|batch| - 1]) + Added(batch[|batch| - 1], |batch| - 1)
  }

  /** As long a batch from the front of the queue as the limits allow, and never an empty one. */
  predicate FullBatch(batch: seq<string>, rest: seq<string>, budget: nat) {
    && 1 <= |batch| <= MAX_WHO_TARGETS
    && (|batch| == 1 || ListSize(batch) <= budget)
    && (rest == [] || |batch| == MAX_WHO_TARGETS || ListSize(batch + [rest[0]]) > budget)
  }

  lemma ListGrows(batch: seq<string>, ch: string)
    ensures ListSize(batch + [ch]) == ListSize(batch) + Added(ch, |batch|)
  {
    assert (batch + [ch])[..|batch|] == batch;
  }

  predicate WithinLimits(batch: seq<string>, budget: nat) {
    |batch| <= MAX_WHO_TARGETS && (|batch| <= 1 || ListSize(batch) <= budget)
  }

  lemma FillStops(batch: seq<string>, queue: seq<string>, budget: nat)
    requires WithinLimits(batch, budget) && batch + queue != []
    requires Fill(queue, |batch|, ListSize(batch), budget) == 0
    ensures FullBatch(batch, queue, budget)
  {
    if queue != [] {
      ListGrows(batch, queue[0]);
    }
  }

  lemma FillTakes(batch: seq<string>, queue: seq<string>, budget: nat)
    requires WithinLimits(batch, budget) && Fill(queue, |batch|, ListSize(batch), budget) > 0
    ensures var more := batch + [queue[0]];
            && WithinLimits(more, budget)
            && Fill(queue, |batch|, ListSize(batch), budget) == 1 + Fill(queue[1..], |more|, ListSize(more), budget)
  {
    ListGrows(batch, queue[0]);
  }

  lemma MoveOne(batch: seq<string>, queue: seq<string>, k: nat)
    requires 0 < k <= |queue|
    ensures (batch + [queue[0]]) + queue[1..][..k - 1] == batch + queue[..k] && queue[1..][k - 1..] == queue[k..]
  {
  }

  /** Filling up a batch that is within the limits so far. */
  lemma {:induction false} FillMeans(batch: seq<string>, queue: seq<string>, budget: nat, full: seq<string>,
                                    rest: seq<string>)
    requires WithinLimits(batch, budget) && batch + queue != []
    requires var k := Fill(queue, |batch|, ListSize(batch), budget); full == batch + queue[..k] && rest == queue[k..]
    ensures FullBatch(full, rest, budget)
    decreases |queue|
  {
    var k := Fill(queue, |batch|, ListSize(batch), budget);
    if k == 0 {
      assert batch + queue[..0] == batch && queue[0..] == queue;
      FillStops(batch, queue, budget);
    } else {
      FillTakes(batch, queue, budget);
      MoveOne(batch, queue, k);
      FillMeans(batch + [queue[0]], queue[1..], budget, full, rest);
    }
  }

  lemma BatchIsFull(queue: seq<string>, budget: nat)
    requires queue != []
    ensures var k := BatchSize(queue, budget); FullBatch(queue[..k], queue[k..], budget)
  {
    var k := BatchSize(queue, budget);
    assert [] + queue[..k] == queue[..k];
    FillMeans([], queue, budget, queue[..k], queue[k..]);
  }

  // ---------------------------------------------------------------- one connection

  /** What the three maps and the handle table say about one connection. */
  datatype Conn = Conn(ready: bool, whox: bool, queue: seq<string>, inFlight: Option<set<string>>, sentAt: Option<real>)

  type Sent = Option<seq<string>>

  function SetOf(batch: seq<string>): (s: set<string>)
    ensures batch != [] ==> s != {}
  {
    var s := set ch | ch in batch;
    assert batch != [] ==> batch[0] in s;
    s
  }

  /** `send_channel_query_batch` */
  function SendBatch(v: Conn, now: real): (Conn, Sent) {
    if v.queue == [] then (v.(inFlight := None, sentAt := None), None)
    else
      var k := BatchSize(v.queue, Budget(v.whox));
      var v1 := v.(queue := v.queue[k..]);
      if !v.ready then (v1.(inFlight := None), None)
      else (v1.(inFlight := Some(SetOf(v.queue[..k])), sentAt := Some(now)), Some(v.queue[..k]))
  }

  /** `queue_channel_query` */
  function Enqueue(v: Conn, ch: string, now: real): (Conn, Sent) {
    var v1 := v.(queue := v.queue + [ch]);
    if v.inFlight.None? then SendBatch(v1, now) else (v1, None)
  }

  function Lower(c: char): char {
    if 'A' <= c <= 'Z' then 'a' + (c as int - 'A' as int) as char else c
  }

  predicate SameIgnoringCase(s: string, t: string) {
    |s| == |t| && forall i | 0 <= i < |s| :: Lower(s[i]) == Lower(t[i])
  }

  /** `remove_case_insensitive`: of several entries that differ only in case, any may go. */
  ghost predicate RemovesOne(before: set<string>, value: string, after: set<string>) {
    if value in before then after == before - {value}
    else if exists e <- before :: SameIgnoringCase(e, value) then
      exists e <- before :: SameIgnoringCase(e, value) && after == before - {e}
    else after == before
  }

  ghost predicate RemovesAll(before: set<string>, values: seq<string>, after: set<string>)
    decreases |values|, 0
  {
    if values == [] then after == before
    else RemovesThen(before, values[..|values| - 1], values[|values| - 1], after)
  }

  ghost predicate RemovesThen(before: set<string>, init: seq<string>, last: string, after: set<string>)
    decreases |init|, 1
  {
    exists mid :: RemovesAll(before, init, mid) && RemovesOne(mid, last, after)
  }

  /** `target.split(',')` */
  function SplitCommas(s: string): seq<string> {
    match SplitOnce(s, ',')
    case None => [s]
    case Some((before, after)) => [before] + SplitCommas(after)
  }

  /** The names an end-of-WHO reply settles, in the order they are struck off. */
  function Settled(target: string): seq<string> {
    [target] + if ',' in target then SplitCommas(target) else []
  }

  /** `handle_who_batch_complete` */
  ghost predicate Completes(v: Conn, target: string, now: real, v1: Conn, sent: Sent) {
    if v.inFlight.None? then v1 == v && sent == None
    else
      exists left | RemovesAll(v.inFlight.value, Settled(target), left) ::
        (v1, sent) == if left == {} then SendBatch(v.(inFlight := None), now) else (v.(inFlight := Some(left)), None)
  }

  predicate IsStale(v: Conn, now: real) {
    v.sentAt.Some? && now - v.sentAt.value > STALE_SECS
  }

  /** `check_stale_who_batches`, for one connection */
  function Tick(v: Conn, now: real): (Conn, Sent) {
    if IsStale(v, now) then SendBatch(v.(inFlight := None, sentAt := None), now) else (v, None)
  }

  datatype Event = Joined(ch: string) | EndOfWho(target: string) | Timer | HandleReady | Disconnected | WhoxIs(on: bool)

  /** Every event that touches the scheduling of one connection. */
  ghost predicate StepTo(v: Conn, e: Event, now: real, v1: Conn, sent: Sent) {
    match e
    case Joined(ch) => (v1, sent) == Enqueue(v, ch, now)
    case EndOfWho(target) => Completes(v, target, now, v1, sent)
    case Timer => (v1, sent) == Tick(v, now)
    case HandleReady => v1 == v.(ready := true) && sent == None
    case Disconnected => v1 == v.(ready := false, queue := [], inFlight := None, sentAt := None) && sent == None
    case WhoxIs(on) => v1 == v.(whox := on) && sent == None
  }

  const NEW_CONN := Conn(false, false, [], None, None)

  // ---------------------------------------------------------------- invariants

  /** The scheduler cannot be stuck: whatever waits, waits for a batch in flight that has a send time,
      which the next reply or timeout will end. */
  predicate Live(v: Conn) {
    && (v.inFlight.Some? <==> v.sentAt.Some?)
    && (v.inFlight.Some? ==> v.inFlight.value != {} && v.ready)
    && (v.queue != [] ==> v.inFlight.Some?)
  }

  lemma SendKeepsLive(v: Conn, now: real)
    requires v.inFlight.None? && (v.queue != [] ==> v.ready)
    ensures Live(SendBatch(v, now).0)
  {
    if v.queue != [] {
      BatchIsFull(v.queue, Budget(v.whox));
    }
  }

  /** A channel joined while no connection is up is forgotten on the spot. */
  lemma JoinWithoutHandle(v: Conn, ch: string, now: real)
    requires Live(v) && !v.ready
    ensures Enqueue(v, ch, now) == (v, None)
  {
    BatchIsFull([ch], Budget(v.whox));
    assert v.queue + [ch] == [ch];
  }

  /** Every event keeps the scheduler live. */
  lemma StepKeepsLive(v: Conn, e: Event, now: real, v1: Conn, sent: Sent)
    requires Live(v) && StepTo(v, e, now, v1, sent)
    ensures Live(v1)
  {
    match e
    case Joined(ch) =>
      if !v.ready {
        JoinWithoutHandle(v, ch, now);
      } else if v.inFlight.None? {
        SendKeepsLive(v.(queue := v.queue + [ch]), now);
      }
    case EndOfWho(target) =>
      if v.inFlight.Some? {
        SendKeepsLive(v.(inFlight := None), now);
      }
    case Timer =>
      if IsStale(v, now) {
        SendKeepsLive(v.(inFlight := None, sentAt := None), now);
      }
    case _ =>
  }

  // ---------------------------------------------------------------- whole runs

  datatype Moment = Moment(event: Event, now: real, sent: Sent)

  ghost predicate IsRun(states: seq<Conn>, moments: seq<Moment>) {
    && |states| == |moments| + 1
    && forall i | 0 <= i < |moments| ::
         StepTo(states[i], moments[i].event, moments[i].now, states[i + 1], moments[i].sent)
  }

  function Contents(sent: Sent): seq<string> {
    if sent.None? then [] else sent.value
  }

  function SentInAll(moments: seq<Moment>): seq<string> {
    if moments == [] then []
    else SentInAll(moments[..|moments| - 1]) + Contents(moments[|moments| - 1].sent)
  }

  function JoinedBy(e: Event): seq<string> {
    if e.Joined? then [e.ch] else []
  }

  function JoinedInAll(moments: seq<Moment>): seq<string> {
    if moments == [] then []
    else JoinedInAll(moments[..|moments| - 1]) + JoinedBy(moments[|moments| - 1].event)
  }

  predicate StaysUp(moments: seq<Moment>) {
    forall i | 0 <= i < |moments| :: !moments[i].event.Disconnected?
  }

  lemma {:induction false} RunKeepsLive(states: seq<Conn>, moments: seq<Moment>)
    requires IsRun(states, moments) && Live(states[0])
    ensures Live(states[|moments|])
    decreases |moments|
  {
    if moments != [] {
      var n := |moments| - 1;
      RunKeepsLive(states[..n + 1], moments[..n]);
      StepKeepsLive(states[n], moments[n].event, moments[n].now, states[n + 1], moments[n].sent);
      assert StepTo(states[n], moments[n].event, moments[n].now, states[n + 1], moments[n].sent);
    }
  }

  lemma SendConserves(v: Conn, now: real)
    requires v.ready
    ensures var (v1, sent) := SendBatch(v, now);
            && v1.ready && Contents(sent) + v1.queue == v.queue
            && (sent.Some? ==> FullBatch(sent.value, v1.queue, Budget(v.whox)))
  {
    if v.queue != [] {
      BatchIsFull(v.queue, Budget(v.whox));
      var k := BatchSize(v.queue, Budget(v.whox));
      assert v.queue[..k] + v.queue[k..] == v.queue;
    }
  }

  /** A step that joins these channels loses none. */
  predicate Conserves(v: Conn, v1: Conn, sent: Sent, joined: seq<string>) {
    && v1.ready && Contents(sent) + v1.queue == v.queue + joined
    && (sent.Some? ==> FullBatch(sent.value, v1.queue, Budget(v.whox)))
  }

  lemma JoinConserves(v: Conn, ch: string, now: real)
    requires v.ready
    ensures Conserves(v, Enqueue(v, ch, now).0, Enqueue(v, ch, now).1, [ch])
  {
    SendConserves(v.(queue := v.queue + [ch]), now);
  }

  lemma EndConserves(v: Conn, target: string, now: real, v1: Conn, sent: Sent)
    requires v.ready && Completes(v, target, now, v1, sent)
    ensures Conserves(v, v1, sent, [])
  {
    SendConserves(v.(inFlight := None), now);
    assert v.queue + [] == v.queue;
  }

  lemma TickConserves(v: Conn, now: real)
    requires v.ready
    ensures Conserves(v, Tick(v, now).0, Tick(v, now).1, [])
  {
    SendConserves(v.(inFlight := None, sentAt := None), now);
    assert v.queue + [] == v.queue;
  }

  lemma StepConserves(v: Conn, e: Event, now: real, v1: Conn, sent: Sent)
    requires v.ready && !e.Disconnected? && StepTo(v, e, now, v1, sent)
    ensures Conserves(v, v1, sent, JoinedBy(e))
  {
    assert v.queue + [] == v.queue;
    match e
    case Joined(ch) => JoinConserves(v, ch, now);
    case EndOfWho(target) => EndConserves(v, target, now, v1, sent);
    case Timer => TickConserves(v, now);
    case _ =>
  }

  /** While a connection stays up nothing is lost, doubled or reordered: what was sent, then what still
      waits, is what waited at first and what was joined since, in that order; and every batch is full. */
  lemma {:induction false} NothingIsLost(states: seq<Conn>, moments: seq<Moment>)
    requires IsRun(states, moments) && Live(states[0]) && states[0].ready && StaysUp(moments)
    ensures states[|moments|].ready
    ensures SentInAll(moments) + states[|moments|].queue == states[0].queue + JoinedInAll(moments)
    ensures forall i | 0 <= i < |moments| && moments[i].sent.Some? ::
              FullBatch(moments[i].sent.value, states[i + 1].queue, Budget(states[i].whox))
    decreases |moments|
  {
    if moments != [] {
      var n := |moments| - 1;
      var (states0, moments0) := (states[..n + 1], moments[..n]);
      NothingIsLost(states0, moments0);
      RunKeepsLive(states0, moments0);
      StepConserves(states[n], moments[n].event, moments[n].now, states[n + 1], moments[n].sent);
      Regroup(SentInAll(moments0), states[n].queue, states[0].queue, JoinedInAll(moments0), Contents(moments[n].sent),
              states[n + 1].queue, JoinedBy(moments[n].event));
      forall i | 0 <= i < |moments| && moments[i].sent.Some?
        ensures FullBatch(moments[i].sent.value, states[i + 1].queue, Budget(states[i].whox))
      {
        assert i < n ==> moments0[i] == moments[i] && states0[i + 1] == states[i + 1];
      }
    }
  }

  lemma Regroup(sent: seq<string>, queue: seq<string>, first: seq<string>, joined: seq<string>, batch: seq<string>,
                rest: seq<string>, more: seq<string>)
    requires sent + queue == first + joined && batch + rest == queue + more
    ensures (sent + batch) + rest == first + (joined + more)
  {
    assert (sent + batch) + rest == sent + (batch + rest);
    assert sent + (queue + more) == (sent + queue) + more;
  }

  // ---------------------------------------------------------------- progress

  /** How many times in the run a timeout ended a batch. */
  function Timeouts(states: seq<Conn>, moments: seq<Moment>): nat
    requires |states| == |moments| + 1
  {
    if moments == [] then 0
    else
      var n := |moments| - 1;
      Timeouts(states[..n + 1], moments[..n])
      + if moments[n].event.Timer? && IsStale(states[n], moments[n].now) then 1 else 0
  }

  /** After `n` timeouts either `n` channels have been sent, or everything that waited had been. */
  lemma {:induction false} TimeoutsMakeProgress(states: seq<Conn>, moments: seq<Moment>)
    requires IsRun(states, moments) && Live(states[0]) && states[0].ready && StaysUp(moments)
    ensures |SentInAll(moments)| >= Timeouts(states, moments) || |SentInAll(moments)| >= |states[0].queue|
    decreases |moments|
  {
    if moments != [] {
      var n := |moments| - 1;
      var (states0, moments0) := (states[..n + 1], moments[..n]);
      TimeoutsMakeProgress(states0, moments0);
      RunKeepsLive(states0, moments0);
      NothingIsLost(states0, moments0);
      assert |SentInAll(moments0)| + |states[n].queue| == |states[0].queue| + |JoinedInAll(moments0)|;
      TimeoutSends(states[n], moments[n].event, moments[n].now, states[n + 1], moments[n].sent);
    }
  }

  lemma TimeoutSends(v: Conn, e: Event, now: real, v1: Conn, sent: Sent)
    requires Live(v) && v.ready && StepTo(v, e, now, v1, sent)
    ensures e.Timer? && IsStale(v, now) && v.queue != [] ==> |Contents(sent)| >= 1
  {
    if e.Timer? && IsStale(v, now) && v.queue != [] {
      BatchIsFull(v.queue, Budget(v.whox));
    }
  }

  /** All that waited is sent within as many timeouts as channels waited, replies or none. */
  lemma QueueDrains(states: seq<Conn>, moments: seq<Moment>)
    requires IsRun(states, moments) && Live(states[0]) && states[0].ready && StaysUp(moments)
    requires Timeouts(states, moments) >= |states[0].queue|
    ensures states[0].queue <= SentInAll(moments)
  {
    TimeoutsMakeProgress(states, moments);
    NothingIsLost(states, moments);
    var all := states[0].queue + JoinedInAll(moments);
    assert all[..|states[0].queue|] == states[0].queue;
    assert all[..|SentInAll(moments)|] == SentInAll(moments);
  }

  // ---------------------------------------------------------------- the line on the wire

  const WHOX_FIELDS := "%tcuihnfar"

  /** The WHO command with the WHOX fields and the token of this query, or without them. */
  function WhoLine(batch: seq<string>, whox: bool, token: nat): string {
    "WHO " + Join(batch, ",") + (if whox then " " + WHOX_FIELDS + "," + Numerals.Print(token) else "") + "\r\n"
  }

  lemma {:induction false} JoinLast(batch: seq<string>, last: string)
    requires batch != []
    ensures Join(batch + [last], ",") == Join(batch, ",") + "," + last
  {
    var all := batch + [last];
    assert all[1..] == batch[1..] + [last];
    if |batch| > 1 {
      JoinLast(batch[1..], last);
      assert Join(all, ",") == batch[0] + "," + Join(all[1..], ",");
      assert Join(batch, ",") == batch[0] + "," + Join(batch[1..], ",");
    } else {
      assert batch[1..] + [last] == [last];
    }
  }

  /** The budget counts what is sent: the bytes of the comma-joined list. */
  lemma {:induction false} ListSizeIsBytes(batch: seq<string>)
    ensures ListSize(batch) == Size(Join(batch, ","))
  {
    if |batch| == 1 {
      assert batch[..0] == [];
    } else if |batch| > 1 {
      var (init, last) := (batch[..|batch| - 1], batch[|batch| - 1]);
      assert batch == init + [last];
      ListSizeIsBytes(init);
      JoinLast(init, last);
      Utf8.EncodeConcat(Join(init, ",") + ",", last);
      Utf8.EncodeConcat(Join(init, ","), ",");
      PlainSize(",");
    }
  }

  lemma SizeOfFour(a: string, b: string, c: string, d: string)
    ensures Size(a + b + c + d) == Size(a) + Size(b) + Size(c) + Size(d)
  {
    Utf8.EncodeConcat(a, b);
    Utf8.EncodeConcat(a + b, c);
    Utf8.EncodeConcat(a + b + c, d);
  }

  lemma WhoLineSize(batch: seq<string>, whox: bool, token: nat)
    ensures Size(WhoLine(batch, whox, token)) == ListSize(batch) + if whox then 18 + |Numerals.Print(token)| else 6
  {
    var fields := if whox then " " + WHOX_FIELDS + "," + Numerals.Print(token) else "";
    ListSizeIsBytes(batch);
    PlainSize("WHO ");
    PlainSize(fields);
    PlainSize("\r\n");
    SizeOfFour("WHO ", Join(batch, ","), fields, "\r\n");
  }

  lemma {:induction false} TokenLength(n: nat, k: nat)
    requires k > 0
    ensures |Numerals.Print(n)| <= k <==> n < Numerals.Pow10(k)
  {
    if n >= 10 && k > 1 {
      TokenLength(n / 10, k - 1);
    }
  }

  /** The MODE command for the same channels, and the one that asks for a channel's bans. */
  function ModeLine(batch: seq<string>): string {
    "MODE " + Join(batch, ",") + "\r\n"
  }

  function BanLine(ch: string): string {
    "MODE " + ch + " b" + "\r\n"
  }

  lemma ModeLineSize(batch: seq<string>, ch: string)
    ensures Size(ModeLine(batch)) == ListSize(batch) + 7 && Size(BanLine(ch)) == Size(ch) + 9
  {
    ListSizeIsBytes(batch);
    PlainSize("MODE ");
    PlainSize(" b");
    PlainSize("\r\n");
    Utf8.EncodeConcat("MODE " + Join(batch, ","), "\r\n");
    Utf8.EncodeConcat("MODE ", Join(batch, ","));
    SizeOfFour("MODE ", ch, " b", "\r\n");
  }

  /** When the commands for a list fit the 512 bytes of section 2.3 of RFC 2812. The WHOX token is not part
      of the budget, which leaves four characters for it. */
  lemma CommandFits(batch: seq<string>, whox: bool, token: nat)
    ensures Size(WhoLine(batch, whox, token)) <= 512
            <==> if whox then ListSize(batch) + |Numerals.Print(token)| <= 494 else ListSize(batch) <= 506
    ensures ListSize(batch) <= Budget(whox) ==> Size(ModeLine(batch)) <= 512
    ensures forall ch :: Size(BanLine(ch)) <= 512 <==> Size(ch) <= 503
  {
    WhoLineSize(batch, whox, token);
    ModeLineSize(batch, "");
    forall ch
      ensures Size(BanLine(ch)) <= 512 <==> Size(ch) <= 503
    {
      ModeLineSize(batch, ch);
    }
  }

  /** Every batch that is sent, of several channels or of one within the budget: MODE fits, WHO fits without
      WHOX, and WHO fits with a counter of up to four digits; with a counter of five digits it fails to fit
      exactly when the list uses up the budget of 490 bytes. */
  lemma SentBatchFits(v: Conn, now: real, token: nat)
    requires SendBatch(v, now).1.Some? && Size(v.queue[0]) <= Budget(v.whox)
    ensures var batch := SendBatch(v, now).1.value;
            && ListSize(batch) <= Budget(v.whox) && Size(ModeLine(batch)) <= 512
            && (!v.whox || token < 10000 ==> Size(WhoLine(batch, v.whox, token)) <= 512)
            && (v.whox && 10000 <= token < 100000 ==>
                  (Size(WhoLine(batch, v.whox, token)) > 512 <==> ListSize(batch) == 490))
  {
    var batch := SendBatch(v, now).1.value;
    BatchIsFull(v.queue, Budget(v.whox));
    if |batch| == 1 {
      assert batch[..0] == [] && ListSize(batch) == Size(v.queue[0]);
    }
    CommandFits(batch, v.whox, token);
    assert Numerals.Pow10(4) == 10000 && Numerals.Pow10(5) == 100000;
    TokenLength(token, 4);
    TokenLength(token, 5);
  }

  /** A channel name of `n` bytes, told apart from others by its letter. */
  function Channel(letter: char, n: nat): (s: string)
    requires letter < 128 as char && n >= 2
    ensures |s| == n && Size(s) == n && s[0] == '#' && s[1] == letter
  {
    var s := ['#', letter] + seq(n - 2, i => 'x');
    PlainSize(s);
    s
  }

  /** Five channels whose list takes 490 bytes. */
  predicate FillTheBudget(queue: seq<string>) {
    |queue| == 5 && forall i | 0 <= i < 5 :: Size(queue[i]) == if i == 4 then 98 else 97
  }

  lemma {:induction false} FiveSizes(queue: seq<string>, i: nat)
    requires FillTheBudget(queue) && i <= 5
    ensures ListSize(queue[..i]) == if i == 0 then 0 else if i == 5 then 490 else 98 * i - 1
  {
    if i > 0 {
      FiveSizes(queue, i - 1);
      assert queue[..i] == queue[..i - 1] + [queue[i - 1]];
      ListGrows(queue[..i - 1], queue[i - 1]);
    }
  }

  lemma OneMoreFits(queue: seq<string>, i: nat)
    requires FillTheBudget(queue) && i < 5
    ensures ListSize(queue[..i] + [queue[i..][0]]) <= 490
  {
    FiveSizes(queue, i + 1);
    assert queue[..i + 1] == queue[..i] + [queue[i..][0]];
  }

  lemma FiveTogether(queue: seq<string>)
    requires FillTheBudget(queue)
    ensures BatchSize(queue, 490) == 5
  {
    BatchIsFull(queue, 490);
    var k := BatchSize(queue, 490);
    if k < 5 {
      OneMoreFits(queue, k);
    }
  }

  lemma FiveDigits()
    ensures |Numerals.Print(10000)| == 5
  {
    assert Numerals.Pow10(4) == 10000 && Numerals.Pow10(5) == 100000;
    TokenLength(10000, 4);
    TokenLength(10000, 5);
  }

  /** Such channels leave the queue as one batch, and with the counter at 10000 their WHO takes 513 bytes. */
  lemma FullBudgetOverruns(v: Conn, now: real)
    requires v.ready && v.whox && FillTheBudget(v.queue)
    ensures SendBatch(v, now).1 == Some(v.queue) && Size(WhoLine(v.queue, true, 10000)) == 513
  {
    FiveTogether(v.queue);
    FiveSizes(v.queue, 5);
    assert v.queue[..5] == v.queue;
    FiveDigits();
    WhoLineSize(v.queue, true, 10000);
  }

  function FiveChannels(): seq<string> {
    seq(5, i requires 0 <= i < 5 => Channel("abcde"[i], if i == 4 then 98 else 97))
  }

  /** There are five such channels, no two of them the same. */
  lemma SuchChannelsExist(i: nat, j: nat)
    requires i < j < 5
    ensures FillTheBudget(FiveChannels())
    ensures FiveChannels()[i][0] == '#' && FiveChannels()[j][0] == '#' && FiveChannels()[i] != FiveChannels()[j]
  {
    assert FiveChannels()[i][1] == "abcde"[i] && FiveChannels()[j][1] == "abcde"[j];
  }

  // ---------------------------------------------------------------- the program

  /** `remove_case_insensitive` */
  method RemoveCaseInsensitive(entries: set<string>, value: string) returns (left: set<string>)
    ensures RemovesOne(entries, value, left)
  {
    if value in entries {
      return entries - {value};
    }
    if exists e <- entries :: SameIgnoringCase(e, value) {
      var e :| e in entries && SameIgnoringCase(e, value);
      return entries - {e};
    }
    return entries;
  }

  /** What the popping loop keeps: popped and waiting channels make up the queue, and the batch will be full
      when as many more are popped as fit. */
  predicate Popping(all: seq<string>, batch: seq<string>, queue: seq<string>, len: nat, budget: nat) {
    && batch + queue == all && |batch| <= MAX_WHO_TARGETS
    && |batch| + Fill(queue, |batch|, len, budget) == BatchSize(all, budget)
  }

  predicate PopStops(batch: seq<string>, queue: seq<string>, len: nat, budget: nat) {
    queue == [] || |batch| >= MAX_WHO_TARGETS || (len + Added(queue[0], |batch|) > budget && batch != [])
  }

  lemma PopOne(all: seq<string>, batch: seq<string>, queue: seq<string>, len: nat, budget: nat)
    requires Popping(all, batch, queue, len, budget) && !PopStops(batch, queue, len, budget)
    ensures Popping(all, batch + [queue[0]], queue[1..], len + Added(queue[0], |batch|), budget)
  {
    assert (batch + [queue[0]]) + queue[1..] == batch + queue;
  }

  lemma PopDone(all: seq<string>, batch: seq<string>, queue: seq<string>, len: nat, budget: nat)
    requires Popping(all, batch, queue, len, budget) && PopStops(batch, queue, len, budget)
    ensures |batch| == BatchSize(all, budget) && all[..|batch|] == batch && all[|batch|..] == queue
  {
    assert (batch + queue)[..|batch|] == batch && (batch + queue)[|batch|..] == queue;
  }

  function SentOn(sent: map<string, seq<string>>, id: string): Sent {
    if id in sent then Some(sent[id]) else None
  }

  class Scheduler {
    var queues: map<string, seq<string>>
    var inFlight: map<string, set<string>>
    var sentAt: map<string, real>
    var handles: set<string>
    var whox: set<string>

    constructor ()
      ensures forall id :: View(id) == NEW_CONN
    {
      queues, inFlight, sentAt, handles, whox := map[], map[], map[], {}, {};
    }

    function View(id: string): Conn
      reads this
    {
      Conn(id in handles, id in whox, if id in queues then queues[id] else [],
           if id in inFlight then Some(inFlight[id]) else None, if id in sentAt then Some(sentAt[id]) else None)
    }

    method QueueChannelQuery(id: string, ch: string, now: real) returns (sent: Sent)
      modifies this
      ensures (View(id), sent) == Enqueue(old(View(id)), ch, now)
      ensures forall other :: other != id ==> View(other) == old(View(other))
    {
      queues := queues[id := (if id in queues then queues[id] else []) + [ch]];
      if id !in inFlight {
        sent := SendChannelQueryBatch(id, now);
      } else {
        sent := None;
      }
    }

    method SendChannelQueryBatch(id: string, now: real) returns (sent: Sent)
      modifies this
      ensures (View(id), sent) == SendBatch(old(View(id)), now)
      ensures forall other :: other != id ==> View(other) == old(View(other))
    {
      if id !in queues || queues[id] == [] {
        inFlight := inFlight - {id};
        sentAt := sentAt - {id};
        return None;
      }
      var batch := TakeBatch(id);
      if id !in handles {
        inFlight := inFlight - {id};
        return None;
      }
      inFlight := inFlight[id := SetOf(batch)];
      sentAt := sentAt[id := now];
      return Some(batch);
    }

    /** The popping loop. */
    method TakeBatch(id: string) returns (batch: seq<string>)
      requires id in queues
      modifies this`queues
      ensures var q := old(queues)[id]; var k := BatchSize(q, Budget(id in whox));
              batch == q[..k] && queues == old(queues)[id := q[k..]]
    {
      var budget := Budget(id in whox);
      var queue := queues[id];
      ghost var all := queue;
      batch := [];
      var len: nat := 0;
      while queue != []
        invariant queues == old(queues) && Popping(all, batch, queue, len, budget)
      {
        var ch := queue[0];
        if |batch| >= MAX_WHO_TARGETS {
          break;
        }
        var add := Added(ch, |batch|);
        if len + add > budget && batch != [] {
          break;
        }
        PopOne(all, batch, queue, len, budget);
        len := len + add;
        batch := batch + [ch];
        queue := queue[1..];
      }
      PopDone(all, batch, queue, len, budget);
      queues := queues[id := queue];
    }

    method HandleWhoBatchComplete(id: string, target: string, now: real) returns (sent: Sent)
      modifies this
      ensures Completes(old(View(id)), target, now, View(id), sent)
      ensures forall other :: other != id ==> View(other) == old(View(other))
    {
      if id !in inFlight {
        return None;
      }
      var left := StrikeOff(inFlight[id], target);
      if left == {} {
        inFlight := inFlight - {id};
        sent := SendChannelQueryBatch(id, now);
      } else {
        inFlight := inFlight[id := left];
        sent := None;
      }
    }

    method CheckStaleWhoBatches(now: real) returns (sent: map<string, seq<string>>)
      modifies this
      ensures forall id :: (View(id), SentOn(sent, id)) == Tick(old(View(id)), now)
    {
      sent := map[];
      var stale := set id <- sentAt | now - sentAt[id] > STALE_SECS;
      while stale != {}
        invariant forall id <- stale :: View(id) == old(View(id)) && IsStale(old(View(id)), now)
        invariant forall id :: id in sent ==> id !in stale
        invariant forall id :: id !in stale ==> (View(id), SentOn(sent, id)) == Tick(old(View(id)), now)
        decreases |stale|
      {
        var id :| id in stale;
        stale := stale - {id};
        var batch := DropStaleBatch(id, now);
        if batch.Some? {
          sent := sent[id := batch.value];
        }
      }
    }

    /** Forgets the batch in flight and sends the next. */
    method DropStaleBatch(id: string, now: real) returns (sent: Sent)
      modifies this
      ensures (View(id), sent) == SendBatch(old(View(id)).(inFlight := None, sentAt := None), now)
      ensures forall other :: other != id ==> View(other) == old(View(other))
    {
      inFlight := inFlight - {id};
      sentAt := sentAt - {id};
      sent := SendChannelQueryBatch(id, now);
    }

    method OnHandleReady(id: string)
      modifies this
      ensures View(id) == old(View(id)).(ready := true)
      ensures forall other :: other != id ==> View(other) == old(View(other))
    {
      handles := handles + {id};
    }

    method OnDisconnected(id: string)
      modifies this
      ensures View(id) == old(View(id)).(ready := false, queue := [], inFlight := None, sentAt := None)
      ensures forall other :: other != id ==> View(other) == old(View(other))
    {
      handles := handles - {id};
      queues := queues - {id};
      inFlight := inFlight - {id};
      sentAt := sentAt - {id};
    }
  }

  /** Strikes the target off, as a whole and, where it is a list, name by name. */
  method StrikeOff(entries: set<string>, target: string) returns (left: set<string>)
    ensures RemovesAll(entries, Settled(target), left)
  {
    left := RemoveCaseInsensitive(entries, target);
    assert RemovesAll(entries, [], entries) && RemovesThen(entries, [], target, left);
    assert [target][..0] == [];
    assert RemovesAll(entries, [target], left);
    assert [target] + [] == [target];
    if ',' in target {
      var names := SplitCommas(target);
      assert names[..0] == [];
      for i := 0 to |names|
        invariant RemovesAll(entries, [target] + names[..i], left)
      {
        ghost var (before, done) := (left, [target] + names[..i]);
        left := RemoveCaseInsensitive(left, names[i]);
        assert RemovesThen(entries, done, names[i], left) by {
          assert RemovesAll(entries, done, before) && RemovesOne(before, names[i], left);
        }
        ghost var more := [target] + names[..i + 1];
        assert more[..|more| - 1] == done && more[|more| - 1] == names[i];
      }
      assert names[..|names|] == names;
    }
  }
}
