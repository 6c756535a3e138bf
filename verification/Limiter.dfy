/** The per-handle limiter on inbound KEYREQs (`_allow_incoming`): at most three accepted
    requests per minute, and a five-minute silence once a fourth one arrives. */
module Limiter {

  const MAX_PER_WINDOW := 3
  const WINDOW_SECS := 60.0
  const BACKOFF_SECS := 300.0

  datatype Bucket = Bucket(recent: seq<real>, backoffUntil: real)

  const FRESH_BUCKET := Bucket([], 0.0)

  /** Why a request was let through or dropped. */
  datatype Decision = Accepted | Tripped | BackedOff

  /** The times still inside the minute that ends at `now`. */
  function Live(times: seq<real>, now: real): seq<real> {
    if times == [] then []
    else
      var rest := Live(times[1..], now);
      if now - times[0] < WINDOW_SECS then [times[0]] + rest else rest
  }

  function Decide(b: Bucket, now: real): (Bucket, Decision) {
    if b.backoffUntil > 0.0 && now < b.backoffUntil then (b, BackedOff)
    else
      var recent := Live(if b.backoffUntil > 0.0 then [] else b.recent, now);
      if |recent| >= MAX_PER_WINDOW then (Bucket(recent, now + BACKOFF_SECS), Tripped)
      else (Bucket(recent + [now], if b.backoffUntil > 0.0 then 0.0 else b.backoffUntil), Accepted)
  }

  // ---------------------------------------------------------------- the running program

  class IncomingBucket {
    var recent: seq<real>
    var backoffUntil: real

    function View(): Bucket
      reads this
    {
      Bucket(recent, backoffUntil)
    }

    constructor ()
      ensures View() == FRESH_BUCKET
    {
      recent, backoffUntil := [], 0.0;
    }

    /** Lets one request through or not. */
    method Admit(now: real) returns (ok: bool)
      modifies this
      ensures View() == Decide(old(View()), now).0
      ensures ok <==> Decide(old(View()), now).1.Accepted?
    {
      if backoffUntil > 0.0 && now < backoffUntil {
        return false;
      }
      if backoffUntil > 0.0 && now >= backoffUntil {
        backoffUntil := 0.0;
        recent := [];
      }
      recent := KeepLive(recent, now);
      if |recent| >= MAX_PER_WINDOW {
        backoffUntil := now + BACKOFF_SECS;
        return false;
      }
      recent := recent + [now];
      return true;
    }
  }

  /** The `_incoming_buckets` dictionary. */
  class IncomingLimiter {
    var buckets: map<string, IncomingBucket>

    ghost predicate Valid()
      reads this
    {
      forall h, k :: h in buckets && k in buckets && h != k ==> buckets[h] != buckets[k]
    }

    /** A handle never heard of counts as an empty bucket. */
    function BucketOf(handle: string): Bucket
      reads this, buckets.Values
    {
      if handle in buckets then
        assert buckets[handle] in buckets.Values;
        buckets[handle].View()
      else FRESH_BUCKET
    }

    /** The dictionary as a value. */
    function Views(): map<string, Bucket>
      reads this, buckets.Values
    {
      map h <- buckets ::
        assert buckets[h] in buckets.Values;
        buckets[h].View()
    }

    constructor ()
      ensures Valid() && buckets == map[]
    {
      buckets := map[];
    }

    method AllowIncoming(handle: string, now: real) returns (ok: bool)
      requires Valid()
      modifies this, buckets.Values
      ensures Valid() && fresh(buckets.Values - old(buckets.Values))
      ensures ok <==> Decide(old(BucketOf(handle)), now).1.Accepted?
      ensures Views() == old(Views())[handle := Decide(old(BucketOf(handle)), now).0]
    {
      var bucket: IncomingBucket;
      if handle in buckets {
        bucket := buckets[handle];
        assert bucket in buckets.Values;
      } else {
        bucket := new IncomingBucket();
        buckets := buckets[handle := bucket];
      }
      assert forall other :: other != handle && other in buckets ==> buckets[other] in old(buckets.Values);
      ok := bucket.Admit(now);
    }
  }

  method KeepLive(times: seq<real>, now: real) returns (kept: seq<real>)
    ensures kept == Live(times, now)
  {
    kept := [];
    for i := 0 to |times|
      invariant kept == Live(times[..i], now)
    {
      LiveAppend(times[..i], times[i], now);
      assert times[..i + 1] == times[..i] + [times[i]];
      if now - times[i] < WINDOW_SECS {
        kept := kept + [times[i]];
      }
    }
    assert times[..|times|] == times;
  }

  lemma {:induction false} LiveAppend(times: seq<real>, t: real, now: real)
    ensures Live(times + [t], now) == Live(times, now) + if now - t < WINDOW_SECS then [t] else []
  {
    if times != [] {
      assert (times + [t])[1..] == times[1..] + [t];
      LiveAppend(times[1..], t, now);
    }
  }

  // ---------------------------------------------------------------- what the limiter means

  /** One handled request: when it came and what became of it. */
  datatype Request = Request(at: real, decision: Decision)

  /** The decision taken by looking at the whole history instead of at a bucket. */
  ghost function Reference(history: seq<Request>, now: real): Decision {
    if exists r <- history :: r.decision.Tripped? && now < r.at + BACKOFF_SECS then BackedOff
    else if |Live(AcceptedTimes(history), now)| >= MAX_PER_WINDOW then Tripped
    else Accepted
  }

  function AcceptedTimes(history: seq<Request>): seq<real> {
    if history == [] then []
    else
      var last := history[|history| - 1];
      AcceptedTimes(history[..|history| - 1]) + if last.decision.Accepted? then [last.at] else []
  }

  /** The bucket and the log left by a handle's requests, starting from nothing. */
  function Replay(times: seq<real>): (r: (Bucket, seq<Request>))
    ensures |r.1| == |times|
    ensures forall i | 0 <= i < |times| :: r.1[i].at == times[i]
  {
    if times == [] then (FRESH_BUCKET, [])
    else
      var now := times[|times| - 1];
      var (b, history) := Replay(times[..|times| - 1]);
      var (b', d) := Decide(b, now);
      (b', history + [Request(now, d)])
  }

  ghost predicate Clock(times: seq<real>) {
    && (forall i | 0 <= i < |times| :: times[i] > 0.0)
    && forall i, j | 0 <= i <= j < |times| :: times[i] <= times[j]
  }

  ghost predicate Below(times: seq<real>, bound: real) {
    forall i | 0 <= i < |times| :: times[i] <= bound
  }

  ghost predicate Tracks(b: Bucket, history: seq<Request>, last: real) {
    && (forall r <- history :: 0.0 < r.at <= last)
    && Below(AcceptedTimes(history), last)
    && if b.backoffUntil > 0.0 then
         var trip := b.backoffUntil - BACKOFF_SECS;
         && Request(trip, Tripped) in history
         && (forall r <- history :: r.decision.Tripped? ==> r.at <= trip)
         && Below(AcceptedTimes(history), trip)
       else
         && (forall r <- history :: r.decision.Tripped? ==> r.at + BACKOFF_SECS <= last)
         && SameLiveFrom(b.recent, AcceptedTimes(history), last)
  }

  ghost predicate SameLiveFrom(some: seq<real>, others: seq<real>, last: real) {
    forall now | now >= last :: Live(some, now) == Live(others, now)
  }

  lemma {:induction false} LiveOfOld(times: seq<real>, now: real)
    requires forall i | 0 <= i < |times| :: now - times[i] >= WINDOW_SECS
    ensures Live(times, now) == []
  {
    if times != [] {
      LiveOfOld(times[1..], now);
    }
  }

  lemma {:induction false} LiveTwice(times: seq<real>, earlier: real, now: real)
    requires earlier <= now
    ensures Live(Live(times, earlier), now) == Live(times, now)
  {
    if times != [] {
      LiveTwice(times[1..], earlier, now);
      if earlier - times[0] < WINDOW_SECS {
        var kept := Live(times, earlier);
        assert kept[1..] == Live(times[1..], earlier);
      }
    }
  }

  lemma StepTracks(b: Bucket, history: seq<Request>, last: real, now: real)
    requires Tracks(b, history, last)
    requires 0.0 < now && last <= now
    ensures Decide(b, now).1 == Reference(history, now)
    ensures Tracks(Decide(b, now).0, history + [Request(now, Decide(b, now).1)], now)
  {
    var (b', d) := Decide(b, now);
    var history' := history + [Request(now, d)];
    assert history'[..|history|] == history;
    var times := AcceptedTimes(history);
    if b.backoffUntil > 0.0 {
      var trip := Request(b.backoffUntil - BACKOFF_SECS, Tripped);
      assert trip in history && trip in history';
      if now < b.backoffUntil {
        assert now < trip.at + BACKOFF_SECS;
      } else {
        LiveOfOld(times, now);
      }
    }
    if d.Accepted? {
      var base := if b.backoffUntil > 0.0 then [] else b.recent;
      assert AcceptedTimes(history') == times + [now];
      forall later | later >= now
        ensures Live(b'.recent, later) == Live(times + [now], later)
      {
        LiveAppend(Live(base, now), now, later);
        LiveAppend(times, now, later);
        LiveTwice(base, now, later);
        if b.backoffUntil > 0.0 {
          LiveOfOld(times, later);
        }
      }
    } else if d.Tripped? {
      assert Request(now, d) in history';
    }
  }

  lemma {:induction false} ReplayTracks(times: seq<real>)
    requires Clock(times) && times != []
    ensures Tracks(Replay(times).0, Replay(times).1, times[|times| - 1])
    ensures Replay(times).1[|times| - 1].decision
            == Reference(Replay(times[..|times| - 1]).1, times[|times| - 1])
  {
    var before, now := times[..|times| - 1], times[|times| - 1];
    var (b, history) := Replay(before);
    if before == [] {
      assert Tracks(b, history, now);
      StepTracks(b, history, now, now);
    } else {
      ReplayTracks(before);
      StepTracks(b, history, before[|before| - 1], now);
    }
  }

  lemma {:induction false} ReplayPrefix(times: seq<real>, i: nat)
    requires i <= |times|
    ensures Replay(times).1[..i] == Replay(times[..i]).1
  {
    if i == |times| {
      assert times[..i] == times;
    } else {
      var before := times[..|times| - 1];
      ReplayPrefix(before, i);
      assert before[..i] == times[..i];
      assert Replay(times).1[..i] == Replay(before).1[..i];
    }
  }

  /** The bucket takes, request by request, the decision read off the whole history. */
  lemma LimiterMeetsReference(times: seq<real>, i: nat)
    requires Clock(times) && i < |times|
    ensures Replay(times).1[i] == Request(times[i], Reference(Replay(times).1[..i], times[i]))
  {
    var upTo := times[..i + 1];
    ReplayTracks(upTo);
    ReplayPrefix(times, i);
    ReplayPrefix(times, i + 1);
    assert upTo[..i] == times[..i];
    assert Replay(times).1[i] == Replay(times).1[..i + 1][i];
  }

  /** How many accepted requests fall in the half-open minute starting at `start`. */
  function AcceptedIn(history: seq<Request>, start: real): nat {
    if history == [] then 0
    else
      var last := history[|history| - 1];
      AcceptedIn(history[..|history| - 1], start) +
      if last.decision.Accepted? && start <= last.at < start + WINDOW_SECS then 1 else 0
  }

  lemma {:induction false} AcceptedInAreLive(history: seq<Request>, start: real, now: real)
    requires now < start + WINDOW_SECS
    ensures AcceptedIn(history, start) <= |Live(AcceptedTimes(history), now)|
  {
    if history != [] {
      var before := history[..|history| - 1];
      var last := history[|history| - 1];
      AcceptedInAreLive(before, start, now);
      if last.decision.Accepted? {
        LiveAppend(AcceptedTimes(before), last.at, now);
      } else {
        assert AcceptedTimes(before) + [] == AcceptedTimes(before);
      }
    }
  }

  /** Any half-open minute holds at most three accepted requests. */
  lemma {:induction false} AtMostThreePerMinute(times: seq<real>, start: real)
    requires Clock(times)
    ensures AcceptedIn(Replay(times).1, start) <= MAX_PER_WINDOW
  {
    if times != [] {
      var before := times[..|times| - 1];
      var history := Replay(before).1;
      AtMostThreePerMinute(before, start);
      LimiterMeetsReference(times, |before|);
      ReplayPrefix(times, |before|);
      var last := Replay(times).1[|before|];
      if last.decision.Accepted? && last.at < start + WINDOW_SECS {
        AcceptedInAreLive(history, start, last.at);
      }
    }
  }

  /** A request that trips the limit silences the handle for five minutes. */
  lemma TripSilences(times: seq<real>, i: nat, j: nat)
    requires Clock(times)
    requires i < j < |times| && Replay(times).1[i].decision.Tripped?
    requires times[j] < times[i] + BACKOFF_SECS
    ensures Replay(times).1[j].decision.BackedOff?
  {
    LimiterMeetsReference(times, j);
    var before := Replay(times).1[..j];
    assert before[i] in before;
  }

  /** The first request after the five minutes is let through. */
  lemma TripReopens(times: seq<real>, i: nat, j: nat)
    requires Clock(times)
    requires i < j < |times| && Replay(times).1[i].decision.Tripped?
    requires times[j] >= times[i] + BACKOFF_SECS
    requires forall k | i < k < j :: times[k] < times[i] + BACKOFF_SECS
    ensures Replay(times).1[j].decision.Accepted?
  {
    var before := Replay(times).1[..j];
    forall k | i < k < j
      ensures before[k].decision.BackedOff?
    {
      TripSilences(times, i, k);
    }
    AcceptedBefore(before, i);
    LiveOfOld(AcceptedTimes(before), times[j]);
    assert !exists r <- before :: r.decision.Tripped? && times[j] < r.at + BACKOFF_SECS;
    LimiterMeetsReference(times, j);
  }

  /** If everything after entry `i` was turned away unheard and `i` tripped, all accepted times lie before. */
  lemma AcceptedBefore(history: seq<Request>, i: nat)
    requires i < |history| && history[i].decision.Tripped?
    requires forall k | i < k < |history| :: history[k].decision.BackedOff?
    requires forall k | 0 <= k < i :: history[k].at <= history[i].at
    ensures forall m | 0 <= m < |AcceptedTimes(history)| :: AcceptedTimes(history)[m] <= history[i].at
  {
    AcceptedAreLogged(history);
    var accepted := AcceptedTimes(history);
    forall m | 0 <= m < |accepted|
      ensures accepted[m] <= history[i].at
    {
      var k :| 0 <= k < |history| && history[k] == Request(accepted[m], Accepted);
      assert k < i;
    }
  }

  lemma {:induction false} AcceptedAreLogged(history: seq<Request>)
    ensures forall m | 0 <= m < |AcceptedTimes(history)| :: Request(AcceptedTimes(history)[m], Accepted) in history
  {
    if history != [] {
      AcceptedAreLogged(history[..|history| - 1]);
    }
  }

  // ---------------------------------------------------------------- the decisions by the log

  /** Request `k` of the log was accepted less than a minute before. */
  predicate CountsAt(log: seq<Request>, k: nat, now: real) {
    k < |log| && log[k].decision == Accepted && now - log[k].at < 60.0
  }

  function RecentlyAccepted(log: seq<Request>, now: real): set<nat> {
    set k: nat | k < |log| && CountsAt(log, k, now)
  }

  lemma {:induction false} LiveIsCounted(log: seq<Request>, now: real)
    ensures |Live(AcceptedTimes(log), now)| == |RecentlyAccepted(log, now)|
  {
    if log == [] {
      assert RecentlyAccepted(log, now) == {};
    } else {
      var n := |log| - 1;
      LiveIsCounted(log[..n], now);
      var more: set<nat> := if CountsAt(log, n, now) then {n} else {};
      assert RecentlyAccepted(log, now) == RecentlyAccepted(log[..n], now) + more;
      assert n !in RecentlyAccepted(log[..n], now);
      if log[n].decision.Accepted? {
        LiveAppend(AcceptedTimes(log[..n]), log[n].at, now);
      } else {
        assert AcceptedTimes(log[..n]) + [] == AcceptedTimes(log[..n]);
      }
    }
  }

  /** Whatever the times of a handle's requests: one is turned away unheard exactly within five minutes of one that
      tripped the limit, and otherwise let through exactly if fewer than three were let through in the last minute;
      else it trips the limit. */
  lemma DecisionsInWords(times: seq<real>, i: nat)
    requires Clock(times) && i < |times|
    ensures var log := Replay(times).1;
            var silenced := exists k :: 0 <= k < i && log[k].decision == Tripped && times[i] < times[k] + 300.0;
            && (log[i].decision == BackedOff <==> silenced)
            && (log[i].decision == Accepted <==> !silenced && |RecentlyAccepted(log[..i], times[i])| < 3)
  {
    var log := Replay(times).1;
    LimiterMeetsReference(times, i);
    LiveIsCounted(log[..i], times[i]);
    if k :| 0 <= k < i && log[k].decision == Tripped && times[i] < times[k] + 300.0 {
      assert log[..i][k] in log[..i];
    }
    if r :| r in log[..i] && r.decision.Tripped? && times[i] < r.at + 300.0 {
      var k :| 0 <= k < i && log[..i][k] == r;
      assert log[k] == r;
    }
  }
}
