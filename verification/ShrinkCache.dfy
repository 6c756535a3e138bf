/** Resolving the links of a message: from a bounded cache where it can, by request where it must, and in
    the order of the links either way. */
module ShrinkCache {
  import opened Basics
  import opened Shrink

  datatype Entry = Entry(url: string, sh: Shortening)

  // ---------------------------------------------------------------- the cache as a list, oldest entry first

  function Position(entries: seq<Entry>, url: string): (i: nat)
    ensures i <= |entries| && (i < |entries| ==> entries[i].url == url)
    ensures forall j | 0 <= j < i :: entries[j].url != url
  {
    if entries == [] || entries[0].url == url then 0 else 1 + Position(entries[1..], url)
  }

  function Cached(entries: seq<Entry>, url: string): Option<Shortening> {
    var i := Position(entries, url);
    if i < |entries| then Some(entries[i].sh) else None
  }

  /** A hit moves its entry to the newest end. */
  function AfterGet(entries: seq<Entry>, url: string): seq<Entry> {
    var i := Position(entries, url);
    if i == |entries| then entries else Without(entries, i) + [entries[i]]
  }

  /** A new entry goes to the newest end; it replaces the one of its url or, when there is no room, the oldest. */
  function AfterInsert(entries: seq<Entry>, cap: nat, url: string, sh: Shortening): seq<Entry> {
    var i := Position(entries, url);
    var kept := if i < |entries| then Without(entries, i)
                else if |entries| >= cap && entries != [] then entries[1..]
                else entries;
    kept + [Entry(url, sh)]
  }

  predicate DistinctUrls(entries: seq<Entry>) {
    forall i, j | 0 <= i < j < |entries| :: entries[i].url != entries[j].url
  }

  class Cache {
    var entries: seq<Entry>
    const cap: nat

    ghost predicate Valid()
      reads this
    {
      cap >= 1 && |entries| <= cap && DistinctUrls(entries)
    }

    /** A capacity of zero counts as one. */
    constructor (cap: nat)
      ensures Valid() && entries == [] && this.cap == if cap == 0 then 1 else cap
    {
      entries := [];
      this.cap := if cap == 0 then 1 else cap;
    }

    method Get(url: string) returns (hit: Option<Shortening>)
      requires Valid()
      modifies this
      ensures Valid() && entries == AfterGet(old(entries), url)
      ensures hit == Cached(old(entries), url)
    {
      var i := Position(entries, url);
      if i == |entries| {
        return None;
      }
      var entry := entries[i];
      GetKeepsDistinct(entries, url);
      entries := Without(entries, i) + [entry];
      return Some(entry.sh);
    }

    method Insert(url: string, sh: Shortening)
      requires Valid()
      modifies this
      ensures Valid() && entries == AfterInsert(old(entries), cap, url, sh)
    {
      InsertKeepsDistinct(entries, cap, url, sh);
      var i := Position(entries, url);
      if i < |entries| {
        entries := Without(entries, i);
      } else if |entries| >= cap {
        entries := entries[1..];
      }
      entries := entries + [Entry(url, sh)];
    }
  }

  lemma GetKeepsDistinct(entries: seq<Entry>, url: string)
    requires DistinctUrls(entries)
    ensures DistinctUrls(AfterGet(entries, url)) && |AfterGet(entries, url)| == |entries|
  {
  }

  lemma InsertKeepsDistinct(entries: seq<Entry>, cap: nat, url: string, sh: Shortening)
    requires DistinctUrls(entries) && |entries| <= cap && cap >= 1
    ensures DistinctUrls(AfterInsert(entries, cap, url, sh)) && |AfterInsert(entries, cap, url, sh)| <= cap
  {
  }

  // ---------------------------------------------------------------- least recently used goes first

  datatype Use = Lookup(url: string) | Store(url: string, sh: Shortening)

  function AfterUse(entries: seq<Entry>, cap: nat, use: Use): seq<Entry> {
    match use
    case Lookup(url) => AfterGet(entries, url)
    case Store(url, sh) => AfterInsert(entries, cap, url, sh)
  }

  function AfterUses(entries: seq<Entry>, cap: nat, uses: seq<Use>): seq<Entry> {
    if uses == [] then entries else AfterUse(AfterUses(entries, cap, uses[..|uses| - 1]), cap, uses[|uses| - 1])
  }

  function Urls(uses: seq<Use>): set<string> {
    set use | use in uses :: use.url
  }

  function UrlsFrom(entries: seq<Entry>, i: nat): (s: set<string>)
    requires i <= |entries|
  {
    set j | i <= j < |entries| :: entries[j].url
  }

  /** The entry is there, and only urls of `newer` stand nearer the newest end. */
  ghost predicate Shielded(entries: seq<Entry>, entry: Entry, newer: set<string>) {
    exists i :: 0 <= i < |entries| && entries[i] == entry && UrlsFrom(entries, i + 1) <= newer
  }

  lemma {:induction false} DistinctCount(entries: seq<Entry>, i: nat)
    requires DistinctUrls(entries) && i <= |entries|
    ensures |UrlsFrom(entries, i)| == |entries| - i
    decreases |entries| - i
  {
    if i < |entries| {
      DistinctCount(entries, i + 1);
      assert UrlsFrom(entries, i) == {entries[i].url} + UrlsFrom(entries, i + 1);
      assert entries[i].url !in UrlsFrom(entries, i + 1);
    }
  }

  /** Taking out another entry and putting one at the newest end leaves a shielded entry shielded. */
  lemma MovedShields(entries: seq<Entry>, entry: Entry, newer: set<string>, j: nat, last: Entry)
    requires Shielded(entries, entry, newer) && j < |entries| && entries[j] != entry
    ensures Shielded(Without(entries, j) + [last], entry, newer + {last.url})
  {
    var i :| 0 <= i < |entries| && entries[i] == entry && UrlsFrom(entries, i + 1) <= newer;
    var after := Without(entries, j) + [last];
    var k := if j < i then i - 1 else i;
    assert after[k] == entry;
    forall m | k + 1 <= m < |after|
      ensures after[m].url in newer + {last.url}
    {
      if m < |after| - 1 {
        var was := if m < j then m else m + 1;
        assert after[m] == entries[was] && was >= i + 1;
        assert entries[was].url in UrlsFrom(entries, i + 1);
      }
    }
  }

  lemma AddedShields(entries: seq<Entry>, entry: Entry, newer: set<string>, last: Entry)
    requires Shielded(entries, entry, newer)
    ensures Shielded(entries + [last], entry, newer + {last.url})
  {
    var i :| 0 <= i < |entries| && entries[i] == entry && UrlsFrom(entries, i + 1) <= newer;
    var after := entries + [last];
    assert after[i] == entry;
    forall m | i + 1 <= m < |after|
      ensures after[m].url in newer + {last.url}
    {
      if m < |entries| {
        assert entries[m].url in UrlsFrom(entries, i + 1);
      }
    }
  }

  lemma WiderShields(entries: seq<Entry>, entry: Entry, newer: set<string>, wider: set<string>)
    requires Shielded(entries, entry, newer) && newer <= wider
    ensures Shielded(entries, entry, wider)
  {
  }

  /** A full cache drops a shielded entry only to make room for as many newer ones as it can hold. */
  lemma NotTheOldest(entries: seq<Entry>, cap: nat, entry: Entry, newer: set<string>, url: string)
    requires DistinctUrls(entries) && Shielded(entries, entry, newer) && |entries| >= cap
    requires Position(entries, url) == |entries| && |newer + {url}| < cap
    ensures entries[0] != entry
  {
    var i :| 0 <= i < |entries| && entries[i] == entry && UrlsFrom(entries, i + 1) <= newer;
    DistinctCount(entries, i + 1);
    var others := UrlsFrom(entries, i + 1);
    assert url !in others;
    SubsetSize(others + {url}, newer + {url});
    assert i > 0;
  }

  lemma {:induction false} SubsetSize(a: set<string>, b: set<string>)
    requires a <= b
    ensures |a| <= |b|
    decreases a
  {
    if a != {} {
      var x :| x in a;
      SubsetSize(a - {x}, b - {x});
    }
  }

  lemma UseShields(entries: seq<Entry>, cap: nat, entry: Entry, newer: set<string>, use: Use)
    requires DistinctUrls(entries) && |entries| <= cap && cap >= 1 && use.url != entry.url
    requires Shielded(entries, entry, newer) && |newer + {use.url}| < cap
    ensures Shielded(AfterUse(entries, cap, use), entry, newer + {use.url})
  {
    var j := Position(entries, use.url);
    if j < |entries| {
      MovedShields(entries, entry, newer, j, if use.Lookup? then entries[j] else Entry(use.url, use.sh));
    } else if use.Lookup? {
      WiderShields(entries, entry, newer, newer + {use.url});
    } else if |entries| >= cap {
      NotTheOldest(entries, cap, entry, newer, use.url);
      assert entries[1..] == Without(entries, 0);
      MovedShields(entries, entry, newer, 0, Entry(use.url, use.sh));
    } else {
      AddedShields(entries, entry, newer, Entry(use.url, use.sh));
    }
  }

  /** An entry just used outlives every sequence of uses of fewer other urls than the cache has places. */
  lemma {:induction false} RecentSurvive(entries: seq<Entry>, cap: nat, entry: Entry, uses: seq<Use>)
    requires DistinctUrls(entries) && |entries| <= cap && cap >= 1 && Shielded(entries, entry, {})
    requires entry.url !in Urls(uses) && |Urls(uses)| < cap
    ensures DistinctUrls(AfterUses(entries, cap, uses)) && |AfterUses(entries, cap, uses)| <= cap
    ensures Shielded(AfterUses(entries, cap, uses), entry, Urls(uses))
  {
    if uses == [] {
      WiderShields(entries, entry, {}, Urls(uses));
    } else {
      var (init, last) := (uses[..|uses| - 1], uses[|uses| - 1]);
      assert Urls(uses) == Urls(init) + {last.url};
      assert last in uses;
      SubsetSize(Urls(init), Urls(uses));
      RecentSurvive(entries, cap, entry, init);
      var before := AfterUses(entries, cap, init);
      UseShields(before, cap, entry, Urls(init), last);
      match last
      case Lookup(url) => GetKeepsDistinct(before, url);
      case Store(url, sh) => InsertKeepsDistinct(before, cap, url, sh);
    }
  }

  /** What was just looked up or stored is the newest entry, which nothing shields. */
  lemma UsedIsNewest(entries: seq<Entry>, cap: nat, use: Use)
    requires Position(entries, use.url) < |entries| || use.Store?
    ensures var after := AfterUse(entries, cap, use);
            after != [] && after[|after| - 1].url == use.url && Shielded(after, after[|after| - 1], {})
  {
    var after := AfterUse(entries, cap, use);
    assert UrlsFrom(after, |after|) == {};
  }

  lemma UseKeepsDistinct(entries: seq<Entry>, cap: nat, use: Use)
    requires DistinctUrls(entries) && |entries| <= cap && cap >= 1
    ensures DistinctUrls(AfterUse(entries, cap, use)) && |AfterUse(entries, cap, use)| <= cap
  {
    match use
    case Lookup(url) => GetKeepsDistinct(entries, url);
    case Store(url, sh) => InsertKeepsDistinct(entries, cap, url, sh);
  }

  /** So a url that was found or stored is still cached after any uses of fewer other urls than the cache has
      places. */
  lemma UsedSurvives(entries: seq<Entry>, cap: nat, use: Use, uses: seq<Use>)
    requires DistinctUrls(entries) && |entries| <= cap && cap >= 1
    requires Position(entries, use.url) < |entries| || use.Store?
    requires use.url !in Urls(uses) && |Urls(uses)| < cap
    ensures Cached(AfterUses(AfterUse(entries, cap, use), cap, uses), use.url)
            == Some(if use.Store? then use.sh else entries[Position(entries, use.url)].sh)
  {
    var after := AfterUse(entries, cap, use);
    var entry := after[|after| - 1];
    UsedIsNewest(entries, cap, use);
    UseKeepsDistinct(entries, cap, use);
    RecentSurvive(after, cap, entry, uses);
    var later := AfterUses(after, cap, uses);
    var i :| 0 <= i < |later| && later[i] == entry;
    PositionIs(later, i);
  }

  lemma AfterUsesOneMore(entries: seq<Entry>, cap: nat, uses: seq<Use>, use: Use)
    ensures AfterUses(entries, cap, uses + [use]) == AfterUse(AfterUses(entries, cap, uses), cap, use)
  {
    assert (uses + [use])[..|uses|] == uses;
  }

  lemma {:induction false} AfterUsesAppend(entries: seq<Entry>, cap: nat, a: seq<Use>, b: seq<Use>)
    ensures AfterUses(AfterUses(entries, cap, a), cap, b) == AfterUses(entries, cap, a + b)
  {
    AppendSplits(a, b);
    if b != [] {
      AfterUsesAppend(entries, cap, a, b[..|b| - 1]);
      BothOneMore(entries, cap, a, b[..|b| - 1], b[|b| - 1]);
    }
  }

  lemma AppendSplits(a: seq<Use>, b: seq<Use>)
    ensures if b == [] then a + b == a
            else
              var (init, last) := (b[..|b| - 1], b[|b| - 1]);
              b == init + [last] && a + b == (a + init) + [last]
  {
  }

  lemma BothOneMore(entries: seq<Entry>, cap: nat, a: seq<Use>, b: seq<Use>, use: Use)
    requires AfterUses(AfterUses(entries, cap, a), cap, b) == AfterUses(entries, cap, a + b)
    ensures AfterUses(AfterUses(entries, cap, a), cap, b + [use]) == AfterUses(entries, cap, (a + b) + [use])
  {
    AfterUsesOneMore(entries, cap, a + b, use);
    AfterUsesOneMore(AfterUses(entries, cap, a), cap, b, use);
  }

  // ---------------------------------------------------------------- resolving

  const PER_MESSAGE_CONCURRENCY := 4

  type Indexed = (nat, Shortening)

  /** What a link resolves to: its cached shortening, else the answer to a request. */
  function Answer(entries: seq<Entry>, shorten: string -> Option<Shortening>, url: string): Option<Shortening> {
    var hit := Cached(entries, url);
    if hit.Some? then hit else shorten(url)
  }

  /** The resolved links among the first `n`, each with its place. */
  function Resolved(entries: seq<Entry>, shorten: string -> Option<Shortening>, urls: seq<string>, n: nat)
    : seq<Indexed>
    requires n <= |urls|
  {
    if n == 0 then []
    else
      var before := Resolved(entries, shorten, urls, n - 1);
      var sh := Answer(entries, shorten, urls[n - 1]);
      if sh.Some? then before + [(n - 1, sh.value)] else before
  }

  function Hits(entries: seq<Entry>, urls: seq<string>, n: nat): seq<Indexed>
    requires n <= |urls|
  {
    if n == 0 then []
    else
      var before := Hits(entries, urls, n - 1);
      var hit := Cached(entries, urls[n - 1]);
      if hit.Some? then before + [(n - 1, hit.value)] else before
  }

  function Misses(entries: seq<Entry>, urls: seq<string>, n: nat): seq<(nat, string)>
    requires n <= |urls|
  {
    if n == 0 then []
    else
      var before := Misses(entries, urls, n - 1);
      if Cached(entries, urls[n - 1]).None? then before + [(n - 1, urls[n - 1])] else before
  }

  function Answers(shorten: string -> Option<Shortening>, misses: seq<(nat, string)>)
    : (r: seq<(nat, Option<Shortening>)>)
    ensures |r| == |misses|
  {
    seq(|misses|, i requires 0 <= i < |misses| => (misses[i].0, shorten(misses[i].1)))
  }

  function Succeeded(results: seq<(nat, Option<Shortening>)>): seq<Indexed> {
    if results == [] then []
    else
      var before := Succeeded(results[..|results| - 1]);
      var (i, sh) := results[|results| - 1];
      if sh.Some? then before + [(i, sh.value)] else before
  }

  function Lookups(urls: seq<string>): seq<Use> {
    seq(|urls|, i requires 0 <= i < |urls| => Lookup(urls[i]))
  }

  function Stores(answered: seq<Indexed>): seq<Use> {
    seq(|answered|, i requires 0 <= i < |answered| => Store(answered[i].1.original, answered[i].1))
  }

  /** What happens to the cache while a message is resolved: every link is looked up; the other worker uses it
      while the requests are out and the lock is free; then every answer is stored. */
  function UsesOf(entries: seq<Entry>, shorten: string -> Option<Shortening>, urls: seq<string>, others: seq<Use>)
    : seq<Use>
  {
    Lookups(urls) + others + Stores(Succeeded(Answers(shorten, Misses(entries, urls, |urls|))))
  }

  // Stable sorting by place.

  function InsertIndexed(list: seq<Indexed>, x: Indexed): seq<Indexed> {
    if list == [] || list[0].0 > x.0 then [x] + list else [list[0]] + InsertIndexed(list[1..], x)
  }

  function SortIndexed(list: seq<Indexed>): seq<Indexed> {
    if list == [] then [] else InsertIndexed(SortIndexed(list[..|list| - 1]), list[|list| - 1])
  }

  function Values(list: seq<Indexed>): seq<Shortening> {
    seq(|list|, i requires 0 <= i < |list| => list[i].1)
  }

  /** `resolve_shortenings`: lookups first, then requests four at a time, then the cache is filled. `others` is
      what the other worker does to the cache in the meantime. */
  method ResolveShortenings(cache: Cache, urls: seq<string>, shorten: string -> Option<Shortening>, others: seq<Use>)
    returns (r: seq<Shortening>)
    requires cache.Valid()
    modifies cache
    ensures cache.Valid()
    ensures r == Values(Resolved(old(cache.entries), shorten, urls, |urls|))
    ensures cache.entries
            == AfterUses(old(cache.entries), cache.cap, UsesOf(old(cache.entries), shorten, urls, others))
  {
    var hits, misses := LookUpAll(cache, urls);
    var results := RequestAll(misses, shorten);
    UseAll(cache, others);
    var answered := StoreAll(cache, results);
    AfterUsesAppend(old(cache.entries), cache.cap, Lookups(urls), others);
    AfterUsesAppend(old(cache.entries), cache.cap, Lookups(urls) + others, Stores(answered));
    ResolvedInOrder(old(cache.entries), shorten, urls, |urls|);
    r := Values(SortIndexed(hits + answered));
  }

  method UseAll(cache: Cache, uses: seq<Use>)
    requires cache.Valid()
    modifies cache
    ensures cache.Valid()
    ensures cache.entries == AfterUses(old(cache.entries), cache.cap, uses)
  {
    for i := 0 to |uses|
      invariant cache.Valid() && cache.entries == AfterUses(old(cache.entries), cache.cap, uses[..i])
    {
      assert uses[..i + 1] == uses[..i] + [uses[i]];
      AfterUsesOneMore(old(cache.entries), cache.cap, uses[..i], uses[i]);
      match uses[i]
      case Lookup(url) => var _ := cache.Get(url);
      case Store(url, sh) => cache.Insert(url, sh);
    }
    assert uses[..|uses|] == uses;
  }

  method StoreAll(cache: Cache, results: seq<(nat, Option<Shortening>)>) returns (answered: seq<Indexed>)
    requires cache.Valid()
    modifies cache
    ensures cache.Valid()
    ensures answered == Succeeded(results)
    ensures cache.entries == AfterUses(old(cache.entries), cache.cap, Stores(answered))
  {
    answered := [];
    ghost var before := cache.entries;
    for i := 0 to |results|
      invariant cache.Valid() && answered == Succeeded(results[..i])
      invariant cache.entries == AfterUses(before, cache.cap, Stores(answered))
    {
      OneMoreStored(before, cache.cap, results, i);
      var (idx, res) := results[i];
      if res.Some? {
        cache.Insert(res.value.original, res.value);
        answered := answered + [(idx, res.value)];
      }
    }
    assert results[..|results|] == results;
  }

  lemma OneMoreStored(entries: seq<Entry>, cap: nat, results: seq<(nat, Option<Shortening>)>, i: nat)
    requires i < |results|
    ensures Succeeded(results[..i + 1]) == Succeeded(results[..i])
                                           + if results[i].1.Some? then [(results[i].0, results[i].1.value)] else []
    ensures var before := AfterUses(entries, cap, Stores(Succeeded(results[..i])));
            AfterUses(entries, cap, Stores(Succeeded(results[..i + 1])))
            == if results[i].1.None? then before
               else AfterInsert(before, cap, results[i].1.value.original, results[i].1.value)
  {
    var (idx, res) := results[i];
    assert results[..i + 1] == results[..i] + [results[i]];
    SucceededAppend(results[..i], results[i]);
    var done := Succeeded(results[..i]);
    if res.Some? {
      assert Stores(done + [(idx, res.value)]) == Stores(done) + [Store(res.value.original, res.value)];
      AfterUsesOneMore(entries, cap, Stores(done), Store(res.value.original, res.value));
    }
  }

  lemma OneMoreLookedUp(entries: seq<Entry>, cap: nat, urls: seq<string>, i: nat)
    requires i < |urls|
    ensures AfterUses(entries, cap, Lookups(urls[..i + 1]))
            == AfterGet(AfterUses(entries, cap, Lookups(urls[..i])), urls[i])
  {
    assert Lookups(urls[..i + 1]) == Lookups(urls[..i]) + [Lookup(urls[i])];
    AfterUsesOneMore(entries, cap, Lookups(urls[..i]), Lookup(urls[i]));
  }

  lemma GetKeepsAllCached(entries: seq<Entry>, got: string)
    requires DistinctUrls(entries)
    ensures forall url :: Cached(AfterGet(entries, got), url) == Cached(entries, url)
  {
    forall url
      ensures Cached(AfterGet(entries, got), url) == Cached(entries, url)
    {
      GetKeepsCached(entries, got, url);
    }
  }

  method LookUpAll(cache: Cache, urls: seq<string>) returns (hits: seq<Indexed>, misses: seq<(nat, string)>)
    requires cache.Valid()
    modifies cache
    ensures cache.Valid()
    ensures hits == Hits(old(cache.entries), urls, |urls|) && misses == Misses(old(cache.entries), urls, |urls|)
    ensures cache.entries == AfterUses(old(cache.entries), cache.cap, Lookups(urls))
  {
    hits, misses := [], [];
    ghost var before := cache.entries;
    for i := 0 to |urls|
      invariant cache.Valid() && hits == Hits(before, urls, i) && misses == Misses(before, urls, i)
      invariant forall url :: Cached(cache.entries, url) == Cached(before, url)
      invariant cache.entries == AfterUses(before, cache.cap, Lookups(urls[..i]))
    {
      ghost var now := cache.entries;
      OneMoreLookedUp(before, cache.cap, urls, i);
      var hit := cache.Get(urls[i]);
      GetKeepsAllCached(now, urls[i]);
      if hit.Some? {
        hits := hits + [(i, hit.value)];
      } else {
        misses := misses + [(i, urls[i])];
      }
    }
    assert urls[..|urls|] == urls;
  }

  lemma PositionIs(entries: seq<Entry>, i: nat)
    requires DistinctUrls(entries) && i < |entries|
    ensures Position(entries, entries[i].url) == i
  {
  }

  lemma GetKeepsCached(entries: seq<Entry>, got: string, url: string)
    requires DistinctUrls(entries)
    ensures Cached(AfterGet(entries, got), url) == Cached(entries, url)
  {
    var (i, k) := (Position(entries, got), Position(entries, url));
    var after := AfterGet(entries, got);
    GetKeepsDistinct(entries, got);
    if i < |entries| {
      if k < |entries| {
        var place := if k == i then |entries| - 1 else if k < i then k else k - 1;
        assert after[place] == entries[k];
        PositionIs(after, place);
      } else {
        assert forall j | 0 <= j < |after| :: after[j] in entries;
      }
    }
  }

  method RequestAll(misses: seq<(nat, string)>, shorten: string -> Option<Shortening>)
    returns (results: seq<(nat, Option<Shortening>)>)
    ensures results == Answers(shorten, misses)
  {
    results := [];
    var k := 0;
    while k < |misses|
      invariant 0 <= k <= |misses| && results == Answers(shorten, misses[..k])
    {
      var end := if k + PER_MESSAGE_CONCURRENCY < |misses| then k + PER_MESSAGE_CONCURRENCY else |misses|;
      var chunk := misses[k..end];
      results := results + Answers(shorten, chunk);
      k := end;
    }
    assert misses[..|misses|] == misses;
  }

  predicate Ascending(list: seq<Indexed>) {
    forall i, j | 0 <= i < j < |list| :: list[i].0 < list[j].0
  }

  lemma {:induction false} ResolvedAscends(entries: seq<Entry>, shorten: string -> Option<Shortening>,
                                          urls: seq<string>, n: nat)
    requires n <= |urls|
    ensures Ascending(Resolved(entries, shorten, urls, n))
    ensures forall x | x in Resolved(entries, shorten, urls, n) :: x.0 < n
  {
    if n > 0 {
      ResolvedAscends(entries, shorten, urls, n - 1);
    }
  }

  lemma {:induction false} SucceededAppend(results: seq<(nat, Option<Shortening>)>, x: (nat, Option<Shortening>))
    ensures Succeeded(results + [x]) == Succeeded(results) + if x.1.Some? then [(x.0, x.1.value)] else []
  {
    assert (results + [x])[..|results|] == results;
  }

  /** Hits and answered misses together are the resolved links. */
  lemma {:induction false} SameLinks(entries: seq<Entry>, shorten: string -> Option<Shortening>, urls: seq<string>,
                                    n: nat)
    requires n <= |urls|
    ensures multiset(Hits(entries, urls, n)) + multiset(Succeeded(Answers(shorten, Misses(entries, urls, n))))
         == multiset(Resolved(entries, shorten, urls, n))
  {
    if n > 0 {
      SameLinks(entries, shorten, urls, n - 1);
      var (hits, misses) := (Hits(entries, urls, n - 1), Misses(entries, urls, n - 1));
      var (url, before) := (urls[n - 1], Resolved(entries, shorten, urls, n - 1));
      var hit := Cached(entries, url);
      if hit.Some? {
        OneMoreLink(hits, Succeeded(Answers(shorten, misses)), before, (n - 1, hit.value));
      } else {
        AnswersAppend(shorten, misses, (n - 1, url));
        if shorten(url).Some? {
          OneMoreLink(hits, Succeeded(Answers(shorten, misses)), before, (n - 1, shorten(url).value));
        }
      }
    }
  }

  lemma OneMoreLink(hits: seq<Indexed>, answered: seq<Indexed>, all: seq<Indexed>, x: Indexed)
    requires multiset(hits) + multiset(answered) == multiset(all)
    ensures multiset(hits + [x]) + multiset(answered) == multiset(all + [x])
    ensures multiset(hits) + multiset(answered + [x]) == multiset(all + [x])
  {
  }

  lemma AnswersAppend(shorten: string -> Option<Shortening>, misses: seq<(nat, string)>, miss: (nat, string))
    ensures var sh := shorten(miss.1);
            Succeeded(Answers(shorten, misses + [miss]))
            == Succeeded(Answers(shorten, misses)) + if sh.Some? then [(miss.0, sh.value)] else []
  {
    assert Answers(shorten, misses + [miss]) == Answers(shorten, misses) + [(miss.0, shorten(miss.1))];
    SucceededAppend(Answers(shorten, misses), (miss.0, shorten(miss.1)));
  }

  lemma {:induction false} InsertIndexedAdds(list: seq<Indexed>, x: Indexed)
    ensures multiset(InsertIndexed(list, x)) == multiset(list) + multiset{x}
  {
    if list != [] && list[0].0 <= x.0 {
      InsertIndexedAdds(list[1..], x);
      assert list == [list[0]] + list[1..];
    }
  }

  predicate Rising(list: seq<Indexed>) {
    forall i, j | 0 <= i < j < |list| :: list[i].0 <= list[j].0
  }

  lemma {:induction false} InsertIndexedRises(list: seq<Indexed>, x: Indexed)
    requires Rising(list)
    ensures Rising(InsertIndexed(list, x))
  {
    if list != [] && list[0].0 <= x.0 {
      InsertIndexedRises(list[1..], x);
      InsertIndexedAdds(list[1..], x);
      var tail := InsertIndexed(list[1..], x);
      forall j | 0 <= j < |tail|
        ensures list[0].0 <= tail[j].0
      {
        assert tail[j] in multiset(tail);
        assert tail[j] in list[1..] || tail[j] == x;
      }
    }
  }

  lemma {:induction false} SortIndexedMeans(list: seq<Indexed>)
    ensures Rising(SortIndexed(list)) && multiset(SortIndexed(list)) == multiset(list)
  {
    if list != [] {
      var (init, last) := (list[..|list| - 1], list[|list| - 1]);
      assert list == init + [last];
      SortIndexedMeans(init);
      InsertIndexedAdds(SortIndexed(init), last);
      InsertIndexedRises(SortIndexed(init), last);
    }
  }

  lemma SmallestFirst(a: seq<Indexed>, b: seq<Indexed>)
    requires Rising(a) && Ascending(b) && multiset(a) == multiset(b) && b != []
    ensures a != [] && a[0] == b[0] && multiset(a[1..]) == multiset(b[1..])
  {
    assert |a| == |multiset(a)| == |multiset(b)| == |b|;
    assert a[0] in multiset(b) && b[0] in multiset(a);
    var i :| 0 <= i < |b| && b[i] == a[0];
    var j :| 0 <= j < |a| && a[j] == b[0];
    assert a[0].0 <= a[j].0 && b[0].0 <= b[i].0;
    assert a == [a[0]] + a[1..] && b == [b[0]] + b[1..];
    TailsAlike(a[0], a[1..], b[1..]);
  }

  lemma TailsAlike(x: Indexed, a: seq<Indexed>, b: seq<Indexed>)
    requires multiset([x] + a) == multiset([x] + b)
    ensures multiset(a) == multiset(b)
  {
    assert multiset([x] + a) == multiset{x} + multiset(a);
    assert multiset([x] + b) == multiset{x} + multiset(b);
    assert multiset(a) == multiset{x} + multiset(a) - multiset{x};
    assert multiset(b) == multiset{x} + multiset(b) - multiset{x};
  }

  /** A list of different places has one sorted form. */
  lemma {:induction false} SortedIsUnique(a: seq<Indexed>, b: seq<Indexed>)
    requires Rising(a) && Ascending(b) && multiset(a) == multiset(b)
    ensures a == b
    decreases |b|
  {
    if b == [] {
      assert |multiset(a)| == |a|;
    } else {
      SmallestFirst(a, b);
      SortedIsUnique(a[1..], b[1..]);
      assert a == [a[0]] + a[1..] && b == [b[0]] + b[1..];
    }
  }

  /** However hits and answers interleave, the links come out in the order they had in the message. */
  lemma ResolvedInOrder(entries: seq<Entry>, shorten: string -> Option<Shortening>, urls: seq<string>, n: nat)
    requires n <= |urls|
    ensures SortIndexed(Hits(entries, urls, n) + Succeeded(Answers(shorten, Misses(entries, urls, n))))
         == Resolved(entries, shorten, urls, n)
  {
    var list := Hits(entries, urls, n) + Succeeded(Answers(shorten, Misses(entries, urls, n)));
    SortIndexedMeans(list);
    SameLinks(entries, shorten, urls, n);
    ResolvedAscends(entries, shorten, urls, n);
    SortedIsUnique(SortIndexed(list), Resolved(entries, shorten, urls, n));
  }
}
