/** Putting short links into a message: one `replace` call per link, the longest original first. */
module Shrink {
  import opened Basics
  import opened Text
  import opened Utf8

  datatype Shortening = Shortening(original: string, shortened: string)

  // ---------------------------------------------------------------- replacing

  predicate Contains(s: string, pat: string) {
    pat <= s || (s != "" && Contains(s[1..], pat))
  }

  /** `replace("", to)`: once at every character boundary. */
  function Interleave(s: string, to: string): string {
    to + if s == "" then "" else [s[0]] + Interleave(s[1..], to)
  }

  /** `str::replace`: every match, leftmost first, matches not overlapping. */
  function Replace(s: string, pat: string, to: string): string {
    if pat == "" then Interleave(s, to)
    else if s == "" then ""
    else if pat <= s then to + Replace(s[|pat|..], pat, to)
    else [s[0]] + Replace(s[1..], pat, to)
  }

  lemma {:induction false} ReplaceNothing(s: string, pat: string, to: string)
    requires !Contains(s, pat)
    ensures Replace(s, pat, to) == s
  {
    if s != "" {
      ReplaceNothing(s[1..], pat, to);
    }
  }

  lemma ReplaceWhole(s: string, to: string)
    requires s != ""
    ensures Replace(s, s, to) == to
  {
    assert s[|s|..] == "";
  }

  lemma PrefixStaysLeft(a: string, b: string, pat: string)
    requires pat != "" && ' ' !in pat
    ensures pat <= a + " " + b <==> pat <= a
  {
    var s := a + " " + b;
    if |pat| > |a| {
      assert s[|a|] == ' ' && pat[|a|] != ' ';
    } else {
      assert s[..|pat|] == a[..|pat|];
    }
  }

  /** A pattern without blanks is replaced on the two sides of a blank separately. */
  lemma {:induction false} ReplaceAcrossBlank(a: string, b: string, pat: string, to: string)
    requires pat != "" && ' ' !in pat
    ensures Replace(a + " " + b, pat, to) == Replace(a, pat, to) + " " + Replace(b, pat, to)
    decreases |a|
  {
    var s := a + " " + b;
    PrefixStaysLeft(a, b, pat);
    if a == "" {
      assert s[0] == ' ' && s[1..] == b;
    } else if pat <= a {
      assert s[|pat|..] == a[|pat|..] + " " + b;
      ReplaceAcrossBlank(a[|pat|..], b, pat, to);
    } else {
      assert s[1..] == a[1..] + " " + b;
      ReplaceAcrossBlank(a[1..], b, pat, to);
    }
  }

  // ---------------------------------------------------------------- the host hint

  predicate EndsHost(c: char) {
    c == '/' || c == '?' || c == '#'
  }

  function UntilHostEnd(s: string): string {
    if s == "" || EndsHost(s[0]) then "" else [s[0]] + UntilHostEnd(s[1..])
  }

  /** The last occurrence of `c`, or the length of `s`. */
  function LastIndexOf(s: string, c: char): (n: nat)
    ensures n <= |s| && (n < |s| ==> s[n] == c) && forall i | n < i < |s| :: s[i] != c
    ensures n == |s| ==> c !in s
  {
    if s == "" then 0
    else
      var n := LastIndexOf(s[1..], c);
      if n < |s| - 1 then n + 1 else if s[0] == c then 0 else |s|
  }

  function LowerCase(s: string): string {
    seq(|s|, i requires 0 <= i < |s| => if 'A' <= s[i] <= 'Z' then 'a' + (s[i] as int - 'A' as int) as char else s[i])
  }

  function StripPrefix(s: string, prefix: string): Option<string> {
    if prefix <= s then Some(s[|prefix|..]) else None
  }

  /** `host_of` */
  function HostOf(url: string): Option<string> {
    var https := StripPrefix(url, "https://");
    var rest := if https.Some? then https else StripPrefix(url, "http://");
    if rest.None? then None
    else
      var authority := UntilHostEnd(rest.value);
      var at := LastIndexOf(authority, '@');
      var host := if at < |authority| then authority[at + 1..] else authority;
      if authority == "" || host == "" then None
      else
        var close := IndexOf(host, ']');
        var colon := LastIndexOf(host, ':');
        var name := if host[0] == '[' then if close < |host| then host[..close + 1] else host else host[..colon];
        var bare := StripPrefix(name, "www.");
        Some(LowerCase(if bare.Some? then bare.value else name))
  }

  function Replacement(sh: Shortening, hint: bool): string {
    var host := HostOf(sh.original);
    if !hint || host.None? || host.value == "" then sh.shortened else sh.shortened + " [" + host.value + "]"
  }

  // ---------------------------------------------------------------- the sequence of replacements

  /** Behind every entry that is at least as long. */
  function Insert(list: seq<Shortening>, sh: Shortening): seq<Shortening> {
    if list == [] || Size(list[0].original) < Size(sh.original) then [sh] + list
    else [list[0]] + Insert(list[1..], sh)
  }

  /** `sort_by_key` on descending length, which keeps the order of equals. */
  function LongestFirst(list: seq<Shortening>): seq<Shortening> {
    if list == [] then [] else Insert(LongestFirst(list[..|list| - 1]), list[|list| - 1])
  }

  function ReplaceAll(text: string, list: seq<Shortening>, hint: bool): string {
    if list == [] then text
    else
      var before := ReplaceAll(text, list[..|list| - 1], hint);
      Replace(before, list[|list| - 1].original, Replacement(list[|list| - 1], hint))
  }

  /** `apply_substitutions` */
  method ApplySubstitutions(text: string, shortenings: seq<Shortening>, addHostHint: bool) returns (out: string)
    ensures out == ReplaceAll(text, LongestFirst(shortenings), addHostHint)
  {
    var sorted := LongestFirst(shortenings);
    out := text;
    for i := 0 to |sorted|
      invariant out == ReplaceAll(text, sorted[..i], addHostHint)
    {
      OneMore(text, sorted, i, addHostHint);
      var replacement := Replacement(sorted[i], addHostHint);
      out := Replace(out, sorted[i].original, replacement);
    }
    assert sorted[..|sorted|] == sorted;
  }

  lemma OneMore(text: string, list: seq<Shortening>, i: nat, hint: bool)
    requires i < |list|
    ensures ReplaceAll(text, list[..i + 1], hint)
         == Replace(ReplaceAll(text, list[..i], hint), list[i].original, Replacement(list[i], hint))
  {
    assert list[..i + 1][..i] == list[..i];
  }

  lemma {:induction false} InsertAdds(list: seq<Shortening>, sh: Shortening)
    ensures multiset(Insert(list, sh)) == multiset(list) + multiset{sh}
  {
    if list != [] && Size(list[0].original) >= Size(sh.original) {
      InsertAdds(list[1..], sh);
      assert list == [list[0]] + list[1..];
    }
  }

  predicate NoneLonger(list: seq<Shortening>, n: nat) {
    forall i | 0 <= i < |list| :: Size(list[i].original) <= n
  }

  lemma {:induction false} InsertBounded(list: seq<Shortening>, sh: Shortening, n: nat)
    requires NoneLonger(list, n) && Size(sh.original) <= n
    ensures NoneLonger(Insert(list, sh), n)
  {
    if list != [] && Size(list[0].original) >= Size(sh.original) {
      InsertBounded(list[1..], sh, n);
    }
  }

  lemma DescendingCons(first: Shortening, rest: seq<Shortening>)
    ensures Descending([first] + rest) <==> NoneLonger(rest, Size(first.original)) && Descending(rest)
  {
    var all := [first] + rest;
    assert all[0] == first && forall i | 0 <= i < |rest| :: all[i + 1] == rest[i];
    assert forall j | 0 < j < |all| :: all[j] == rest[j - 1];
  }

  lemma {:induction false} InsertDescends(list: seq<Shortening>, sh: Shortening)
    requires Descending(list)
    ensures Descending(Insert(list, sh))
  {
    if list == [] {
    } else {
      var (first, rest) := (list[0], list[1..]);
      assert list == [first] + rest;
      DescendingCons(first, rest);
      if Size(first.original) < Size(sh.original) {
        DescendingCons(sh, list);
      } else {
        InsertDescends(rest, sh);
        InsertBounded(rest, sh, Size(first.original));
        DescendingCons(first, Insert(rest, sh));
      }
    }
  }

  predicate Descending(list: seq<Shortening>) {
    forall i, j | 0 <= i < j < |list| :: Size(list[i].original) >= Size(list[j].original)
  }

  lemma {:induction false} SortPermutes(list: seq<Shortening>)
    ensures multiset(LongestFirst(list)) == multiset(list)
  {
    if list != [] {
      SortPermutes(list[..|list| - 1]);
      InsertAdds(LongestFirst(list[..|list| - 1]), list[|list| - 1]);
      assert list == list[..|list| - 1] + [list[|list| - 1]];
    }
  }

  lemma {:induction false} SortDescends(list: seq<Shortening>)
    ensures Descending(LongestFirst(list))
  {
    if list != [] {
      SortDescends(list[..|list| - 1]);
      InsertDescends(LongestFirst(list[..|list| - 1]), list[|list| - 1]);
    }
  }

  lemma SortMeans(list: seq<Shortening>)
    ensures multiset(LongestFirst(list)) == multiset(list) && Descending(LongestFirst(list))
  {
    SortPermutes(list);
    SortDescends(list);
  }

  // ---------------------------------------------------------------- token by token

  predicate Blankless(list: seq<Shortening>) {
    forall i | 0 <= i < |list| :: list[i].original != "" && ' ' !in list[i].original
  }

  lemma {:induction false} ReplaceAllAcrossBlank(a: string, b: string, list: seq<Shortening>, hint: bool)
    requires Blankless(list)
    ensures ReplaceAll(a + " " + b, list, hint) == ReplaceAll(a, list, hint) + " " + ReplaceAll(b, list, hint)
    decreases |list|
  {
    if list != [] {
      var (init, sh) := (list[..|list| - 1], list[|list| - 1]);
      ReplaceAllAcrossBlank(a, b, init, hint);
      ReplaceAcrossBlank(ReplaceAll(a, init, hint), ReplaceAll(b, init, hint), sh.original, Replacement(sh, hint));
    }
  }

  /** `text.split(' ')` */
  function Tokens(text: string): (tokens: seq<string>)
    ensures |tokens| >= 1
  {
    match SplitOnce(text, ' ')
    case None => [text]
    case Some((before, after)) => [before] + Tokens(after)
  }

  function MapTokens(tokens: seq<string>, list: seq<Shortening>, hint: bool): (r: seq<string>)
    ensures |r| == |tokens|
  {
    seq(|tokens|, i requires 0 <= i < |tokens| => ReplaceAll(tokens[i], list, hint))
  }

  lemma JoinFirst(first: string, rest: seq<string>)
    requires rest != []
    ensures Join([first] + rest, " ") == first + " " + Join(rest, " ")
  {
    assert ([first] + rest)[1..] == rest;
  }

  lemma MapTokensCons(before: string, rest: seq<string>, list: seq<Shortening>, hint: bool)
    ensures MapTokens([before] + rest, list, hint) == [ReplaceAll(before, list, hint)] + MapTokens(rest, list, hint)
  {
    var tokens := [before] + rest;
    var (l, r) := (MapTokens(tokens, list, hint), [ReplaceAll(before, list, hint)] + MapTokens(rest, list, hint));
    forall i | 0 <= i < |tokens|
      ensures l[i] == r[i]
    {
      if i > 0 {
        assert tokens[i] == rest[i - 1] && r[i] == MapTokens(rest, list, hint)[i - 1];
      }
    }
  }

  /** Originals without blanks are replaced in every token by itself, whatever the text. */
  lemma {:induction false} ReplacesTokenwise(text: string, list: seq<Shortening>, hint: bool)
    requires Blankless(list)
    ensures ReplaceAll(text, list, hint) == Join(MapTokens(Tokens(text), list, hint), " ")
    decreases |text|
  {
    match SplitOnce(text, ' ')
    case None =>
      MapTokensCons(text, [], list, hint);
      assert [text] + [] == [text] && MapTokens([], list, hint) == [];
    case Some((before, after)) =>
      assert text == before + " " + after;
      ReplacesTokenwise(after, list, hint);
      TokenStep(before, after, list, hint);
  }

  lemma TokenStep(before: string, after: string, list: seq<Shortening>, hint: bool)
    requires Blankless(list)
    requires ReplaceAll(after, list, hint) == Join(MapTokens(Tokens(after), list, hint), " ")
    ensures ReplaceAll(before + " " + after, list, hint) == Join(MapTokens([before] + Tokens(after), list, hint), " ")
  {
    ReplaceAllAcrossBlank(before, after, list, hint);
    MapTokensCons(before, Tokens(after), list, hint);
    JoinFirst(ReplaceAll(before, list, hint), MapTokens(Tokens(after), list, hint));
  }

  // ---------------------------------------------------------------- what becomes of a token

  predicate DistinctOriginals(list: seq<Shortening>) {
    forall i, j | 0 <= i < j < |list| :: list[i].original != list[j].original
  }

  predicate ContainsNone(s: string, list: seq<Shortening>) {
    forall i | 0 <= i < |list| :: !Contains(s, list[i].original)
  }

  /** No replacement holds anything that would be replaced again. */
  predicate Settled(list: seq<Shortening>, hint: bool) {
    forall i | 0 <= i < |list| :: ContainsNone(Replacement(list[i], hint), list)
  }

  lemma {:induction false} ReplaceAllNothing(s: string, list: seq<Shortening>, hint: bool)
    requires ContainsNone(s, list)
    ensures ReplaceAll(s, list, hint) == s
  {
    if list != [] {
      ReplaceAllNothing(s, list[..|list| - 1], hint);
      ReplaceNothing(s, list[|list| - 1].original, Replacement(list[|list| - 1], hint));
    }
  }

  /** A string holds no other string of its size or more. */
  lemma {:induction false} PartsAreSmaller(s: string, pat: string)
    requires Contains(s, pat) && s != pat
    ensures Size(pat) < Size(s)
  {
    if pat <= s {
      assert s == pat + s[|pat|..];
      Utf8.EncodeConcat(pat, s[|pat|..]);
    } else if s[1..] == pat {
    } else {
      PartsAreSmaller(s[1..], pat);
    }
  }

  lemma LongerNotInside(list: seq<Shortening>, i: nat)
    requires DistinctOriginals(list) && Descending(list) && i < |list|
    ensures ContainsNone(list[i].original, list[..i])
  {
    forall j | 0 <= j < i
      ensures !Contains(list[i].original, list[j].original)
    {
      if Contains(list[i].original, list[j].original) {
        PartsAreSmaller(list[i].original, list[j].original);
      }
    }
  }

  lemma {:induction false} ReplaceAllTail(s: string, list: seq<Shortening>, hint: bool, i: nat)
    requires i <= |list| && ContainsNone(ReplaceAll(s, list[..i], hint), list)
    ensures ReplaceAll(s, list, hint) == ReplaceAll(s, list[..i], hint)
    decreases |list| - i
  {
    if i == |list| {
      assert list[..i] == list;
    } else {
      OneMore(s, list, i, hint);
      ReplaceNothing(ReplaceAll(s, list[..i], hint), list[i].original, Replacement(list[i], hint));
      ReplaceAllTail(s, list, hint, i + 1);
    }
  }

  /** Longest first: an original is not touched before its own turn comes, and not after. */
  lemma OriginalReplaced(list: seq<Shortening>, hint: bool, i: nat)
    requires Blankless(list) && DistinctOriginals(list) && Descending(list) && i < |list|
    requires ContainsNone(Replacement(list[i], hint), list)
    ensures ReplaceAll(list[i].original, list, hint) == Replacement(list[i], hint)
  {
    LongerNotInside(list, i);
    ReplaceAllNothing(list[i].original, list[..i], hint);
    OneMore(list[i].original, list, i, hint);
    ReplaceWhole(list[i].original, Replacement(list[i], hint));
    ReplaceAllTail(list[i].original, list, hint, i + 1);
  }

  /** Every token is an original or holds none. */
  predicate CleanTokens(tokens: seq<string>, list: seq<Shortening>) {
    forall k | 0 <= k < |tokens| ::
      (exists i :: 0 <= i < |list| && list[i].original == tokens[k]) || ContainsNone(tokens[k], list)
  }

  /** The replacement of a token, found by looking it up. */
  function MapToken(token: string, list: seq<Shortening>, hint: bool): string {
    if list == [] then token
    else if list[0].original == token then Replacement(list[0], hint)
    else MapToken(token, list[1..], hint)
  }

  lemma {:induction false} MapTokenFinds(token: string, list: seq<Shortening>, hint: bool)
    requires DistinctOriginals(list)
    ensures forall i | 0 <= i < |list| && list[i].original == token ::
              MapToken(token, list, hint) == Replacement(list[i], hint)
    ensures (forall i | 0 <= i < |list| :: list[i].original != token) ==> MapToken(token, list, hint) == token
  {
    if list != [] {
      MapTokenFinds(token, list[1..], hint);
      forall i | 0 <= i < |list| && list[i].original == token
        ensures MapToken(token, list, hint) == Replacement(list[i], hint)
      {
        if i > 0 {
          assert list[1..][i - 1] == list[i];
        }
      }
    }
  }

  lemma CleanTokenMapped(token: string, list: seq<Shortening>, hint: bool)
    requires Blankless(list) && DistinctOriginals(list) && Descending(list) && Settled(list, hint)
    requires (exists i :: 0 <= i < |list| && list[i].original == token) || ContainsNone(token, list)
    ensures ReplaceAll(token, list, hint) == MapToken(token, list, hint)
  {
    MapTokenFinds(token, list, hint);
    if i :| 0 <= i < |list| && list[i].original == token {
      assert ContainsNone(Replacement(list[i], hint), list);
      OriginalReplaced(list, hint, i);
    } else {
      ReplaceAllNothing(token, list, hint);
      assert Contains(token, token);
      assert forall i | 0 <= i < |list| :: list[i].original != token;
    }
  }

  function MapEach(tokens: seq<string>, list: seq<Shortening>, hint: bool): seq<string> {
    seq(|tokens|, i requires 0 <= i < |tokens| => MapToken(tokens[i], list, hint))
  }

  // ---------------------------------------------------------------- the order of the list is immaterial

  predicate OneEach(m: multiset<Shortening>) {
    forall x <- m, y <- m :: x.original == y.original ==> x == y && m[x] == 1
  }

  lemma {:induction false} DistinctAsBag(list: seq<Shortening>)
    ensures DistinctOriginals(list) <==> OneEach(multiset(list))
  {
    if list != [] {
      var (init, last) := (list[..|list| - 1], list[|list| - 1]);
      assert list == init + [last];
      DistinctAsBag(init);
      DistinctAppend(init, last);
    }
  }

  lemma DistinctAppend(init: seq<Shortening>, last: Shortening)
    requires DistinctOriginals(init) <==> OneEach(multiset(init))
    ensures DistinctOriginals(init + [last]) <==> OneEach(multiset(init + [last]))
  {
    var all := init + [last];
    assert multiset(all) == multiset(init) + multiset{last};
    assert all[|init|] == last && forall i | 0 <= i < |init| :: all[i] == init[i];
    if j :| 0 <= j < |init| && init[j].original == last.original {
      RepeatShows(multiset(init), last, init[j]);
      assert all[j].original == all[|init|].original;
    } else {
      assert forall x <- multiset(init) :: x in init;
      assert DistinctOriginals(all) <==> DistinctOriginals(init);
      AddedApart(multiset(init), last);
    }
  }

  lemma RepeatShows(bag: multiset<Shortening>, last: Shortening, x: Shortening)
    requires x in bag && x.original == last.original
    ensures !OneEach(bag + multiset{last})
  {
    var more := bag + multiset{last};
    assert x in more && last in more;
    assert x == last ==> more[last] >= 2;
  }

  lemma AddedApart(bag: multiset<Shortening>, last: Shortening)
    requires forall x <- bag :: x.original != last.original
    ensures OneEach(bag) <==> OneEach(bag + multiset{last})
  {
    var more := bag + multiset{last};
    assert last !in bag && more[last] == 1;
    assert forall x <- bag :: x in more && more[x] == bag[x];
  }

  lemma SameMembers(a: seq<Shortening>, b: seq<Shortening>)
    requires multiset(a) == multiset(b)
    ensures forall x :: x in a <==> x in b
  {
    forall x
      ensures x in a <==> x in b
    {
      assert x in multiset(a) <==> x in multiset(b);
    }
  }

  lemma MapTokenPermuted(token: string, a: seq<Shortening>, b: seq<Shortening>, hint: bool)
    requires multiset(a) == multiset(b) && DistinctOriginals(a)
    ensures MapToken(token, a, hint) == MapToken(token, b, hint)
  {
    DistinctAsBag(a);
    DistinctAsBag(b);
    SameMembers(a, b);
    MapTokenFinds(token, a, hint);
    MapTokenFinds(token, b, hint);
    if i :| 0 <= i < |a| && a[i].original == token {
      assert a[i] in b;
    } else {
      assert forall i | 0 <= i < |b| :: b[i] in a;
    }
  }

  /** What the caller of the substitution must see to. */
  predicate WellBehaved(text: string, list: seq<Shortening>, hint: bool) {
    && Blankless(list) && DistinctOriginals(list) && Settled(list, hint)
    && CleanTokens(Tokens(text), list)
  }

  lemma ConditionsPermute(text: string, a: seq<Shortening>, b: seq<Shortening>, hint: bool)
    requires multiset(a) == multiset(b) && WellBehaved(text, a, hint)
    ensures WellBehaved(text, b, hint)
  {
    DistinctAsBag(a);
    DistinctAsBag(b);
    SameMembers(a, b);
    forall s | ContainsNone(s, a)
      ensures ContainsNone(s, b)
    {
      forall i | 0 <= i < |b|
        ensures !Contains(s, b[i].original)
      {
        assert b[i] in a;
      }
    }
    forall i | 0 <= i < |b|
      ensures ContainsNone(Replacement(b[i], hint), b) && b[i].original != "" && ' ' !in b[i].original
    {
      assert b[i] in a;
    }
    var tokens := Tokens(text);
    forall k | 0 <= k < |tokens|
      ensures (exists i :: 0 <= i < |b| && b[i].original == tokens[k]) || ContainsNone(tokens[k], b)
    {
      if i :| 0 <= i < |a| && a[i].original == tokens[k] {
        assert a[i] in b;
      }
    }
  }

  /** Every token that is an original becomes its replacement and every other token stays: the sequence of
      replacements is a simultaneous, token-wise map, even where one original is part of another. */
  lemma SubstitutionIsTokenwise(text: string, list: seq<Shortening>, hint: bool)
    requires WellBehaved(text, list, hint)
    ensures ReplaceAll(text, LongestFirst(list), hint) == Join(MapEach(Tokens(text), list, hint), " ")
  {
    var sorted := LongestFirst(list);
    SortMeans(list);
    ConditionsPermute(text, list, sorted, hint);
    ReplacesTokenwise(text, sorted, hint);
    var tokens := Tokens(text);
    forall k | 0 <= k < |tokens|
      ensures ReplaceAll(tokens[k], sorted, hint) == MapToken(tokens[k], list, hint)
    {
      CleanTokenMapped(tokens[k], sorted, hint);
      MapTokenPermuted(tokens[k], list, sorted, hint);
    }
    assert MapTokens(tokens, sorted, hint) == MapEach(tokens, list, hint);
  }

  /** The order in which the shortenings were resolved does not show. */
  lemma OrderDoesNotShow(text: string, a: seq<Shortening>, b: seq<Shortening>, hint: bool)
    requires multiset(a) == multiset(b) && WellBehaved(text, a, hint)
    ensures ReplaceAll(text, LongestFirst(a), hint) == ReplaceAll(text, LongestFirst(b), hint)
  {
    ConditionsPermute(text, a, b, hint);
    SubstitutionIsTokenwise(text, a, hint);
    SubstitutionIsTokenwise(text, b, hint);
    MapEachPermuted(Tokens(text), a, b, hint);
  }

  lemma MapEachPermuted(tokens: seq<string>, a: seq<Shortening>, b: seq<Shortening>, hint: bool)
    requires multiset(a) == multiset(b) && DistinctOriginals(a)
    ensures MapEach(tokens, a, hint) == MapEach(tokens, b, hint)
  {
    forall k | 0 <= k < |tokens|
      ensures MapToken(tokens[k], a, hint) == MapToken(tokens[k], b, hint)
    {
      MapTokenPermuted(tokens[k], a, b, hint);
    }
  }

  /** Originals with a blank would break this: here every token is clean and yet the text changes. */
  lemma BlankOriginalBreaksIt()
    ensures var list := [Shortening("a b", "s")];
            && DistinctOriginals(list) && Settled(list, false) && CleanTokens(Tokens("a b"), list)
            && ReplaceAll("a b", list, false) == "s"
            && Join(MapEach(Tokens("a b"), list, false), " ") == "a b"
  {
    var list := [Shortening("a b", "s")];
    assert list[..0] == [];
    ReplaceWhole("a b", "s");
    assert "a b" == "a" + " " + "b";
    SplitOnceAt("a", ' ', "b");
    IndexAfter("b", ' ', "");
    assert Tokens("b") == ["b"];
    assert Tokens("a b") == ["a", "b"];
    assert !Contains("s", "a b") && !Contains("a", "a b") && !Contains("b", "a b");
    assert MapEach(["a", "b"], list, false) == ["a", "b"];
    JoinFirst("a", ["b"]);
    assert ["a"] + ["b"] == ["a", "b"];
  }
}
