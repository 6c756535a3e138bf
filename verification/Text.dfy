/** The string operations of Python that the message formats are built on. */
module Text {
  import opened Basics

  /** The characters `str.split()` and `int()` take for white space. */
  predicate IsSpace(c: char) {
    var n := c as int;
    || 0x09 <= n <= 0x0D || 0x1C <= n <= 0x20 || n == 0x85 || n == 0xA0 || n == 0x1680 || 0x2000 <= n <= 0x200A
    || n == 0x2028 || n == 0x2029 || n == 0x202F || n == 0x205F || n == 0x3000
  }

  predicate NoSpace(s: string) {
    forall i | 0 <= i < |s| :: !IsSpace(s[i])
  }

  predicate IsWord(s: string) {
    s != "" && NoSpace(s)
  }

  /** The length of the longest start of `s` without a white-space character. */
  function WordLength(s: string): (n: nat)
    ensures n <= |s| && NoSpace(s[..n]) && (n < |s| ==> IsSpace(s[n]))
  {
    if s == "" || IsSpace(s[0]) then 0
    else
      var n := 1 + WordLength(s[1..]);
      assert s[..n] == [s[0]] + s[1..][..n - 1];
      n
  }

  /** `s.split()` */
  function Fields(s: string): (fields: seq<string>)
    ensures forall i | 0 <= i < |fields| :: IsWord(fields[i])
  {
    if s == "" then []
    else if IsSpace(s[0]) then Fields(s[1..])
    else [s[..WordLength(s)]] + Fields(s[WordLength(s)..])
  }

  /** `sep.join(parts)` */
  function Join(parts: seq<string>, sep: string): string {
    if parts == [] then ""
    else if |parts| == 1 then parts[0]
    else parts[0] + sep + Join(parts[1..], sep)
  }

  lemma {:induction false} WordThenSpace(word: string, rest: string)
    requires NoSpace(word) && (rest != "" ==> IsSpace(rest[0]))
    ensures WordLength(word + rest) == |word|
  {
    if word == "" {
      assert word + rest == rest;
    } else {
      assert (word + rest)[1..] == word[1..] + rest;
      WordThenSpace(word[1..], rest);
    }
  }

  /** Words joined by blanks come apart again. */
  lemma {:induction false} FieldsOfJoin(words: seq<string>)
    requires forall i | 0 <= i < |words| :: IsWord(words[i])
    ensures Fields(Join(words, " ")) == words
  {
    if |words| == 1 {
      WordThenSpace(words[0], "");
      assert words[0] + "" == words[0] && words[0][|words[0]|..] == "" && words == [words[0]];
    } else if |words| > 1 {
      var rest := " " + Join(words[1..], " ");
      assert Join(words, " ") == words[0] + rest;
      WordThenSpace(words[0], rest);
      assert (words[0] + rest)[..|words[0]|] == words[0] && (words[0] + rest)[|words[0]|..] == rest;
      FieldsOfJoin(words[1..]);
      assert rest[1..] == Join(words[1..], " ");
    }
  }

  /** Where `c` first stands in `s`, or the length of `s`. */
  function IndexOf(s: string, c: char): (n: nat)
    ensures n <= |s| && (forall i | 0 <= i < n :: s[i] != c) && (n < |s| ==> s[n] == c)
  {
    if s == "" || s[0] == c then 0 else 1 + IndexOf(s[1..], c)
  }

  lemma IndexAfter(before: string, c: char, after: string)
    requires c !in before
    ensures IndexOf(before + [c] + after, c) == |before|
    ensures IndexOf(before, c) == |before|
  {
    var s := before + [c] + after;
    assert forall i | 0 <= i < |before| :: s[i] == before[i];
    assert s[|before|] == c;
  }

  /** `s.split(c, 1)` where `c` occurs; nothing where it does not. */
  function SplitOnce(s: string, c: char): Option<(string, string)> {
    var n := IndexOf(s, c);
    if n == |s| then None else Some((s[..n], s[n + 1..]))
  }

  lemma SplitOnceAt(before: string, c: char, after: string)
    requires c !in before
    ensures SplitOnce(before + [c] + after, c) == Some((before, after))
  {
    IndexAfter(before, c, after);
    var s := before + [c] + after;
    assert s[..|before|] == before && s[|before| + 1..] == after;
  }

  /** `s.split(c, max)` */
  function SplitMax(s: string, c: char, max: nat): (parts: seq<string>)
    ensures 1 <= |parts| <= max + 1
    decreases max
  {
    if max == 0 then [s]
    else
      match SplitOnce(s, c)
      case None => [s]
      case Some((before, after)) => [before] + SplitMax(after, c, max - 1)
  }

  lemma SplitMaxStep(before: string, c: char, after: string, max: nat)
    requires c !in before && max > 0
    ensures SplitMax(before + [c] + after, c, max) == [before] + SplitMax(after, c, max - 1)
  {
    SplitOnceAt(before, c, after);
  }
}
