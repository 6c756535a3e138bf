/** A line with mIRC formatting as the pieces it consists of: what stripping leaves of it are its letters. */
module StripPieces {
  import opened Basics
  import opened StripFormat

  /** A letter, a switch such as bold, or a colour with its foreground and background as they are written. */
  datatype Piece = Letter(c: char) | Switch(c: char) | Colour(hex: bool, fg: string, bg: Option<string>)

  function Print(p: Piece): string {
    match p
    case Letter(c) => [c]
    case Switch(c) => [c]
    case Colour(hex, fg, bg) => Code(hex) + fg + Background(bg)
  }

  function Code(hex: bool): string {
    if hex then "\U{04}" else "\U{03}"
  }

  function Background(bg: Option<string>): string {
    if bg.Some? then "," + bg.value else ""
  }

  function PrintAll(pieces: seq<Piece>): string {
    if pieces == [] then "" else Print(pieces[0]) + PrintAll(pieces[1..])
  }

  function Letters(pieces: seq<Piece>): string {
    if pieces == [] then ""
    else (if pieces[0].Letter? then [pieces[0].c] else "") + Letters(pieces[1..])
  }

  predicate IsDigit(c: char, hex: bool) {
    '0' <= c <= '9' || (hex && ('a' <= c <= 'f' || 'A' <= c <= 'F'))
  }

  predicate Digits(s: string, hex: bool) {
    forall i | 0 <= i < |s| :: IsDigit(s[i], hex)
  }

  predicate DigitAhead(s: string, hex: bool) {
    s != "" && IsDigit(s[0], hex)
  }

  /** A number of at most so many digits, which takes as many as there are. */
  predicate Number(n: string, rest: string, hex: bool) {
    var most := if hex then 6 else 2;
    Digits(n, hex) && |n| <= most && (|n| == most || !DigitAhead(rest, hex))
  }

  /** The piece, read as far as it goes in front of the rest: a colour has at most two decimal or six hexadecimal
      digits, and takes a comma for its own exactly if a digit comes after it. */
  predicate Fits(p: Piece, rest: string) {
    match p
    case Letter(c) => c !in "\U{02}\U{03}\U{04}\U{0F}\U{16}\U{1D}\U{1E}\U{1F}"
    case Switch(c) => c in "\U{02}\U{0F}\U{16}\U{1D}\U{1E}\U{1F}"
    case Colour(hex, fg, None) =>
      Number(fg, rest, hex) && !(rest != "" && rest[0] == ',' && DigitAhead(rest[1..], hex))
    case Colour(hex, fg, Some(bg)) => Number(fg, ",", hex) && bg != "" && Number(bg, rest, hex)
  }

  predicate Readable(pieces: seq<Piece>) {
    pieces != [] ==> Fits(pieces[0], PrintAll(pieces[1..])) && Readable(pieces[1..])
  }

  lemma {:induction false} SkipNumber(n: string, rest: string, hex: bool, most: nat)
    requires Digits(n, hex) && |n| <= most && (|n| == most || !DigitAhead(rest, hex))
    ensures SkipDigits(n + rest, hex, most) == rest
    decreases |n|
  {
    if n == "" {
      assert n + rest == rest;
    } else {
      assert (n + rest)[1..] == n[1..] + rest;
      SkipNumber(n[1..], rest, hex, most - 1);
    }
  }

  lemma SkipColour(hex: bool, fg: string, bg: Option<string>, rest: string)
    requires Fits(Colour(hex, fg, bg), rest)
    ensures SkipColors(fg + Background(bg) + rest, hex, if hex then 6 else 2) == rest
  {
    var most := if hex then 6 else 2;
    if bg.Some? {
      var tail := "," + bg.value + rest;
      assert fg + ("," + bg.value) + rest == fg + tail;
      SkipNumber(fg, tail, hex, most);
      assert tail[1..] == bg.value + rest && tail[1] == bg.value[0];
      SkipNumber(bg.value, rest, hex, most);
    } else {
      assert fg + "" + rest == fg + rest;
      SkipNumber(fg, rest, hex, most);
    }
  }

  lemma StripPiece(p: Piece, rest: string)
    requires Fits(p, rest)
    ensures Strip(Print(p) + rest) == (if p.Letter? then [p.c] else "") + Strip(rest)
  {
    match p
    case Letter(c) => StripLetter(c, rest);
    case Switch(c) => StripSwitch(c, rest);
    case Colour(hex, fg, bg) => StripColour(hex, fg, bg, rest);
  }

  lemma StripLetter(c: char, rest: string)
    requires Fits(Letter(c), rest)
    ensures Strip([c] + rest) == [c] + Strip(rest)
  {
    assert ([c] + rest)[1..] == rest;
  }

  lemma StripSwitch(c: char, rest: string)
    requires Fits(Switch(c), rest)
    ensures Strip([c] + rest) == Strip(rest)
  {
    assert ([c] + rest)[1..] == rest;
  }

  lemma StripColour(hex: bool, fg: string, bg: Option<string>, rest: string)
    requires Fits(Colour(hex, fg, bg), rest)
    ensures Strip(Print(Colour(hex, fg, bg)) + rest) == Strip(rest)
  {
    var colours := fg + Background(bg) + rest;
    SkipColour(hex, fg, bg, rest);
    StripCode(hex, colours, rest);
    Regroup(Code(hex), fg, Background(bg), rest);
  }

  lemma Regroup(a: string, b: string, c: string, d: string)
    ensures a + b + c + d == a + (b + c + d)
  {
  }

  lemma StripCode(hex: bool, colours: string, rest: string)
    requires SkipColors(colours, hex, if hex then 6 else 2) == rest
    ensures Strip(Code(hex) + colours) == Strip(rest)
  {
    var s := Code(hex) + colours;
    assert s[1..] == colours;
  }

  /** What stripping leaves of a line: its letters. */
  lemma {:induction false} StripLeavesLetters(pieces: seq<Piece>)
    requires Readable(pieces)
    ensures Strip(PrintAll(pieces)) == Letters(pieces)
  {
    if pieces != [] {
      StripPiece(pieces[0], PrintAll(pieces[1..]));
      StripLeavesLetters(pieces[1..]);
    }
  }

  // ---------------------------------------------------------------- every line consists of pieces

  lemma {:induction false} TakeDigits(s: string, hex: bool, most: nat) returns (n: string, rest: string)
    ensures s == n + rest && Digits(n, hex) && |n| <= most && (|n| == most || !DigitAhead(rest, hex))
    decreases most
  {
    if most == 0 || !DigitAhead(s, hex) {
      n, rest := "", s;
    } else {
      n, rest := TakeDigits(s[1..], hex, most - 1);
      n := [s[0]] + n;
      assert s == [s[0]] + s[1..];
    }
  }

  /** The colour at the front of what stands behind its code. */
  lemma TakeColour(s: string, hex: bool) returns (p: Piece, rest: string)
    ensures p.Colour? && p.hex == hex && Fits(p, rest)
    ensures s == p.fg + Background(p.bg) + rest
  {
    var most := if hex then 6 else 2;
    var fg, after := TakeDigits(s, hex, most);
    if after != "" && after[0] == ',' && DigitAhead(after[1..], hex) {
      var bg;
      bg, rest := TakeDigits(after[1..], hex, most);
      p := Colour(hex, fg, Some(bg));
      assert after == "," + bg + rest;
    } else {
      rest := after;
      p := Colour(hex, fg, None);
      assert fg + "" + rest == s;
    }
  }

  lemma TakePiece(s: string) returns (p: Piece, rest: string)
    requires s != ""
    ensures s == Print(p) + rest && Fits(p, rest)
  {
    var code := [s[0]];
    assert s == code + s[1..];
    if s[0] == '\U{03}' || s[0] == '\U{04}' {
      p, rest := TakeColour(s[1..], s[0] == '\U{04}');
      Regroup(code, p.fg, Background(p.bg), rest);
      assert Print(p) + rest == code + (p.fg + Background(p.bg) + rest);
    } else {
      p, rest := if IsToggle(s[0] as int) then Switch(s[0]) else Letter(s[0]), s[1..];
    }
  }

  /** So every line has a reading, and what stripping leaves of it are the letters of that reading. */
  lemma {:induction false} LineHasReading(s: string) returns (pieces: seq<Piece>)
    ensures Readable(pieces) && PrintAll(pieces) == s && Letters(pieces) == Strip(s)
    decreases |s|
  {
    if s == "" {
      pieces := [];
    } else {
      var p, rest := TakePiece(s);
      assert |Print(p)| > 0;
      var more := LineHasReading(rest);
      pieces := [p] + more;
      assert pieces[1..] == more;
      StripLeavesLetters(pieces);
    }
  }
}
