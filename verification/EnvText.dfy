/** What the text of a `.env` file says: its assignments, with or without quotes and blanks around the value, and
    everything else left out of account. */
module EnvText {
  import opened Basics
  import opened Text
  import opened EnvFile

  // ---------------------------------------------------------------- what surrounds a text

  predicate Blank(s: string) {
    forall i | 0 <= i < |s| :: IsWhite(s[i])
  }

  predicate Only(s: string, c: char) {
    forall i | 0 <= i < |s| :: s[i] == c
  }

  /** No white space at either end. */
  predicate Tight(s: string) {
    s != "" ==> !IsWhite(s[0]) && !IsWhite(s[|s| - 1])
  }

  /** Neither end is this character. */
  predicate Free(s: string, c: char) {
    s != "" ==> s[0] != c && s[|s| - 1] != c
  }

  lemma {:induction false} BlankStart(w: string, s: string)
    requires Blank(w)
    ensures TrimStart(w + s) == TrimStart(s)
  {
    if w == "" {
      assert w + s == s;
    } else {
      assert (w + s)[1..] == w[1..] + s;
      BlankStart(w[1..], s);
    }
  }

  lemma {:induction false} BlankEnd(w: string)
    requires Blank(w)
    ensures TrimEnd(w) == ""
  {
    if w != "" {
      BlankEnd(w[..|w| - 1]);
    }
  }

  lemma TrimPadded(w: string, t: string, z: string)
    requires Blank(w) && Blank(z) && Tight(t)
    ensures Trim(w + t + z) == t
  {
    assert w + t + z == w + (t + z);
    BlankStart(w, t + z);
    if t == "" {
      assert t + z == z && z + "" == z;
      BlankStart(z, "");
    } else {
      assert TrimStart(t + z) == t + z;
      TrimEndKeeps(t, z);
      BlankEnd(z);
      assert t + "" == t;
    }
  }

  lemma {:induction false} CharStart(p: string, s: string, c: char)
    requires Only(p, c)
    ensures TrimCharStart(p + s, c) == TrimCharStart(s, c)
  {
    if p == "" {
      assert p + s == s;
    } else {
      assert (p + s)[1..] == p[1..] + s;
      CharStart(p[1..], s, c);
    }
  }

  lemma {:induction false} CharEnd(s: string, p: string, c: char)
    requires Only(p, c)
    ensures TrimCharEnd(s + p, c) == TrimCharEnd(s, c)
    decreases |p|
  {
    if p == "" {
      assert s + p == s;
    } else {
      assert (s + p)[..|s + p| - 1] == s + p[..|p| - 1];
      CharEnd(s, p[..|p| - 1], c);
    }
  }

  lemma TrimCharPadded(p: string, t: string, q: string, c: char)
    requires Only(p, c) && Only(q, c) && Free(t, c)
    ensures TrimChar(p + t + q, c) == t
  {
    assert p + t + q == p + (t + q);
    CharStart(p, t + q, c);
    if t == "" {
      assert t + q == q && q + "" == q;
      CharStart(q, "", c);
    } else {
      assert TrimCharStart(t + q, c) == t + q;
      CharEnd(t, q, c);
    }
  }

  lemma {:induction false} StartComesOff(s: string) returns (w: string)
    ensures s == w + TrimStart(s) && Blank(w)
    ensures TrimStart(s) != "" ==> !IsWhite(TrimStart(s)[0])
  {
    w := "";
    if s != "" && IsWhite(s[0]) {
      var rest := StartComesOff(s[1..]);
      w := [s[0]] + rest;
      Associate([s[0]], rest, TrimStart(s[1..]));
      assert s == [s[0]] + s[1..];
    } else {
      assert s == "" + s;
    }
  }

  lemma {:induction false} EndComesOff(s: string) returns (z: string)
    ensures s == TrimEnd(s) + z && Blank(z)
    ensures TrimEnd(s) != "" ==> EndsDark(TrimEnd(s))
  {
    z := "";
    if s != "" && IsWhite(s[|s| - 1]) {
      var (init, last) := (s[..|s| - 1], [s[|s| - 1]]);
      var rest := EndComesOff(init);
      z := rest + last;
      Associate(TrimEnd(init), rest, last);
      assert s == init + last;
    } else {
      assert s == s + "";
    }
  }

  lemma TrimComesOff(s: string) returns (w: string, z: string)
    ensures s == w + Trim(s) + z && Blank(w) && Blank(z) && Tight(Trim(s))
  {
    w := StartComesOff(s);
    z := EndComesOff(TrimStart(s));
    assert s == w + (Trim(s) + z);
    assert Trim(s) != "" ==> TrimStart(s)[0] == Trim(s)[0];
  }

  lemma {:induction false} CharStartComesOff(s: string, c: char) returns (p: string)
    ensures s == p + TrimCharStart(s, c) && Only(p, c)
    ensures TrimCharStart(s, c) != "" ==> TrimCharStart(s, c)[0] != c
  {
    p := "";
    if s != "" && s[0] == c {
      var rest := CharStartComesOff(s[1..], c);
      p := [c] + rest;
      Associate([c], rest, TrimCharStart(s[1..], c));
      assert s == [c] + s[1..];
    } else {
      assert s == "" + s;
    }
  }

  lemma {:induction false} CharEndComesOff(s: string, c: char) returns (q: string)
    ensures s == TrimCharEnd(s, c) + q && Only(q, c)
    ensures TrimCharEnd(s, c) != "" ==> TrimCharEnd(s, c)[|TrimCharEnd(s, c)| - 1] != c
  {
    q := "";
    if s != "" && s[|s| - 1] == c {
      var rest := CharEndComesOff(s[..|s| - 1], c);
      q := rest + [c];
      Associate(TrimCharEnd(s[..|s| - 1], c), rest, [c]);
      assert s == s[..|s| - 1] + [c];
    } else {
      assert s == s + "";
    }
  }

  lemma TrimCharComesOff(s: string, c: char) returns (p: string, q: string)
    ensures s == p + TrimChar(s, c) + q && Only(p, c) && Only(q, c) && Free(TrimChar(s, c), c)
  {
    p := CharStartComesOff(s, c);
    q := CharEndComesOff(TrimCharStart(s, c), c);
    assert s == p + (TrimChar(s, c) + q);
    assert TrimChar(s, c) != "" ==> TrimCharStart(s, c)[0] == TrimChar(s, c)[0];
  }

  // ---------------------------------------------------------------- a value

  /** Between blanks, and inside all the double quotes at either end and then all the single ones, stands the value. */
  predicate Wraps(text: string, v: string, w: string, p: string, q: string, r: string, s: string, z: string) {
    && text == w + (p + (q + v + r) + s) + z
    && Blank(w) && Blank(z) && Tight(p + (q + v + r) + s)
    && Only(p, '"') && Only(s, '"') && Free(q + v + r, '"')
    && Only(q, '\'') && Only(r, '\'') && Free(v, '\'')
  }

  ghost predicate ValueIs(text: string, v: string) {
    exists w, p, q, r, s, z :: Wraps(text, v, w, p, q, r, s, z)
  }

  /** What is read from the text of a value. */
  lemma ValueReads(text: string, v: string)
    ensures ParseValue(text) == v <==> ValueIs(text, v)
  {
    if w, p, q, r, s, z :| Wraps(text, v, w, p, q, r, s, z) {
      WrappedReads(text, v, w, p, q, r, s, z);
    }
    ValueHasParts(text);
  }

  lemma WrappedReads(text: string, v: string, w: string, p: string, q: string, r: string, s: string, z: string)
    requires Wraps(text, v, w, p, q, r, s, z)
    ensures ParseValue(text) == v
  {
    TrimPadded(w, p + (q + v + r) + s, z);
    TrimCharPadded(p, q + v + r, s, '"');
    TrimCharPadded(q, v, r, '\'');
  }

  lemma ValueHasParts(text: string)
    ensures ValueIs(text, ParseValue(text))
  {
    var w, z := TrimComesOff(text);
    var p, s := TrimCharComesOff(Trim(text), '"');
    var q, r := TrimCharComesOff(TrimChar(Trim(text), '"'), '\'');
    assert Wraps(text, ParseValue(text), w, p, q, r, s, z);
  }

  // ---------------------------------------------------------------- a line

  /** The line, between blanks, is no comment, and its first equals sign stands between the key, blanks behind it
      apart, and the text of the value. */
  predicate Assigns(line: string, k: string, w: string, e: string, text: string, z: string) {
    var body := k + e + "=" + text;
    line == w + body + z && Blank(w) && Blank(z) && Blank(e) && Tight(body) && body[0] != '#' && Tight(k) && '=' !in k
  }

  ghost predicate AssignsTo(line: string, k: string, v: string) {
    exists w, e, text, z :: Assigns(line, k, w, e, text, z) && ValueIs(text, v)
  }

  lemma AssignmentReads(line: string, k: string, w: string, e: string, text: string, z: string)
    requires Assigns(line, k, w, e, text, z)
    ensures ParseLine(line) == Some((k, ParseValue(text)))
  {
    var body := k + e + "=" + text;
    TrimPadded(w, body, z);
    assert body == (k + e) + ['='] + text;
    SplitOnceAt(k + e, '=', text);
    assert "" + k + e == k + e;
    TrimPadded("", k, e);
  }

  lemma SplitOnceParts(t: string, c: char)
    requires SplitOnce(t, c).Some?
    ensures var (before, after) := SplitOnce(t, c).value; t == before + [c] + after && c !in before
  {
  }

  lemma NoBlankInFront(b: string, rest: string)
    requires Blank(b) && Tight(b + rest)
    ensures b == ""
  {
    SameFront(b, rest);
  }

  lemma SameFront(b: string, rest: string)
    ensures b != "" ==> (b + rest)[0] == b[0]
  {
  }

  /** A body cut at its equals sign, and what stands in front of it trimmed. */
  lemma BodyHasParts(body: string, before: string, text: string) returns (e: string)
    requires Tight(body) && body == before + "=" + text
    ensures Blank(e) && Tight(Trim(before)) && before == Trim(before) + e && body == Trim(before) + e + "=" + text
  {
    var b, e0 := TrimComesOff(before);
    e := e0;
    assert body == b + (Trim(before) + e + "=" + text);
    NoBlankInFront(b, Trim(before) + e + "=" + text);
    assert before == Trim(before) + e;
  }

  lemma AssignmentHasParts(line: string)
    requires ParseLine(line).Some?
    ensures AssignsTo(line, ParseLine(line).value.0, ParseLine(line).value.1)
  {
    var w, z := TrimComesOff(line);
    var t := Trim(line);
    var (before, text) := SplitOnce(t, '=').value;
    SplitOnceParts(t, '=');
    var e := BodyHasParts(t, before, text);
    ValueHasParts(text);
    assert Assigns(line, Trim(before), w, e, text, z) by {
      assert '=' !in Trim(before) by {
        assert forall i | 0 <= i < |Trim(before)| :: before[i] == Trim(before)[i];
      }
    }
  }

  /** What is read from a line: a key and its value exactly if it assigns them, and otherwise nothing. */
  lemma LineReads(line: string, k: string, v: string)
    ensures ParseLine(line) == Some((k, v)) <==> AssignsTo(line, k, v)
  {
    if w, e, text, z :| Assigns(line, k, w, e, text, z) && ValueIs(text, v) {
      AssignmentReads(line, k, w, e, text, z);
      ValueReads(text, v);
    }
    if ParseLine(line).Some? {
      AssignmentHasParts(line);
    }
  }

  // ---------------------------------------------------------------- a file

  predicate Parses(line: string, k: string) {
    ParseLine(line).Some? && ParseLine(line).value.0 == k
  }

  predicate LastParsed(lines: seq<string>, k: string, v: string, i: nat) {
    && i < |lines| && ParseLine(lines[i]) == Some((k, v))
    && forall j | i < j < |lines| :: !Parses(lines[j], k)
  }

  lemma LastParsedStep(lines: seq<string>, last: string, k: string, v: string, i: nat)
    requires i <= |lines|
    ensures LastParsed(lines + [last], k, v, i)
            <==> if i == |lines| then ParseLine(last) == Some((k, v))
                 else LastParsed(lines, k, v, i) && !Parses(last, k)
  {
    var all := lines + [last];
    assert all[|lines|] == last && forall j | 0 <= j < |lines| :: all[j] == lines[j];
  }

  lemma {:induction false} LoadIsLastParsed(lines: seq<string>, k: string, v: string)
    ensures k in Load(lines) && Load(lines)[k] == v <==> exists i: nat :: LastParsed(lines, k, v, i)
  {
    if lines != [] {
      var (init, last) := (lines[..|lines| - 1], lines[|lines| - 1]);
      assert lines == init + [last];
      LoadIsLastParsed(init, k, v);
      forall i: nat | i <= |init|
        ensures LastParsed(lines, k, v, i)
                <==> if i == |init| then ParseLine(last) == Some((k, v))
                     else LastParsed(init, k, v, i) && !Parses(last, k)
      {
        LastParsedStep(init, last, k, v, i);
      }
      assert LastParsed(lines, k, v, |init|) <==> ParseLine(last) == Some((k, v));
      if i: nat :| LastParsed(init, k, v, i) {
        assert LastParsed(lines, k, v, i) <==> !Parses(last, k);
      }
    }
  }

  ghost predicate AssignsAny(line: string, k: string) {
    exists v :: AssignsTo(line, k, v)
  }

  lemma AnyIsParsed(line: string, k: string)
    ensures AssignsAny(line, k) <==> Parses(line, k)
  {
    if v :| AssignsTo(line, k, v) {
      LineReads(line, k, v);
    }
    if Parses(line, k) {
      AssignmentHasParts(line);
    }
  }

  /** Line `i` assigns the value, and no later line assigns the key anything. */
  ghost predicate LastAssigned(lines: seq<string>, k: string, v: string, i: nat) {
    i < |lines| && AssignsTo(lines[i], k, v) && forall j | i < j < |lines| :: !AssignsAny(lines[j], k)
  }

  lemma AssignedIsParsed(lines: seq<string>, k: string, v: string, i: nat)
    ensures LastAssigned(lines, k, v, i) <==> LastParsed(lines, k, v, i)
  {
    if i < |lines| {
      LineReads(lines[i], k, v);
      forall j | i < j < |lines|
        ensures AssignsAny(lines[j], k) <==> Parses(lines[j], k)
      {
        AnyIsParsed(lines[j], k);
      }
    }
  }

  predicate Unbroken(lines: seq<string>) {
    forall i | 0 <= i < |lines| :: '\n' !in lines[i]
  }

  /** Any file is a list of lines with a newline between any two. */
  lemma {:induction false} FileHasLines(content: string) returns (lines: seq<string>)
    ensures lines != [] && Unbroken(lines) && Join(lines, "\n") == content
  {
    match SplitOnce(content, '\n')
    case None => lines := [content];
    case Some((line, rest)) =>
      var more := FileHasLines(rest);
      lines := [line] + more;
      assert lines[1..] == more && line + ['\n'] + rest == content;
  }

  lemma SameParse(line: string)
    ensures Load([StripCr(line)]) == Load([line])
  {
    TrimStripCr(line);
    LoadOne(line);
    LoadOne(StripCr(line));
  }

  lemma {:induction false} JoinedLoads(lines: seq<string>)
    requires lines != [] && Unbroken(lines)
    ensures EnvOf(Some(Join(lines, "\n"))) == Load(lines)
  {
    var (first, rest) := (lines[0], lines[1..]);
    assert lines == [first] + rest;
    if rest == [] {
      LoadOne("");
      assert Lines(first) == if first == "" then [] else [first];
    } else {
      assert Join(lines, "\n") == first + ['\n'] + Join(rest, "\n");
      LinesSplit(first, Join(rest, "\n"));
      JoinedLoads(rest);
      SameParse(first);
      LoadConcat([first], rest);
      LoadConcat([StripCr(first)], Lines(Join(rest, "\n")));
    }
  }

  /** What is read from a file: a key has a value exactly if the last line that assigns the key anything assigns it
      that value. */
  lemma FileReads(lines: seq<string>, k: string, v: string)
    requires lines != [] && Unbroken(lines)
    ensures var env := EnvOf(Some(Join(lines, "\n")));
            k in env && env[k] == v <==> exists i: nat :: LastAssigned(lines, k, v, i)
  {
    JoinedLoads(lines);
    LoadIsLastParsed(lines, k, v);
    forall i: nat
      ensures LastAssigned(lines, k, v, i) <==> LastParsed(lines, k, v, i)
    {
      AssignedIsParsed(lines, k, v, i);
    }
  }

  // ---------------------------------------------------------------- the usual forms

  /** A key as users write it. */
  predicate PlainKey(k: string) {
    k != "" && Tight(k) && k[0] != '#' && '=' !in k && '\n' !in k
  }

  /** A value that has neither blanks nor quotes of its own at its ends. */
  predicate PlainValue(v: string) {
    Tight(v) && Free(v, '"') && Free(v, '\'') && '\n' !in v
  }

  lemma OneAssignment(line: string, k: string, w: string, e: string, text: string, z: string)
    requires Assigns(line, k, w, e, text, z) && '\n' !in line
    ensures EnvOf(Some(line)) == map[k := ParseValue(text)] && EnvOf(Some(line + "\n")) == map[k := ParseValue(text)]
  {
    AssignmentReads(line, k, w, e, text, z);
    LoadOne(line);
    LoadOne("");
    JoinedLoads([line]);
    JoinedLoads([line, ""]);
    assert [line, ""][1..] == [""] && Join([line, ""], "\n") == line + "\n" + "" == line + "\n";
    LoadConcat([line], [""]);
    assert [line] + [""] == [line, ""];
  }

  predicate IsQuote(q: string) {
    q == "" || q == "\"" || q == "'"
  }

  lemma QuotedReads(f: string, q: string, v: string)
    requires Blank(f) && IsQuote(q) && PlainValue(v)
    ensures ParseValue(f + (q + v + q)) == v
  {
    var p := if q == "\"" then q else "";
    var r := if q == "\"" then "" else q;
    var text := f + (q + v + q);
    assert p + (r + v + r) + p == q + v + q;
    assert text == f + (p + (r + v + r) + p) + "";
    WrappedReads(text, v, f, p, r, r, p, "");
  }

  /** The line from the key on, and with blanks in front. */
  function Form(k: string, e: string, f: string, q: string, v: string, z: string): string {
    k + e + "=" + f + (q + v + q) + z
  }

  lemma FormAssigns(w: string, k: string, e: string, f: string, q: string, v: string, z: string)
    requires PlainKey(k) && PlainValue(v) && IsQuote(q) && Blank(w) && Blank(e) && Blank(f) && Blank(z)
    ensures var quoted := q + v + q;
            if quoted == "" then Assigns(w + Form(k, e, f, q, v, z), k, w, e, "", f + z)
            else Assigns(w + Form(k, e, f, q, v, z), k, w, e, f + quoted, z)
  {
    var quoted := q + v + q;
    if quoted == "" {
      assert w + Form(k, e, f, q, v, z) == w + (k + e + "=" + "") + (f + z);
    } else {
      var body := k + e + "=" + (f + quoted);
      assert w + Form(k, e, f, q, v, z) == w + body + z;
      assert body[|body| - 1] == quoted[|quoted| - 1] && body[0] == k[0];
    }
  }

  /** One assignment, with blanks anywhere around key and value and the value bare or in quotes of either kind, reads
      as the key and the value. */
  lemma FormReads(line: string, w: string, k: string, e: string, f: string, q: string, v: string, z: string)
    requires PlainKey(k) && PlainValue(v) && IsQuote(q) && Blank(w) && Blank(e) && Blank(f) && Blank(z)
    requires '\n' !in w + e + f + z && line == w + Form(k, e, f, q, v, z)
    ensures EnvOf(Some(line)) == map[k := v] && EnvOf(Some(line + "\n")) == map[k := v]
  {
    assert '\n' !in line by {
      assert forall x: char :: x in line ==> x in w + e + f + z || x in k || x in v || x in q || x == '=';
    }
    FormAssigns(w, k, e, f, q, v, z);
    QuotedReads(f, q, v);
    QuotedReads("", "", "");
    if q + v + q == "" {
      OneAssignment(line, k, w, e, "", f + z);
    } else {
      OneAssignment(line, k, w, e, f + (q + v + q), z);
    }
  }

  lemma UsualForms(k: string, v: string)
    requires PlainKey(k) && PlainValue(v)
    ensures EnvOf(Some(k + "=" + v)) == map[k := v]
    ensures EnvOf(Some(k + "=\"" + v + "\"")) == map[k := v]
    ensures EnvOf(Some(k + "='" + v + "'")) == map[k := v]
    ensures EnvOf(Some(k + " = " + v)) == map[k := v]
  {
    BareForm(k, v);
    QuoteForm(k, "\"", v);
    assert k + "=" + "\"" == k + "=\"";
    QuoteForm(k, "'", v);
    assert k + "=" + "'" == k + "='";
    SpacedForm(k, v);
  }

  lemma BareForm(k: string, v: string)
    requires PlainKey(k) && PlainValue(v)
    ensures EnvOf(Some(k + "=" + v)) == map[k := v]
  {
    assert k + "=" + v == "" + Form(k, "", "", "", v, "");
    FormReads(k + "=" + v, "", k, "", "", "", v, "");
  }

  lemma QuoteForm(k: string, q: string, v: string)
    requires PlainKey(k) && PlainValue(v) && IsQuote(q)
    ensures EnvOf(Some(k + "=" + q + v + q)) == map[k := v]
  {
    assert k + "=" + q + v + q == "" + Form(k, "", "", q, v, "");
    FormReads(k + "=" + q + v + q, "", k, "", "", q, v, "");
  }

  lemma SpacedForm(k: string, v: string)
    requires PlainKey(k) && PlainValue(v)
    ensures EnvOf(Some(k + " = " + v)) == map[k := v]
  {
    assert k + " = " + v == "" + Form(k, " ", " ", "", v, "");
    FormReads(k + " = " + v, "", k, " ", " ", "", v, "");
  }

  /** Double quotes inside single ones stay. */
  lemma InnerQuotesStay(k: string, v: string)
    requires PlainKey(k) && PlainValue(v)
    ensures EnvOf(Some(k + "='\"" + v + "\"'")) == map[k := "\"" + v + "\""]
  {
    var (line, inner) := (k + "='\"" + v + "\"'", "\"" + v + "\"");
    SingleInside(inner);
    InnerAssigns(k, inner, "'" + inner + "'");
    assert line == k + "=" + ("'" + inner + "'");
    OneAssignment(line, k, "", "", "'" + inner + "'", "");
  }

  lemma SingleInside(inner: string)
    requires inner != "" && inner[0] == '"' == inner[|inner| - 1]
    ensures ParseValue("'" + inner + "'") == inner
  {
    var text := "'" + inner + "'";
    assert text == "" + ("" + text + "") + "";
    WrappedReads(text, inner, "", "", "'", "'", "", "");
  }

  lemma InnerAssigns(k: string, inner: string, text: string)
    requires PlainKey(k) && text == "'" + inner + "'"
    ensures Assigns(k + "=" + text, k, "", "", text, "")
  {
    var body := k + "" + "=" + text;
    assert k + "=" + text == body == "" + body + "";
    assert body[0] == k[0] && body[|body| - 1] == '\'';
  }

  // ---------------------------------------------------------------- lines that say nothing

  /** A blank line, a comment, or a line without an equals sign. */
  ghost predicate SaysNothing(line: string) {
    Blank(line) || (exists w, rest :: Blank(w) && line == w + "#" + rest) || '=' !in line
  }

  lemma NothingParses(line: string)
    requires SaysNothing(line)
    ensures ParseLine(line) == None
  {
    var w, z := TrimComesOff(line);
    if Blank(line) {
      TrimPadded(line, "", "");
      assert line + "" + "" == line;
    } else if w0, rest :| Blank(w0) && line == w0 + "#" + rest {
      BlankStart(w0, "#" + rest);
      assert line == w0 + ("#" + rest);
      TrimEndKeeps("#", rest);
    } else {
      assert forall i | 0 <= i < |Trim(line)| :: Trim(line)[i] == line[|w| + i];
    }
  }

  lemma {:induction false} NothingLoads(lines: seq<string>)
    requires forall i | 0 <= i < |lines| :: SaysNothing(lines[i])
    ensures Load(lines) == map[]
  {
    if lines != [] {
      NothingLoads(lines[..|lines| - 1]);
      NothingParses(lines[|lines| - 1]);
    }
  }

  /** A file of such lines is read as nothing at all, as a missing one is. */
  lemma NothingReads(lines: seq<string>)
    requires lines != [] && Unbroken(lines) && forall i | 0 <= i < |lines| :: SaysNothing(lines[i])
    ensures EnvOf(Some(Join(lines, "\n"))) == map[] == EnvOf(None)
  {
    JoinedLoads(lines);
    NothingLoads(lines);
  }

  // ---------------------------------------------------------------- what an edit leaves

  /** The lines of a file as an editor takes them: without the carriage return before a newline, and without the
      empty text behind the last newline. */
  lemma {:induction false} LinesOfText(lines: seq<string>)
    requires lines != [] && Unbroken(lines)
    ensures var n := |lines| - 1;
            Lines(Join(lines, "\n"))
            == StripCrs(lines[..n]) + if lines[n] == "" then [] else [lines[n]]
  {
    var (first, rest) := (lines[0], lines[1..]);
    assert lines == [first] + rest;
    if rest == [] {
      assert Lines(first) == if first == "" then [] else [first];
    } else {
      var n := |rest| - 1;
      LinesSplit(first, Join(rest, "\n"));
      LinesOfText(rest);
      assert lines[..n + 1] == [first] + rest[..n];
      CutOne(first, rest[..n]);
      Associate([StripCr(first)], StripCrs(rest[..n]), if rest[n] == "" then [] else [rest[n]]);
    }
  }

  lemma CutOne(first: string, rest: seq<string>)
    ensures StripCrs([first] + rest) == [StripCr(first)] + StripCrs(rest)
  {
  }

  /** The line is one of the key: blanks, then the key and an equals sign. */
  ghost predicate IsOf(line: string, key: string) {
    exists w, rest :: Blank(w) && line == w + (key + "=" + rest)
  }

  lemma IsOfMeans(line: string, key: string)
    requires PlainKey(key)
    ensures IsOf(line, key) <==> Prefix(key) <= TrimStart(line)
    ensures IsOf(line, key) <==> Prefix(key) <= Trim(line)
  {
    PrefixUnderTrim(line, key);
    if w, rest :| Blank(w) && line == w + (key + "=" + rest) {
      KeyInFront(w, key, rest);
    }
    if Prefix(key) <= TrimStart(line) {
      KeyBehindBlanks(line, TrimStart(line), key);
    }
  }

  lemma KeyBehindBlanks(line: string, t: string, key: string)
    requires t == TrimStart(line) && Prefix(key) <= t
    ensures IsOf(line, key)
  {
    var w := StartComesOff(line);
    var rest := t[|Prefix(key)|..];
    assert t == Prefix(key) + rest;
    assert Blank(w) && line == w + (key + "=" + rest);
  }

  lemma KeyInFront(w: string, key: string, rest: string)
    requires PlainKey(key) && Blank(w)
    ensures Prefix(key) <= TrimStart(w + (key + "=" + rest))
  {
    var text := key + "=" + rest;
    BlankStart(w, text);
    assert text[0] == key[0] && text == Prefix(key) + rest;
  }

  /** Setting a key writes over the first line of the key, or else adds one at the end, behind an empty line if the
      last one is not blank. Every other line stays as it is. */
  lemma SetWrites(lines: seq<string>, key: string, value: string)
    requires PlainKey(key)
    ensures forall i | 0 <= i < |lines| && IsOf(lines[i], key) && (forall j | 0 <= j < i :: !IsOf(lines[j], key)) ::
              SetLine(lines, key, value) == lines[i := key + "=" + value]
    ensures (forall i | 0 <= i < |lines| :: !IsOf(lines[i], key)) ==>
              SetLine(lines, key, value)
              == lines + (if lines == [] || Blank(lines[|lines| - 1]) then [] else [""]) + [key + "=" + value]
  {
    forall i | 0 <= i < |lines|
      ensures IsOf(lines[i], key) <==> Prefix(key) <= Trim(lines[i])
    {
      IsOfMeans(lines[i], key);
    }
    if lines != [] {
      BlankMeans(lines[|lines| - 1]);
    }
    forall i | 0 <= i < |lines| && IsOf(lines[i], key) && (forall j | 0 <= j < i :: !IsOf(lines[j], key))
      ensures SetLine(lines, key, value) == lines[i := key + "=" + value]
    {
      FindIs(lines, key, i);
    }
    if forall i | 0 <= i < |lines| :: !IsOf(lines[i], key) {
      FindIs(lines, key, |lines|);
    }
  }

  lemma BlankMeans(line: string)
    ensures Blank(line) <==> Trim(line) == ""
  {
    if Blank(line) {
      TrimPadded(line, "", "");
      assert line + "" + "" == line;
    }
    var w, z := TrimComesOff(line);
    if Trim(line) == "" {
      assert line == w + z;
    }
  }

  /** Removing a key drops the lines of the key, wherever they stand, and keeps the others in order. */
  lemma {:induction false} RemoveKeeps(a: seq<string>, line: string, b: seq<string>, key: string)
    requires PlainKey(key)
    ensures KeepOthers(a + [line] + b, key)
         == KeepOthers(a, key) + (if IsOf(line, key) then [] else [line]) + KeepOthers(b, key)
    ensures KeepOthers([], key) == []
    decreases |b|
  {
    IsOfMeans(line, key);
    if b == [] {
      assert (a + [line] + b)[..|a|] == a;
    } else {
      var (init, last) := (b[..|b| - 1], b[|b| - 1]);
      assert (a + [line] + b)[..|a| + |b|] == a + [line] + init;
      RemoveKeeps(a, line, init, key);
    }
  }
}
