/** The `.env` file: reading it into a map, and editing single keys of it in place. */
module EnvFile {
  import opened Basics
  import opened Text

  type Env = map<string, string>

  // ---------------------------------------------------------------- white space and lines

  /** Unicode White_Space, which `str::trim` strips. */
  predicate IsWhite(c: char) {
    var n := c as int;
    || 0x09 <= n <= 0x0D || n == 0x20 || n == 0x85 || n == 0xA0 || n == 0x1680 || 0x2000 <= n <= 0x200A
    || n == 0x2028 || n == 0x2029 || n == 0x202F || n == 0x205F || n == 0x3000
  }

  function TrimStart(s: string): string {
    if s != "" && IsWhite(s[0]) then TrimStart(s[1..]) else s
  }

  function TrimEnd(s: string): string {
    if s != "" && IsWhite(s[|s| - 1]) then TrimEnd(s[..|s| - 1]) else s
  }

  function Trim(s: string): string {
    TrimEnd(TrimStart(s))
  }

  function TrimCharStart(s: string, c: char): string {
    if s != "" && s[0] == c then TrimCharStart(s[1..], c) else s
  }

  function TrimCharEnd(s: string, c: char): string {
    if s != "" && s[|s| - 1] == c then TrimCharEnd(s[..|s| - 1], c) else s
  }

  /** `trim_matches(c)` */
  function TrimChar(s: string, c: char): string {
    TrimCharEnd(TrimCharStart(s, c), c)
  }

  function StripCr(line: string): string {
    if line != "" && line[|line| - 1] == '\r' then line[..|line| - 1] else line
  }

  /** `str::lines`: the text after the last newline is a line only if there is any. */
  function Lines(content: string): seq<string> {
    match SplitOnce(content, '\n')
    case None => if content == "" then [] else [content]
    case Some((line, rest)) => [StripCr(line)] + Lines(rest)
  }

  /** `lines.join("\n") + "\n"` */
  function Unlines(lines: seq<string>): string {
    Join(lines, "\n") + "\n"
  }

  // ---------------------------------------------------------------- reading

  function ParseValue(s: string): string {
    TrimChar(TrimChar(Trim(s), '"'), '\'')
  }

  /** One line of the file: a key and its value, or neither. */
  function ParseLine(line: string): Option<(string, string)> {
    var t := Trim(line);
    if t == "" || t[0] == '#' then None
    else
      match SplitOnce(t, '=')
      case None => None
      case Some((k, v)) => Some((Trim(k), ParseValue(v)))
  }

  function Insert(env: Env, entry: Option<(string, string)>): Env {
    match entry
    case None => env
    case Some((k, v)) => env[k := v]
  }

  function Load(lines: seq<string>): Env {
    if lines == [] then map[] else Insert(Load(lines[..|lines| - 1]), ParseLine(lines[|lines| - 1]))
  }

  function FileLines(file: Option<string>): seq<string> {
    if file.None? then [] else Lines(file.value)
  }

  /** `load_env` */
  method LoadEnv(file: Option<string>) returns (vars: Env)
    ensures vars == Load(FileLines(file))
  {
    vars := map[];
    if file.None? {
      return;
    }
    var lines := Lines(file.value);
    for i := 0 to |lines|
      invariant vars == Load(lines[..i])
    {
      assert lines[..i + 1][..i] == lines[..i];
      var trimmed := Trim(lines[i]);
      if trimmed == "" || trimmed[0] == '#' {
        continue;
      }
      var kv := SplitOnce(trimmed, '=');
      if kv.Some? {
        vars := vars[Trim(kv.value.0) := ParseValue(kv.value.1)];
      }
    }
    assert lines[..|lines|] == lines;
  }

  // ---------------------------------------------------------------- editing

  function Prefix(key: string): string {
    key + "="
  }

  /** The first line that starts with the key, or the number of lines. */
  function Find(lines: seq<string>, key: string): (i: nat)
    ensures i <= |lines| && (i < |lines| ==> Prefix(key) <= Trim(lines[i]))
    ensures forall j | 0 <= j < i :: !(Prefix(key) <= Trim(lines[j]))
  {
    if lines == [] || Prefix(key) <= Trim(lines[0]) then 0 else 1 + Find(lines[1..], key)
  }

  /** A new key goes to the end, behind a blank line. */
  function AppendLine(lines: seq<string>, line: string): seq<string> {
    (if lines != [] && Trim(lines[|lines| - 1]) != "" then lines + [""] else lines) + [line]
  }

  function SetLine(lines: seq<string>, key: string, value: string): seq<string> {
    var i := Find(lines, key);
    if i < |lines| then lines[i := Prefix(key) + value] else AppendLine(lines, Prefix(key) + value)
  }

  /** Overwrites the first line of the key or, failing that, appends one. */
  method EditLines(given: seq<string>, key: string, newLine: string) returns (lines: seq<string>)
    ensures var i := Find(given, key); lines == if i < |given| then given[i := newLine] else AppendLine(given, newLine)
  {
    lines := given;
    var i := 0;
    while i < |lines|
      invariant i <= |lines| && lines == given
      invariant forall j | 0 <= j < i :: !(Prefix(key) <= Trim(lines[j]))
    {
      if Prefix(key) <= Trim(lines[i]) {
        FindIs(given, key, i);
        lines := lines[i := newLine];
        return;
      }
      i := i + 1;
    }
    FindIs(given, key, i);
    if lines != [] && Trim(lines[|lines| - 1]) != "" {
      lines := lines + [""];
    }
    lines := lines + [newLine];
  }

  /** `set_env_value` */
  method SetEnvValue(file: Option<string>, key: string, value: string) returns (content: string)
    ensures content == Unlines(SetLine(FileLines(file), key, value))
  {
    var lines := if file.Some? then Lines(file.value) else [];
    lines := EditLines(lines, key, Prefix(key) + value);
    content := Join(lines, "\n") + "\n";
  }

  lemma FindIs(lines: seq<string>, key: string, i: nat)
    requires i <= |lines| && (i < |lines| ==> Prefix(key) <= Trim(lines[i]))
    requires forall j | 0 <= j < i :: !(Prefix(key) <= Trim(lines[j]))
    ensures Find(lines, key) == i
  {
  }

  function KeepOthers(lines: seq<string>, key: string): seq<string> {
    if lines == [] then []
    else
      var init := KeepOthers(lines[..|lines| - 1], key);
      if Prefix(key) <= TrimStart(lines[|lines| - 1]) then init else init + [lines[|lines| - 1]]
  }

  /** `remove_env_value` */
  function RemoveEnvValue(file: Option<string>, key: string): Option<string> {
    if file.None? then None else Some(Unlines(KeepOthers(Lines(file.value), key)))
  }

  // ---------------------------------------------------------------- trimming

  predicate EndsDark(s: string) {
    s != "" && !IsWhite(s[|s| - 1])
  }

  lemma {:induction false} TrimEndKeeps(s: string, t: string)
    requires EndsDark(s)
    ensures TrimEnd(s + t) == s + TrimEnd(t)
    decreases |t|
  {
    if t != "" && IsWhite(t[|t| - 1]) {
      assert (s + t)[..|s + t| - 1] == s + t[..|t| - 1];
      TrimEndKeeps(s, t[..|t| - 1]);
    } else if t == "" {
      assert s + t == s;
    }
  }

  lemma {:induction false} TrimEndIsPrefix(s: string)
    ensures TrimEnd(s) <= s
  {
    if s != "" && IsWhite(s[|s| - 1]) {
      TrimEndIsPrefix(s[..|s| - 1]);
    }
  }

  lemma {:induction false} TrimEndTwice(s: string)
    ensures TrimEnd(TrimEnd(s)) == TrimEnd(s)
  {
    if s != "" && IsWhite(s[|s| - 1]) {
      TrimEndTwice(s[..|s| - 1]);
    }
  }

  lemma {:induction false} TrimStartOfTrimEnd(s: string)
    ensures TrimEnd(TrimStart(s)) == TrimStart(TrimEnd(s))
  {
    if s == "" {
    } else if IsWhite(s[0]) {
      TrimStartOfTrimEnd(s[1..]);
      if EndsDark(s) {
        if |s| > 1 {
          assert EndsDark(s[1..]);
        }
      }
      TrimEndSplits(s);
    } else {
      TrimEndKeeps([s[0]], s[1..]);
      assert [s[0]] + s[1..] == s;
    }
  }

  /** What stripping the end does to a string with a white first character. */
  lemma TrimEndSplits(s: string)
    requires s != "" && IsWhite(s[0])
    ensures TrimStart(TrimEnd(s)) == TrimStart(TrimEnd(s[1..]))
  {
    TrimEndOfCons(s[0], s[1..]);
    assert [s[0]] + s[1..] == s;
  }

  lemma {:induction false} TrimEndOfCons(c: char, s: string)
    ensures TrimEnd([c] + s) == if TrimEnd(s) == "" then (if IsWhite(c) then "" else [c]) else [c] + TrimEnd(s)
  {
    var t := [c] + s;
    if s == "" {
      assert t == [c] && t[..0] == "";
    } else if IsWhite(s[|s| - 1]) {
      assert t[..|t| - 1] == [c] + s[..|s| - 1];
      TrimEndOfCons(c, s[..|s| - 1]);
    }
  }

  lemma TrimTwice(s: string)
    ensures Trim(TrimEnd(s)) == Trim(s)
  {
    TrimStartOfTrimEnd(s);
    TrimStartOfTrimEnd(TrimEnd(s));
    TrimEndTwice(s);
  }

  // ---------------------------------------------------------------- what one line says

  /** A key the file format can hold: `ID_PASSWORD` and its like. */
  predicate CleanKey(key: string) {
    EndsDark(key) && !IsWhite(key[0]) && key[0] != '#' && '=' !in key && '\n' !in key
  }

  lemma PrefixEndsDark(key: string)
    requires CleanKey(key)
    ensures EndsDark(Prefix(key)) && Trim(key) == key
  {
    TrimEndKeeps(key, "");
    assert key + "" == key;
  }

  lemma PrefixUnderTrim(line: string, key: string)
    requires CleanKey(key)
    ensures Prefix(key) <= TrimStart(line) <==> Prefix(key) <= Trim(line)
  {
    var t := TrimStart(line);
    TrimEndIsPrefix(t);
    if Prefix(key) <= t {
      PrefixEndsDark(key);
      assert t == Prefix(key) + t[|key| + 1..];
      TrimEndKeeps(Prefix(key), t[|key| + 1..]);
    }
  }

  /** A line that starts with the key is a line of that key. */
  lemma PrefixedLine(line: string, key: string)
    requires CleanKey(key) && Prefix(key) <= Trim(line)
    ensures ParseLine(line).Some? && ParseLine(line).value.0 == key
  {
    var t := Trim(line);
    assert t == key + ['='] + t[|key| + 1..];
    SplitOnceAt(key, '=', t[|key| + 1..]);
    PrefixEndsDark(key);
    assert t[0] == key[0];
  }

  /** The line that is written reads back as the key and the value as parsed. */
  lemma WrittenLine(key: string, value: string)
    requires CleanKey(key)
    ensures ParseLine(Prefix(key) + value) == Some((key, ParseValue(value)))
    ensures Prefix(key) <= Trim(Prefix(key) + value)
  {
    PrefixEndsDark(key);
    var line := Prefix(key) + value;
    assert line[0] == key[0];
    assert TrimStart(line) == line;
    TrimEndKeeps(Prefix(key), value);
    assert Trim(line) == key + ['='] + TrimEnd(value);
    SplitOnceAt(key, '=', TrimEnd(value));
    TrimTwice(value);
  }

  predicate IsFor(line: string, key: string) {
    ParseLine(line).Some? && ParseLine(line).value.0 == key
  }

  // ---------------------------------------------------------------- what an edit does to the map

  lemma {:induction false} LoadConcat(a: seq<string>, b: seq<string>)
    ensures Load(a + b) == Load(a) + Load(b)
    decreases |b|
  {
    if b == [] {
      assert a + b == a;
    } else {
      assert (a + b)[..|a + b| - 1] == a + b[..|b| - 1];
      LoadConcat(a, b[..|b| - 1]);
    }
  }

  lemma LoadOne(line: string)
    ensures Load([line]) == Insert(map[], ParseLine(line))
  {
    assert [line][..0] == [];
  }

  /** Lines of the key after the one that is overwritten. */
  function Later(lines: seq<string>, key: string): Env {
    var i := Find(lines, key);
    if i < |lines| then Load(lines[i + 1..]) else map[]
  }

  lemma Overwrite(a: Env, b: Env, key: string, was: string, value: string)
    ensures var (before, after) := (a + (map[key := was] + b), a + (map[key := value] + b));
            && after - {key} == before - {key}
            && key in after && after[key] == if key in b then b[key] else value
  {
  }

  lemma ReplacedLine(lines: seq<string>, i: nat, key: string, value: string)
    requires CleanKey(key) && i < |lines| && IsFor(lines[i], key)
    ensures var (after, rest) := (Load(lines[i := Prefix(key) + value]), Load(lines[i + 1..]));
            && after - {key} == Load(lines) - {key}
            && key in after && after[key] == if key in rest then rest[key] else ParseValue(value)
  {
    var (a, b) := (lines[..i], lines[i + 1..]);
    var line := Prefix(key) + value;
    WrittenLine(key, value);
    assert lines == a + ([lines[i]] + b) && lines[i := line] == a + ([line] + b);
    LoadAround(a, lines[i], b);
    LoadAround(a, line, b);
    Overwrite(Load(a), Load(b), key, ParseLine(lines[i]).value.1, ParseValue(value));
  }

  lemma LoadAround(a: seq<string>, line: string, b: seq<string>)
    ensures Load(a + ([line] + b)) == Load(a) + (Insert(map[], ParseLine(line)) + Load(b))
  {
    LoadConcat(a, [line] + b);
    LoadConcat([line], b);
    LoadOne(line);
  }

  lemma AppendedLine(lines: seq<string>, key: string, value: string)
    requires CleanKey(key)
    ensures Load(AppendLine(lines, Prefix(key) + value)) == Load(lines)[key := ParseValue(value)]
    ensures Load(lines)[key := ParseValue(value)] - {key} == Load(lines) - {key}
  {
    WrittenLine(key, value);
    var line := Prefix(key) + value;
    LoadConcat(lines, [""]);
    LoadOne("");
    LoadOne(line);
    LoadConcat(lines, [line]);
    LoadConcat(lines + [""], [line]);
  }

  /** The map after is the map before but for the key, which has the value. */
  predicate ChangedAt(before: Env, after: Env, key: string, value: string) {
    after - {key} == before - {key} && key in after && after[key] == value
  }

  lemma SetReplaces(lines: seq<string>, key: string, value: string)
    requires CleanKey(key) && Find(lines, key) < |lines|
    ensures var later := Later(lines, key);
            ChangedAt(Load(lines), Load(SetLine(lines, key, value)), key,
                      if key in later then later[key] else ParseValue(value))
  {
    var i := Find(lines, key);
    PrefixedLine(lines[i], key);
    ReplacedLine(lines, i, key, value);
  }

  lemma SetAppends(lines: seq<string>, key: string, value: string)
    requires CleanKey(key) && Find(lines, key) == |lines|
    ensures ChangedAt(Load(lines), Load(SetLine(lines, key, value)), key, ParseValue(value))
  {
    AppendedLine(lines, key, value);
  }

  /** Setting a key changes that key alone, and to the value as parsed unless a later line overrides it. */
  lemma SetLoads(lines: seq<string>, key: string, value: string)
    requires CleanKey(key)
    ensures var later := Later(lines, key);
            ChangedAt(Load(lines), Load(SetLine(lines, key, value)), key,
                      if key in later then later[key] else ParseValue(value))
  {
    if Find(lines, key) < |lines| {
      SetReplaces(lines, key, value);
    } else {
      SetAppends(lines, key, value);
    }
  }

  /** Setting a clean value updates the map at that key exactly when no line after the overwritten one gives
      the key another value. */
  lemma SetIsUpdate(lines: seq<string>, key: string, value: string)
    requires CleanKey(key) && ParseValue(value) == value
    ensures Load(SetLine(lines, key, value)) == Load(lines)[key := value]
            <==> (key in Later(lines, key) ==> Later(lines, key)[key] == value)
  {
    SetLoads(lines, key, value);
    var after := Load(SetLine(lines, key, value));
    if after[key] == value {
      forall k
        ensures k in after <==> k in Load(lines)[key := value]
        ensures k in after ==> after[k] == Load(lines)[key := value][k]
      {
        assert k != key ==> (k in after <==> k in after - {key}) && (k in Load(lines) <==> k in Load(lines) - {key});
        assert k != key && k in after ==> after[k] == (after - {key})[k] && Load(lines)[k] == (Load(lines) - {key})[k];
      }
    }
  }

  /** A line of the key that the remover does not take for one, as in `KEY = value`. */
  predicate Overlooked(lines: seq<string>, key: string) {
    exists i :: 0 <= i < |lines| && IsFor(lines[i], key) && !(Prefix(key) <= Trim(lines[i]))
  }

  lemma InsertElsewhere(m: Env, key: string, k: string, v: string)
    ensures m[k := v] - {key} == if k == key then m - {key} else (m - {key})[k := v]
  {
  }

  lemma InsertApart(m: Env, n: Env, entry: Option<(string, string)>, key: string)
    requires m - {key} == n - {key}
    ensures Insert(m, entry) - {key} == Insert(n, entry) - {key}
    ensures key in Insert(m, entry) <==> key in m || (entry.Some? && entry.value.0 == key)
    ensures entry.Some? && entry.value.0 == key ==> m - {key} == Insert(n, entry) - {key}
  {
    if entry.Some? {
      InsertElsewhere(m, key, entry.value.0, entry.value.1);
      InsertElsewhere(n, key, entry.value.0, entry.value.1);
    }
  }

  lemma {:induction false} RemoveLoads(lines: seq<string>, key: string)
    requires CleanKey(key)
    ensures Load(KeepOthers(lines, key)) - {key} == Load(lines) - {key}
    ensures key in Load(KeepOthers(lines, key)) <==> Overlooked(lines, key)
  {
    if lines != [] {
      var (init, last) := (lines[..|lines| - 1], lines[|lines| - 1]);
      RemoveLoads(init, key);
      RemoveStep(init, last, key);
      OverlookedStep(init, last, key);
      assert lines == init + [last];
    }
  }

  lemma RemoveStep(init: seq<string>, last: string, key: string)
    requires CleanKey(key) && Load(KeepOthers(init, key)) - {key} == Load(init) - {key}
    ensures var (all, kept) := (init + [last], KeepOthers(init, key));
            && Load(KeepOthers(all, key)) - {key} == Load(all) - {key}
            && (key in Load(KeepOthers(all, key)) <==>
                  key in Load(kept) || (IsFor(last, key) && !(Prefix(key) <= Trim(last))))
  {
    var (all, kept) := (init + [last], KeepOthers(init, key));
    assert all[..|init|] == init && all[|init|] == last;
    InsertApart(Load(kept), Load(init), ParseLine(last), key);
    PrefixUnderTrim(last, key);
    if Prefix(key) <= TrimStart(last) {
      PrefixedLine(last, key);
    } else {
      assert (kept + [last])[..|kept|] == kept;
    }
  }

  lemma OverlookedStep(init: seq<string>, last: string, key: string)
    ensures Overlooked(init + [last], key)
            <==> Overlooked(init, key) || (IsFor(last, key) && !(Prefix(key) <= Trim(last)))
  {
    var all := init + [last];
    assert all[|init|] == last && forall i | 0 <= i < |init| :: all[i] == init[i];
    if i :| 0 <= i < |init| && IsFor(init[i], key) && !(Prefix(key) <= Trim(init[i])) {
      assert IsFor(all[i], key);
    }
  }

  /** Removing a key drops it alone exactly when every line of that key is written without a space before
      the equals sign. */
  lemma RemoveIsDrop(lines: seq<string>, key: string)
    requires CleanKey(key)
    ensures Load(KeepOthers(lines, key)) == Load(lines) - {key} <==> !Overlooked(lines, key)
  {
    RemoveLoads(lines, key);
    var after := Load(KeepOthers(lines, key));
    if key !in after {
      assert after == after - {key};
    }
  }

  /** The one that fails: the secret of a hand-edited file outlives its removal. */
  lemma SpacedKeySurvives()
    ensures Load(["K =v"]) == map["K" := "v"]
    ensures KeepOthers(["K =v"], "K") == ["K =v"]
  {
    var line := "K =v";
    assert ["K =v"][..0] == [];
    assert Trim(line) == line;
    assert line == "K " + ['='] + "v";
    SplitOnceAt("K ", '=', "v");
    assert "K "[..1] == "K";
    assert Trim("K ") == "K";
    assert ParseValue("v") == "v";
    assert Prefix("K")[1] == '=' && line[1] == ' ';
  }

  // ---------------------------------------------------------------- files this program wrote

  /** One line per key, each starting with its key: what every edit leaves of such a file. */
  predicate Tidy(lines: seq<string>) {
    lines == []
    || (var (init, last) := (lines[..|lines| - 1], ParseLine(lines[|lines| - 1]));
        && Tidy(init)
        && (last.Some? ==> Prefix(last.value.0) <= Trim(lines[|lines| - 1]) && last.value.0 !in Load(init)))
  }

  lemma {:induction false} FindAppend(init: seq<string>, last: string, key: string)
    ensures Find(init + [last], key) == if Find(init, key) < |init| then Find(init, key)
                                        else if Prefix(key) <= Trim(last) then |init| else |init| + 1
  {
    if init == [] {
      assert init + [last] == [last] && [last][1..] == [];
    } else {
      assert (init + [last])[1..] == init[1..] + [last];
      FindAppend(init[1..], last, key);
    }
  }

  lemma {:induction false} TidyFinds(lines: seq<string>, key: string)
    requires Tidy(lines) && CleanKey(key)
    ensures key in Load(lines) <==> Find(lines, key) < |lines|
  {
    if lines != [] {
      var (init, last) := (lines[..|lines| - 1], lines[|lines| - 1]);
      assert lines == init + [last];
      TidyFinds(init, key);
      FindAppend(init, last, key);
      if Prefix(key) <= Trim(last) {
        PrefixedLine(last, key);
      }
    }
  }

  lemma TidyAppend(lines: seq<string>, line: string)
    requires Tidy(lines)
    requires ParseLine(line).Some? ==>
               Prefix(ParseLine(line).value.0) <= Trim(line) && ParseLine(line).value.0 !in Load(lines)
    ensures Tidy(lines + [line]) && Load(lines + [line]) == Insert(Load(lines), ParseLine(line))
  {
    assert (lines + [line])[..|lines|] == lines;
  }

  lemma TidyAppendNew(lines: seq<string>, key: string, value: string)
    requires Tidy(lines) && CleanKey(key) && key !in Load(lines)
    ensures Tidy(AppendLine(lines, Prefix(key) + value))
  {
    WrittenLine(key, value);
    TidyAppend(lines, "");
    TidyAppend(if lines != [] && Trim(lines[|lines| - 1]) != "" then lines + [""] else lines, Prefix(key) + value);
  }

  /** What overwriting line `i` of a tidy file leaves. */
  predicate Overwritten(lines: seq<string>, i: nat, key: string, value: string)
    requires i < |lines|
  {
    var after := lines[i := Prefix(key) + value];
    Tidy(after) && Load(after) == Load(lines)[key := ParseValue(value)]
  }

  lemma {:induction false} TidyOverwrite(lines: seq<string>, key: string, value: string)
    requires Tidy(lines) && CleanKey(key) && Find(lines, key) < |lines|
    ensures Overwritten(lines, Find(lines, key), key, value)
  {
    var i := Find(lines, key);
    var (init, last) := (lines[..|lines| - 1], lines[|lines| - 1]);
    assert lines == init + [last];
    FindAppend(init, last, key);
    if i == |init| {
      OverwriteLast(init, last, key, value);
    } else {
      TidyOverwrite(init, key, value);
      OverwriteEarlier(init, last, i, key, value);
    }
  }

  lemma OverwriteLast(init: seq<string>, last: string, key: string, value: string)
    requires Tidy(init + [last]) && CleanKey(key) && Prefix(key) <= Trim(last)
    ensures Overwritten(init + [last], |init|, key, value)
  {
    var line := Prefix(key) + value;
    PrefixedLine(last, key);
    TidyParts(init, last, key, ParseValue(value));
    WrittenLine(key, value);
    TidyAppend(init, line);
    assert (init + [last])[|init| := line] == init + [line];
  }

  lemma TidyParts(init: seq<string>, last: string, key: string, v: string)
    requires Tidy(init + [last]) && IsFor(last, key)
    ensures Tidy(init) && key !in Load(init)
    ensures Load(init + [last])[key := v] == Load(init)[key := v]
  {
    assert (init + [last])[..|init|] == init;
  }

  lemma OverwriteEarlier(init: seq<string>, last: string, i: nat, key: string, value: string)
    requires Tidy(init + [last]) && CleanKey(key) && i < |init| && i == Find(init, key)
    requires Overwritten(init, i, key, value)
    ensures Overwritten(init + [last], i, key, value)
  {
    var line := Prefix(key) + value;
    assert (init + [last])[..|init|] == init;
    TidyFinds(init, key);
    TidyAppend(init[i := line], last);
    assert (init + [last])[i := line] == init[i := line] + [last];
    SwapInserts(Load(init), key, ParseValue(value), ParseLine(last));
  }

  /** Setting a key of a tidy file: the map is updated at that key, and the file stays tidy. */
  lemma TidySet(lines: seq<string>, key: string, value: string)
    requires Tidy(lines) && CleanKey(key)
    ensures Tidy(SetLine(lines, key, value))
    ensures Load(SetLine(lines, key, value)) == Load(lines)[key := ParseValue(value)]
  {
    TidyFinds(lines, key);
    if Find(lines, key) == |lines| {
      AppendedLine(lines, key, value);
      TidyAppendNew(lines, key, value);
    } else {
      TidyOverwrite(lines, key, value);
    }
  }

  lemma SwapInserts(m: Env, key: string, value: string, entry: Option<(string, string)>)
    requires entry.Some? ==> entry.value.0 != key
    ensures Insert(m[key := value], entry) == Insert(m, entry)[key := value]
  {
  }

  /** Removing a key of a tidy file drops it alone, and the file stays tidy. */
  lemma {:induction false} TidyRemove(lines: seq<string>, key: string)
    requires Tidy(lines) && CleanKey(key)
    ensures Tidy(KeepOthers(lines, key)) && Load(KeepOthers(lines, key)) == Load(lines) - {key}
  {
    if lines != [] {
      var (init, last) := (lines[..|lines| - 1], lines[|lines| - 1]);
      TidyRemove(init, key);
      PrefixUnderTrim(last, key);
      if Prefix(key) <= TrimStart(last) {
        PrefixedLine(last, key);
        InsertElsewhere(Load(init), key, key, ParseLine(last).value.1);
      } else {
        TidyAppend(KeepOthers(init, key), last);
        if ParseLine(last).Some? {
          InsertElsewhere(Load(init), key, ParseLine(last).value.0, ParseLine(last).value.1);
        }
      }
    }
  }

  // ---------------------------------------------------------------- written and read back

  predicate OneLine(s: string) {
    '\n' !in s
  }

  function StripCrs(lines: seq<string>): (r: seq<string>)
    ensures |r| == |lines|
  {
    seq(|lines|, i requires 0 <= i < |lines| => StripCr(lines[i]))
  }

  lemma {:induction false} LinesAreLines(content: string)
    ensures forall i | 0 <= i < |Lines(content)| :: OneLine(Lines(content)[i])
  {
    match SplitOnce(content, '\n')
    case None =>
    case Some((line, rest)) => LinesAreLines(rest);
  }

  /** What was written comes back line by line, but for a carriage return at the end of one. */
  lemma {:induction false} LinesOfUnlines(lines: seq<string>)
    requires lines != [] && forall i | 0 <= i < |lines| :: OneLine(lines[i])
    ensures Lines(Unlines(lines)) == StripCrs(lines)
  {
    var (first, rest) := (lines[0], lines[1..]);
    if rest == [] {
      assert Unlines(lines) == first + ['\n'] + "";
      LinesSplit(first, "");
      assert StripCrs(lines) == [StripCr(first)];
    } else {
      assert Unlines(lines) == first + ['\n'] + Unlines(rest);
      LinesSplit(first, Unlines(rest));
      LinesOfUnlines(rest);
      assert StripCrs(lines) == [StripCr(first)] + StripCrs(rest);
    }
  }

  lemma LinesSplit(first: string, rest: string)
    requires OneLine(first)
    ensures Lines(first + ['\n'] + rest) == [StripCr(first)] + Lines(rest)
  {
    SplitOnceAt(first, '\n', rest);
  }

  lemma TrimStripCr(line: string)
    ensures Trim(StripCr(line)) == Trim(line)
  {
    TrimStartOfTrimEnd(line);
    TrimStartOfTrimEnd(StripCr(line));
  }

  lemma {:induction false} StripCrsAlike(lines: seq<string>)
    ensures Load(StripCrs(lines)) == Load(lines) && (Tidy(StripCrs(lines)) <==> Tidy(lines))
  {
    if lines != [] {
      var (init, last) := (lines[..|lines| - 1], lines[|lines| - 1]);
      StripCrsAlike(init);
      TrimStripCr(last);
      assert StripCrs(lines)[..|lines| - 1] == StripCrs(init);
    }
  }

  /** Reading what was written gives the map of the lines that were written. */
  lemma WrittenFile(lines: seq<string>)
    requires forall i | 0 <= i < |lines| :: OneLine(lines[i])
    ensures Load(Lines(Unlines(lines))) == Load(lines)
    ensures Tidy(Lines(Unlines(lines))) <==> Tidy(lines)
  {
    if lines == [] {
      assert Unlines(lines) == "" + ['\n'] + "";
      SplitOnceAt("", '\n', "");
      assert Lines(Unlines(lines)) == [""];
      LoadOne("");
      assert [""][..0] == [];
    } else {
      LinesOfUnlines(lines);
      StripCrsAlike(lines);
    }
  }

  function EnvOf(file: Option<string>): Env {
    Load(FileLines(file))
  }

  predicate TidyFile(file: Option<string>) {
    Tidy(FileLines(file))
  }

  /** A set key, read back. */
  lemma SetFile(file: Option<string>, key: string, value: string)
    requires TidyFile(file) && CleanKey(key) && OneLine(value)
    ensures var after := Some(Unlines(SetLine(FileLines(file), key, value)));
            TidyFile(after) && EnvOf(after) == EnvOf(file)[key := ParseValue(value)]
  {
    var lines := FileLines(file);
    if file.Some? {
      LinesAreLines(file.value);
    }
    TidySet(lines, key, value);
    WrittenFile(SetLine(lines, key, value));
  }

  lemma {:induction false} KeptAreLines(lines: seq<string>, key: string)
    requires forall i | 0 <= i < |lines| :: OneLine(lines[i])
    ensures forall i | 0 <= i < |KeepOthers(lines, key)| :: OneLine(KeepOthers(lines, key)[i])
  {
    if lines != [] {
      KeptAreLines(lines[..|lines| - 1], key);
    }
  }

  /** A removed key, read back. */
  lemma RemoveFile(file: Option<string>, key: string)
    requires TidyFile(file) && CleanKey(key)
    ensures TidyFile(RemoveEnvValue(file, key)) && EnvOf(RemoveEnvValue(file, key)) == EnvOf(file) - {key}
  {
    if file.Some? {
      var lines := FileLines(file);
      LinesAreLines(file.value);
      TidyRemove(lines, key);
      KeptAreLines(lines, key);
      WrittenFile(KeepOthers(lines, key));
    }
  }

  lemma {:induction false} TrimKeepsOut(s: string, c: char)
    requires c !in s
    ensures c !in TrimStart(s) && c !in TrimEnd(s)
  {
    if s != "" {
      TrimKeepsOut(s[1..], c);
      TrimKeepsOut(s[..|s| - 1], c);
    }
  }

  lemma {:induction false} TrimCharKeepsOut(s: string, q: char, c: char)
    requires c !in s
    ensures c !in TrimCharStart(s, q) && c !in TrimCharEnd(s, q)
  {
    if s != "" {
      TrimCharKeepsOut(s[1..], q, c);
      TrimCharKeepsOut(s[..|s| - 1], q, c);
    }
  }

  lemma ParsedIsOneLine(s: string)
    requires OneLine(s)
    ensures OneLine(ParseValue(s))
  {
    TrimKeepsOut(s, '\n');
    TrimKeepsOut(TrimStart(s), '\n');
    TrimCharKeepsOut(Trim(s), '"', '\n');
    TrimCharKeepsOut(TrimCharStart(Trim(s), '"'), '"', '\n');
    TrimCharKeepsOut(TrimChar(Trim(s), '"'), '\'', '\n');
    TrimCharKeepsOut(TrimCharStart(TrimChar(Trim(s), '"'), '\''), '\'', '\n');
  }

  lemma ParsedLineIsOneLine(line: string)
    requires OneLine(line)
    ensures ParseLine(line).Some? ==> OneLine(ParseLine(line).value.1)
  {
    TrimKeepsOut(line, '\n');
    TrimKeepsOut(TrimStart(line), '\n');
    var kv := SplitOnce(Trim(line), '=');
    if kv.Some? {
      ParsedIsOneLine(kv.value.1);
    }
  }

  lemma {:induction false} LoadIsOneLine(lines: seq<string>, key: string)
    requires forall i | 0 <= i < |lines| :: OneLine(lines[i])
    ensures key in Load(lines) ==> OneLine(Load(lines)[key])
  {
    if lines != [] {
      LoadIsOneLine(lines[..|lines| - 1], key);
      ParsedLineIsOneLine(lines[|lines| - 1]);
    }
  }

  /** No value that is read from a file holds a line break. */
  lemma LoadedAreLines(file: Option<string>, key: string)
    ensures key in EnvOf(file) ==> OneLine(EnvOf(file)[key])
  {
    if file.Some? {
      LinesAreLines(file.value);
      LoadIsOneLine(Lines(file.value), key);
    }
  }
}
