/** __main__.py: the env file parser and printer, and `configure --set` over the system and the user file. */
module EnvFile {
  import opened Prelude
  import opened OrderedDict
  import Text

  type Env = Dict<string>

  // ---------------------------------------------------------------------------------------------
  // str.splitlines
  // ---------------------------------------------------------------------------------------------

  predicate Break(c: char) {
    '\n' <= c <= '\r' || '\U{1C}' <= c <= '\U{1E}' || c == '\U{85}' || c == '\U{2028}' || c == '\U{2029}'
  }

  /** The terminated lines; a carriage return and the newline after it end one line only. */
  function Lines(t: string): seq<string> {
    if t == "" then []
    else
      var n := |t| - 1;
      if !Break(t[n]) || (t[n] == '\n' && n > 0 && t[n - 1] == '\r') then Lines(t[..n]) else Lines(t[..n]) + [Tail(t[..n])]
  }

  function Tail(t: string): string {
    if t == "" || Break(t[|t| - 1]) then "" else Tail(t[..|t| - 1]) + [t[|t| - 1]]
  }

  function SplitLines(t: string): seq<string> {
    Lines(t) + if Tail(t) == "" then [] else [Tail(t)]
  }

  predicate OneLine(s: string) {
    forall c :: c in s ==> !Break(c)
  }

  lemma {:induction false} LinesAreOneLine(t: string)
    ensures OneLine(Tail(t)) && forall line :: line in SplitLines(t) ==> OneLine(line)
  {
    if t != "" {
      LinesAreOneLine(t[..|t| - 1]);
    }
  }

  lemma AppendChar(t: string, c: char)
    requires !Break(c)
    ensures Lines(t + [c]) == Lines(t) && Tail(t + [c]) == Tail(t) + [c]
  {
    assert (t + [c])[..|t|] == t;
  }

  lemma {:induction false} AppendToLine(t: string, line: string)
    requires Tail(t) == "" && OneLine(line)
    ensures Lines(t + line) == Lines(t) && Tail(t + line) == line
  {
    if line == "" {
      assert t + line == t;
    } else {
      var n := |line| - 1;
      AppendToLine(t, line[..n]);
      AppendChar(t + line[..n], line[n]);
      assert t + line == t + line[..n] + [line[n]];
      assert line == line[..n] + [line[n]];
    }
  }

  /** A non-empty line added to a text that is empty or ends a line. */
  lemma AppendLine(t: string, line: string)
    requires Tail(t) == "" && OneLine(line) && line != ""
    ensures Lines(t + line + "\n") == Lines(t) + [line] && Tail(t + line + "\n") == ""
  {
    AppendToLine(t, line);
    var u := t + line + "\n";
    assert u[..|u| - 1] == t + line;
    assert u[|u| - 2] == line[|line| - 1];
    assert !Break(line[|line| - 1]);
  }

  // ---------------------------------------------------------------------------------------------
  // Parsing
  // ---------------------------------------------------------------------------------------------

  function Strip(s: string): string {
    Text.Trim(Text.PySpace, s)
  }

  /** Where partition("=") cuts. */
  function FirstEq(s: string): (i: nat)
    requires '=' in s
    ensures i < |s| && s[i] == '=' && '=' !in s[..i]
  {
    if s[0] == '=' then 0 else 1 + FirstEq(s[1..])
  }

  function ParseLine(env: Env, raw: string): Env {
    var line := Strip(raw);
    if line == "" || line[0] == '#' || '=' !in line then env
    else Put(env, Strip(line[..FirstEq(line)]), Strip(line[FirstEq(line) + 1..]))
  }

  function ParseLines(lines: seq<string>): Env {
    if lines == [] then [] else ParseLine(ParseLines(lines[..|lines| - 1]), lines[|lines| - 1])
  }

  function Parse(text: string): Env {
    ParseLines(SplitLines(text))
  }

  /** The key and value of a line that has them: not blank, not a comment, with a "=". */
  function RowOf(raw: string): Option<(string, string)> {
    var line := Strip(raw);
    if '=' in line && line[0] != '#' then Some((Strip(line[..FirstEq(line)]), Strip(line[FirstEq(line) + 1..]))) else None
  }

  function LastRow(lines: seq<string>, k: string): Option<string> {
    if lines == [] then None
    else
      var row := RowOf(lines[|lines| - 1]);
      if row.Some? && row.value.0 == k then Some(row.value.1) else LastRow(lines[..|lines| - 1], k)
  }

  /** Each key has the value of the last line that sets it; blank lines, comments and lines without "=" set nothing. */
  lemma {:induction false} LastRowWins(lines: seq<string>, k: string)
    ensures Unique(ParseLines(lines))
    ensures Get(ParseLines(lines), k) == LastRow(lines, k)
  {
    if lines != [] {
      var n := |lines| - 1;
      LastRowWins(lines[..n], k);
      var row := RowOf(lines[n]);
      if row.Some? {
        PutMeaning(ParseLines(lines[..n]), row.value.0, row.value.1);
      }
    }
  }

  /** A missing or unreadable file counts as empty. */
  function ParseFile(file: Option<string>): Env {
    if file.Some? then Parse(file.value) else []
  }

  /** _parse_env_file */
  method ParseEnvFile(file: Option<string>) returns (result: Env)
    ensures result == ParseFile(file)
  {
    result := [];
    if file.None? {
      return;
    }
    var lines := SplitLines(file.value);
    for i := 0 to |lines|
      invariant result == ParseLines(lines[..i])
    {
      assert lines[..i + 1][..i] == lines[..i];
      var line := Strip(lines[i]);
      if line == "" || line[0] == '#' {
        continue;
      }
      if '=' !in line {
        continue;
      }
      var eq := FirstEq(line);
      result := Put(result, Strip(line[..eq]), Strip(line[eq + 1..]));
    }
    assert lines[..|lines|] == lines;
  }

  /** A row that a line of the file can hold as it is. */
  predicate CleanRow(k: string, v: string) {
    && Text.Trimmed(Text.PySpace, k) && Text.Trimmed(Text.PySpace, v)
    && OneLine(k) && OneLine(v)
    && '=' !in k && (k == "" || k[0] != '#')
  }

  predicate Clean(env: Env) {
    forall k :: k in ToMap(env) ==> CleanRow(k, ToMap(env)[k])
  }

  lemma {:induction false} TrimRightKeepsFirst(s: string)
    requires s != "" && !Text.PySpace(s[0])
    ensures Text.TrimRight(Text.PySpace, s) != "" && Text.TrimRight(Text.PySpace, s)[0] == s[0]
  {
    if Text.PySpace(s[|s| - 1]) {
      TrimRightKeepsFirst(s[..|s| - 1]);
    }
  }

  lemma ParsedRowIsClean(raw: string)
    requires OneLine(raw) && Strip(raw) != "" && Strip(raw)[0] != '#' && '=' in Strip(raw)
    ensures var line := Strip(raw); CleanRow(Strip(line[..FirstEq(line)]), Strip(line[FirstEq(line) + 1..]))
  {
    var line := Strip(raw);
    var k := line[..FirstEq(line)];
    var v := line[FirstEq(line) + 1..];
    Text.TrimIsTrimmed(Text.PySpace, raw);
    Text.TrimIsTrimmed(Text.PySpace, k);
    Text.TrimIsTrimmed(Text.PySpace, v);
    assert forall c :: c in k || c in v ==> c in line;
    if k != "" {
      TrimRightKeepsFirst(k);
    }
  }

  /** Whatever the text, the parser returns trimmed one-line rows, with keys free of "=" and not starting with "#". */
  lemma {:induction false} ParseIsClean(lines: seq<string>)
    requires forall line :: line in lines ==> OneLine(line)
    ensures Unique(ParseLines(lines)) && Clean(ParseLines(lines))
  {
    if lines != [] {
      var n := |lines| - 1;
      ParseIsClean(lines[..n]);
      var env, line := ParseLines(lines[..n]), Strip(lines[n]);
      if line != "" && line[0] != '#' && '=' in line {
        ParsedRowIsClean(lines[n]);
        PutMeaning(env, Strip(line[..FirstEq(line)]), Strip(line[FirstEq(line) + 1..]));
      }
    }
  }

  lemma ParsedFileIsClean(file: Option<string>)
    ensures Unique(ParseFile(file)) && Clean(ParseFile(file))
  {
    if file.Some? {
      LinesAreOneLine(file.value);
      ParseIsClean(SplitLines(file.value));
    }
  }

  // ---------------------------------------------------------------------------------------------
  // Printing
  // ---------------------------------------------------------------------------------------------

  function RowLine(row: (string, string)): string {
    row.0 + "=" + row.1
  }

  function RowLines(rows: Env): seq<string> {
    if rows == [] then [] else RowLines(rows[..|rows| - 1]) + [RowLine(rows[|rows| - 1])]
  }

  function Join(lines: seq<string>): string {
    if lines == [] then ""
    else if |lines| == 1 then lines[0]
    else Join(lines[..|lines| - 1]) + "\n" + lines[|lines| - 1]
  }

  /** The text _save_env_file writes. */
  function Print(env: Env): string {
    Join(RowLines(SortByKey(env))) + "\n"
  }

  lemma {:induction false} LinesOfPrinted(rows: Env)
    requires rows != [] && forall i :: 0 <= i < |rows| ==> OneLine(rows[i].0) && OneLine(rows[i].1)
    ensures Lines(Join(RowLines(rows)) + "\n") == RowLines(rows) && Tail(Join(RowLines(rows)) + "\n") == ""
  {
    var n := |rows| - 1;
    var line := RowLine(rows[n]);
    assert RowLines(rows)[..|RowLines(rows)| - 1] == RowLines(rows[..n]);
    if n == 0 {
      assert RowLines(rows) == [line];
      AppendLine("", line);
      assert "" + line + "\n" == line + "\n";
      assert Lines("") + [line] == [line];
    } else {
      LinesOfPrinted(rows[..n]);
      assert RowLines(rows[..n]) != [];
      AppendLine(Join(RowLines(rows[..n])) + "\n", line);
    }
  }

  lemma {:induction false} FirstEqOfRow(k: string, v: string)
    requires '=' !in k
    ensures '=' in k + "=" + v && FirstEq(k + "=" + v) == |k|
  {
    var s := k + "=" + v;
    assert s[|k|] == '=';
    if k != "" {
      FirstEqOfRow(k[1..], v);
      assert s[1..] == k[1..] + "=" + v;
    }
  }

  lemma CleanRowParses(env: Env, k: string, v: string)
    requires CleanRow(k, v)
    ensures ParseLine(env, RowLine((k, v))) == Put(env, k, v)
  {
    var line := RowLine((k, v));
    FirstEqOfRow(k, v);
    assert line[0] == if k == "" then '=' else k[0];
    assert line[|line| - 1] == if v == "" then '=' else v[|v| - 1];
    Text.TrimmedIsFixed(Text.PySpace, line);
    assert line[..|k|] == k && line[|k| + 1..] == v;
    Text.TrimmedIsFixed(Text.PySpace, k);
    Text.TrimmedIsFixed(Text.PySpace, v);
  }

  lemma CleanInit(rows: Env)
    requires Unique(rows) && Clean(rows) && rows != []
    ensures Clean(rows[..|rows| - 1]) && CleanRow(rows[|rows| - 1].0, rows[|rows| - 1].1)
  {
    var n := |rows| - 1;
    assert ToMap(rows)[rows[n].0] == rows[n].1;
    forall x | x in ToMap(rows[..n])
      ensures CleanRow(x, ToMap(rows[..n])[x])
    {
      assert x in ToMap(rows) && ToMap(rows)[x] == ToMap(rows[..n])[x];
    }
  }

  lemma {:induction false} CleanRowsParse(rows: Env)
    requires Unique(rows) && Clean(rows)
    ensures ParseLines(RowLines(rows)) == rows
  {
    if rows != [] {
      var n := |rows| - 1;
      var init, k, v := rows[..n], rows[n].0, rows[n].1;
      CleanInit(rows);
      CleanRowsParse(init);
      assert RowLines(rows)[..|RowLines(rows)| - 1] == RowLines(init);
      LastRowAppends(rows);
      CleanRowParses(init, k, v);
    }
  }

  lemma LastRowAppends(rows: Env)
    requires Unique(rows) && rows != []
    ensures Put(rows[..|rows| - 1], rows[|rows| - 1].0, rows[|rows| - 1].1) == rows
  {
    var init, k, v := rows[..|rows| - 1], rows[|rows| - 1].0, rows[|rows| - 1].1;
    PutMeaning(init, k, v);
    assert rows == init + [(k, v)];
  }

  lemma EmptyRoundTrip()
    ensures Parse(Join(RowLines([])) + "\n") == []
  {
    var t := Join(RowLines([])) + "\n";
    assert t == "\n" && t[..0] == "";
    assert Break(t[0]) && Lines(t) == Lines("") + [Tail("")] == [""];
    assert Tail(t) == "";
    assert SplitLines(t) == [""] + [] == [""];
    assert [""][..0] == [];
    assert ParseLines([""]) == ParseLine(ParseLines([]), "");
  }

  lemma RowsRoundTrip(rows: Env)
    requires Unique(rows) && Clean(rows) && rows != []
    ensures Parse(Join(RowLines(rows)) + "\n") == rows
  {
    UniquePositions(rows);
    forall i | 0 <= i < |rows|
      ensures OneLine(rows[i].0) && OneLine(rows[i].1)
    {
      assert CleanRow(rows[i].0, ToMap(rows)[rows[i].0]);
    }
    LinesOfPrinted(rows);
    assert SplitLines(Join(RowLines(rows)) + "\n") == RowLines(rows);
    CleanRowsParse(rows);
  }

  /** Printing a clean dict and parsing it gives its rows back, sorted by key. */
  lemma CleanRoundTrip(env: Env)
    requires Unique(env) && Clean(env)
    ensures Parse(Print(env)) == SortByKey(env) && ToMap(SortByKey(env)) == ToMap(env)
  {
    SortKeepsRows(env);
    if SortByKey(env) == [] {
      EmptyRoundTrip();
    } else {
      RowsRoundTrip(SortByKey(env));
    }
  }

  /**
   The round trip gives a dict back exactly when its keys and values are trimmed and hold no line break,
   and no key contains "=" or starts with "#".
   */
  lemma RoundTripIff(env: Env)
    requires Unique(env)
    ensures ToMap(Parse(Print(env))) == ToMap(env) <==> Clean(env)
  {
    if Clean(env) {
      CleanRoundTrip(env);
    }
    ParsedFileIsClean(Some(Print(env)));
  }

  /** For every text, printing what was parsed and parsing again changes no row. */
  lemma ParsePrintParse(text: string)
    ensures ToMap(Parse(Print(Parse(text)))) == ToMap(Parse(text))
  {
    ParsedFileIsClean(Some(text));
    CleanRoundTrip(Parse(text));
  }

  // ---------------------------------------------------------------------------------------------
  // Two files, and configure --set
  // ---------------------------------------------------------------------------------------------

  datatype Files = Files(system: Option<string>, user: Option<string>)
  datatype Target = System | User

  /** d.update(e) */
  function Update(d: Env, e: Env): Env {
    if e == [] then d else Put(Update(d, e[..|e| - 1]), e[|e| - 1].0, e[|e| - 1].1)
  }

  lemma {:induction false} UpdateMeaning(d: Env, e: Env)
    requires Unique(d)
    ensures Unique(Update(d, e)) && ToMap(Update(d, e)) == ToMap(d) + ToMap(e)
  {
    if e != [] {
      var init, k, v := e[..|e| - 1], e[|e| - 1].0, e[|e| - 1].1;
      UpdateMeaning(d, init);
      PutMeaning(Update(d, init), k, v);
      MergeThenSet(ToMap(d), ToMap(init), k, v);
    }
  }

  lemma MergeThenSet(a: map<string, string>, b: map<string, string>, k: string, v: string)
    ensures (a + b)[k := v] == a + b[k := v]
  {
  }

  /** _load_env_file on Linux: the user's rows over the system's. */
  function Load(f: Files): Env {
    Update(ParseFile(f.system), ParseFile(f.user))
  }

  lemma LoadMeaning(f: Files)
    ensures Unique(Load(f)) && Clean(Load(f))
    ensures ToMap(Load(f)) == ToMap(ParseFile(f.system)) + ToMap(ParseFile(f.user))
  {
    ParsedFileIsClean(f.system);
    ParsedFileIsClean(f.user);
    UpdateMeaning(ParseFile(f.system), ParseFile(f.user));
  }

  function Save(f: Files, target: Target, env: Env): Files {
    if target.System? then f.(system := Some(Print(env))) else f.(user := Some(Print(env)))
  }

  function Get(env: Env, k: string): Option<string> {
    if k in ToMap(env) then Some(ToMap(env)[k]) else None
  }

  /** The rows of the file that is not written. */
  function Other(f: Files, target: Target): Env {
    ParseFile(if target.System? then f.user else f.system)
  }

  /** Saved to the user file, every row is what loading returns, whatever the system file holds. */
  lemma SavedRowsAreLoaded(f: Files, env: Env, k: string)
    requires Unique(env) && Clean(env) && k in ToMap(env)
    ensures Get(Load(Save(f, User, env)), k) == Some(ToMap(env)[k])
  {
    CleanRoundTrip(env);
    LoadMeaning(Save(f, User, env));
  }

  const PREFIX := "LLM_PORT_NODE_AGENT_"

  const SETTABLE_NAMES: set<string> := {
    "BACKEND_URL", "ENROLLMENT_TOKEN", "AGENT_ID", "HOST", "ADVERTISE_HOST", "ADVERTISE_SCHEME", "MODEL_STORE",
    "LOKI_URL", "LOG_LEVEL"
  }

  const SETTABLE_LIMITS: set<string> := {
    "VERIFY_TLS", "IMAGE_ALLOWLIST", "LOG_BATCH_SIZE", "LOG_FLUSH_INTERVAL_SEC", "HEARTBEAT_INTERVAL_SEC",
    "RECONNECT_MIN_SEC", "RECONNECT_MAX_SEC", "REQUEST_TIMEOUT_SEC"
  }

  predicate Settable(short: string) {
    short in SETTABLE_NAMES || short in SETTABLE_LIMITS
  }

  function RemovePrefix(s: string): string {
    if PREFIX <= s then s[|PREFIX|..] else s
  }

  /** The full key and the value of one KEY=VALUE argument; None where the command exits with an error. */
  function Argument(upper: string -> string, pair: string): Option<(string, string)> {
    if '=' !in pair then None
    else
      var short := RemovePrefix(upper(Strip(pair[..FirstEq(pair)])));
      if !Settable(short) then None else Some((PREFIX + short, Strip(pair[FirstEq(pair) + 1..])))
  }

  function Assign(env: Env, k: string, v: string): Env {
    if v != "" then Put(env, k, v) else Pop(env, k)
  }

  function SetPairs(upper: string -> string, env: Env, pairs: seq<string>): Option<Env> {
    if pairs == [] then Some(env)
    else
      var before, a := SetPairs(upper, env, pairs[..|pairs| - 1]), Argument(upper, pairs[|pairs| - 1]);
      if before.None? || a.None? then None else Some(Assign(before.value, a.value.0, a.value.1))
  }

  /** cmd_configure_set: a bad argument anywhere leaves both files alone. */
  method ConfigureSet(f: Files, target: Target, upper: string -> string, pairs: seq<string>) returns (g: Files, ok: bool)
    ensures ok == SetPairs(upper, Load(f), pairs).Some?
    ensures g == if ok then Save(f, target, SetPairs(upper, Load(f), pairs).value) else f
  {
    var env := Load(f);
    for i := 0 to |pairs|
      invariant SetPairs(upper, Load(f), pairs[..i]) == Some(env)
    {
      assert pairs[..i + 1][..i] == pairs[..i];
      var argument := Argument(upper, pairs[i]);
      if argument.None? {
        BadArgument(upper, Load(f), pairs, i + 1);
        return f, false;
      }
      var (fullKey, value) := argument.value;
      if value != "" {
        env := Put(env, fullKey, value);
      } else {
        env := Pop(env, fullKey);
      }
    }
    assert pairs[..|pairs|] == pairs;
    return Save(f, target, env), true;
  }

  lemma {:induction false} BadArgument(upper: string -> string, env: Env, pairs: seq<string>, i: nat)
    requires i <= |pairs| && SetPairs(upper, env, pairs[..i]).None?
    ensures SetPairs(upper, env, pairs).None?
  {
    if i == |pairs| {
      assert pairs[..i] == pairs;
    } else {
      assert pairs[..|pairs| - 1][..i] == pairs[..i];
      BadArgument(upper, env, pairs[..|pairs| - 1], i);
    }
  }

  /** What the arguments ask for the key: the last value they give it, "" to unset it, None if they do not name it. */
  function Asked(upper: string -> string, pairs: seq<string>, k: string): Option<string> {
    if pairs == [] then None
    else
      var a := Argument(upper, pairs[|pairs| - 1]);
      if a.Some? && a.value.0 == k then Some(a.value.1) else Asked(upper, pairs[..|pairs| - 1], k)
  }

  function Expected(before: Option<string>, asked: Option<string>): Option<string> {
    if asked.None? then before else if asked.value == "" then None else asked
  }

  predicate Plain(s: string) {
    forall i :: 0 <= i < |s| ==> 'A' <= s[i] <= 'Z' || s[i] == '_'
  }

  lemma NamesArePlain(short: string)
    requires short in SETTABLE_NAMES
    ensures Plain(short)
  {
  }

  lemma LimitsArePlain(short: string)
    requires short in SETTABLE_LIMITS
    ensures Plain(short)
  {
  }

  lemma FullKeyIsPlain(short: string)
    requires Settable(short)
    ensures Plain(PREFIX + short)
  {
    if short in SETTABLE_NAMES {
      NamesArePlain(short);
    } else {
      LimitsArePlain(short);
    }
    assert Plain(PREFIX);
  }

  /** What an argument sets can be printed exactly when the value has no line break inside. */
  lemma ArgumentIsClean(upper: string -> string, pair: string)
    requires Argument(upper, pair).Some?
    ensures CleanRow(Argument(upper, pair).value.0, Argument(upper, pair).value.1) <==> OneLine(Argument(upper, pair).value.1)
  {
    FullKeyIsPlain(RemovePrefix(upper(Strip(pair[..FirstEq(pair)]))));
    Text.TrimIsTrimmed(Text.PySpace, pair[FirstEq(pair) + 1..]);
    PlainIsClean(Argument(upper, pair).value.0);
  }

  lemma PlainIsClean(k: string)
    requires Plain(k)
    ensures OneLine(k) && '=' !in k && Text.Trimmed(Text.PySpace, k) && (k == "" || k[0] != '#')
  {
  }

  /** Every row is printable but for line breaks inside its value. */
  predicate NearlyClean(env: Env) {
    forall k :: k in ToMap(env) ==> (CleanRow(k, ToMap(env)[k]) <==> OneLine(ToMap(env)[k]))
  }

  /** The arguments do to the dict what they ask for, key by key, the last one winning. */
  lemma {:induction false} SetPairsMeaning(upper: string -> string, env: Env, pairs: seq<string>)
    requires Unique(env) && NearlyClean(env) && SetPairs(upper, env, pairs).Some?
    ensures var e := SetPairs(upper, env, pairs).value;
            && Unique(e) && NearlyClean(e)
            && forall k :: Get(e, k) == Expected(Get(env, k), Asked(upper, pairs, k))
  {
    if pairs != [] {
      var n := |pairs| - 1;
      SetPairsMeaning(upper, env, pairs[..n]);
      var before := SetPairs(upper, env, pairs[..n]).value;
      var (k, v) := Argument(upper, pairs[n]).value;
      ArgumentIsClean(upper, pairs[n]);
      AssignMeaning(before, k, v);
      forall x
        ensures Get(Assign(before, k, v), x) == Expected(Get(env, x), Asked(upper, pairs, x))
      {
        assert Get(before, x) == Expected(Get(env, x), Asked(upper, pairs[..n], x));
      }
    }
  }

  lemma AssignMeaning(env: Env, k: string, v: string)
    requires Unique(env) && NearlyClean(env) && (CleanRow(k, v) <==> OneLine(v))
    ensures Unique(Assign(env, k, v)) && NearlyClean(Assign(env, k, v))
    ensures forall x :: Get(Assign(env, k, v), x) == if x == k then (if v == "" then None else Some(v)) else Get(env, x)
  {
    if v != "" {
      PutMeaning(env, k, v);
      StillNearlyClean(env, Put(env, k, v), k, v);
    } else {
      PopMeaning(env, k);
      StillNearlyClean(env, Pop(env, k), k, v);
    }
  }

  lemma StillNearlyClean(env: Env, e: Env, k: string, v: string)
    requires NearlyClean(env) && (CleanRow(k, v) <==> OneLine(v))
    requires ToMap(e) == ToMap(env)[k := v] || ToMap(e) == ToMap(env) - {k}
    ensures NearlyClean(e)
  {
  }

  /** The file that is not written still has its say: over a value saved to the system file, or in place of one unset in either. */
  predicate Overruled(f: Files, target: Target, k: string, asked: Option<string>) {
    && asked.Some?
    && k in ToMap(Other(f, target))
    && (asked.value == "" || (target.System? && ToMap(Other(f, target))[k] != asked.value))
  }

  lemma SavedThenLoaded(f: Files, target: Target, env: Env, k: string)
    requires Unique(env) && Clean(env)
    ensures Get(Load(Save(f, target, env)), k) ==
            if target.User? && k in ToMap(env) then Get(env, k)
            else if k in ToMap(Other(f, target)) then Get(Other(f, target), k)
            else Get(env, k)
  {
    CleanRoundTrip(env);
    LoadMeaning(Save(f, target, env));
  }

  /** Loading returns for the key what was asked for, or what it was when nothing was asked. */
  predicate TakesEffect(f: Files, after: Files, upper: string -> string, pairs: seq<string>, k: string) {
    Get(Load(after), k) == Expected(Get(Load(f), k), Asked(upper, pairs, k))
  }

  /** What is asked for the key can be written on one line and is not overruled. */
  predicate Feasible(f: Files, target: Target, upper: string -> string, pairs: seq<string>, k: string) {
    var asked := Asked(upper, pairs, k);
    (asked.Some? ==> OneLine(asked.value)) && !Overruled(f, target, k, asked)
  }

  lemma PrintableIff(f: Files, upper: string -> string, pairs: seq<string>)
    requires SetPairs(upper, Load(f), pairs).Some?
    ensures var env := SetPairs(upper, Load(f), pairs).value;
            && Unique(env)
            && (forall k :: Get(env, k) == Expected(Get(Load(f), k), Asked(upper, pairs, k)))
            && (Clean(env) <==> forall k :: Asked(upper, pairs, k).Some? ==> OneLine(Asked(upper, pairs, k).value))
  {
    var env := SetPairs(upper, Load(f), pairs).value;
    LoadMeaning(f);
    SetPairsMeaning(upper, Load(f), pairs);
    forall k | k in ToMap(env)
      ensures OneLine(ToMap(env)[k]) <==> Asked(upper, pairs, k).Some? ==> OneLine(Asked(upper, pairs, k).value)
    {
      assert Get(env, k) == Expected(Get(Load(f), k), Asked(upper, pairs, k));
    }
    forall k | Asked(upper, pairs, k).Some? && !OneLine(Asked(upper, pairs, k).value)
      ensures k in ToMap(env) && !OneLine(ToMap(env)[k])
    {
      assert Get(env, k) == Expected(Get(Load(f), k), Asked(upper, pairs, k));
    }
  }

  /**
   After any successful `configure --set`, loading returns what was asked for, and for every other key
   what it was, exactly when no value asked for has a line break inside and the file that is not written
   overrules none of the requests.
   */
  lemma ConfigureTakesEffectIff(f: Files, target: Target, upper: string -> string, pairs: seq<string>)
    requires SetPairs(upper, Load(f), pairs).Some?
    ensures var after := Save(f, target, SetPairs(upper, Load(f), pairs).value);
            (forall k :: TakesEffect(f, after, upper, pairs, k)) <==> (forall k :: Feasible(f, target, upper, pairs, k))
  {
    var env := SetPairs(upper, Load(f), pairs).value;
    var after := Save(f, target, env);
    PrintableIff(f, upper, pairs);
    LoadMeaning(after);
    if Clean(env) {
      forall k
        ensures TakesEffect(f, after, upper, pairs, k) <==> Feasible(f, target, upper, pairs, k)
      {
        KeyTakesEffectIff(f, target, upper, pairs, k);
      }
    } else {
      var k :| Asked(upper, pairs, k).Some? && !OneLine(Asked(upper, pairs, k).value);
      assert !Feasible(f, target, upper, pairs, k);
      assert !TakesEffect(f, after, upper, pairs, k);
    }
  }

  lemma KeyTakesEffectIff(f: Files, target: Target, upper: string -> string, pairs: seq<string>, k: string)
    requires SetPairs(upper, Load(f), pairs).Some? && Clean(SetPairs(upper, Load(f), pairs).value)
    ensures var after := Save(f, target, SetPairs(upper, Load(f), pairs).value);
            TakesEffect(f, after, upper, pairs, k) <==> !Overruled(f, target, k, Asked(upper, pairs, k))
  {
    var env := SetPairs(upper, Load(f), pairs).value;
    LoadMeaning(f);
    PrintableIff(f, upper, pairs);
    SavedThenLoaded(f, target, env, k);
    assert Get(env, k) == Expected(Get(Load(f), k), Asked(upper, pairs, k));
  }

  const HOST := PREFIX + "HOST"

  function AsIs(s: string): string {
    s
  }

  lemma HostArgument(env: Env, value: string)
    requires Text.Trimmed(Text.PySpace, value)
    ensures Argument(AsIs, "HOST=" + value) == Some((HOST, value)) && CleanRow(HOST, "a")
    ensures SetPairs(AsIs, env, ["HOST=" + value]) == Some(Assign(env, HOST, value))
    ensures Asked(AsIs, ["HOST=" + value], HOST) == Some(value)
  {
    var pair := "HOST=" + value;
    assert pair == "HOST" + "=" + value;
    FirstEqOfRow("HOST", value);
    assert pair[..4] == "HOST" && pair[5..] == value;
    assert Plain("HOST");
    PlainIsClean("HOST");
    Text.TrimmedIsFixed(Text.PySpace, "HOST");
    Text.TrimmedIsFixed(Text.PySpace, value);
    FullKeyIsPlain("HOST");
    PlainIsClean(HOST);
    assert [pair][..0] == [];
  }

  lemma OneRow(v: string)
    ensures Unique([(HOST, v)]) && ToMap([(HOST, v)]) == map[HOST := v]
  {
    assert [(HOST, v)][..0] == [];
    Snoc([], (HOST, v));
    assert [] + [(HOST, v)] == [(HOST, v)];
  }

  /** A value saved to the system file while the user's file sets the key: loading returns the user's. */
  lemma UserFileWins()
    ensures var f := Files(None, Some(Print([(HOST, "a")])));
            && SetPairs(AsIs, Load(f), ["HOST=b"]).Some?
            && Asked(AsIs, ["HOST=b"], HOST) == Some("b")
            && Get(Load(Save(f, System, SetPairs(AsIs, Load(f), ["HOST=b"]).value)), HOST) == Some("a")
  {
    var f := Files(None, Some(Print([(HOST, "a")])));
    assert "HOST=" + "b" == "HOST=b";
    HostArgument(Load(f), "b");
    OneRow("a");
    CleanRoundTrip([(HOST, "a")]);
    LoadMeaning(Save(f, System, Assign(Load(f), HOST, "b")));
  }

  /** A value with a line break inside: loading does not return it. */
  lemma LineBreakIsLost()
    ensures var f := Files(None, None);
            && SetPairs(AsIs, Load(f), ["HOST=b\nc"]).Some?
            && Asked(AsIs, ["HOST=b\nc"], HOST) == Some("b\nc")
            && Get(Load(Save(f, User, SetPairs(AsIs, Load(f), ["HOST=b\nc"]).value)), HOST) != Some("b\nc")
  {
    var f, v := Files(None, None), "b\nc";
    assert "HOST=" + v == "HOST=b\nc";
    HostArgument(Load(f), v);
    assert Load(f) == [];
    LoadMeaning(Save(f, User, SetPairs(AsIs, Load(f), ["HOST=b\nc"]).value));
    assert Break(v[1]);
  }

  // ---------------------------------------------------------------------------------------------
  // The formats, both ways
  // ---------------------------------------------------------------------------------------------

  predicate Blank(s: string) {
    Text.Blank(Text.PySpace, s)
  }

  function Spaced(a: string, k: string, b: string, c: string, v: string, d: string): string {
    a + (k + b) + "=" + (c + v) + d
  }

  /** A line that sets a key: the key, the first "=" and the value, with any whitespace around the two. */
  ghost predicate SettingLine(raw: string, k: string, v: string) {
    && Text.Trimmed(Text.PySpace, k) && Text.Trimmed(Text.PySpace, v) && '=' !in k && (k == "" || k[0] != '#')
    && exists a, b, c, d :: Blank(a) && Blank(b) && Blank(c) && Blank(d) && Spaced(a, k, b, c, v, d) == raw
  }

  lemma NoEqInBlank(s: string)
    requires Blank(s)
    ensures '=' !in s
  {
  }

  /** A key with whitespace behind it, which belongs to the margin when the key is empty. */
  lemma KeySide(a: string, k: string, b: string) returns (margin: string, left: string)
    requires Text.Trimmed(Text.PySpace, k) && Blank(a) && Blank(b) && '=' !in k && (k == "" || k[0] != '#')
    ensures Blank(margin) && a + (k + b) == margin + left && Strip(left) == k && '=' !in left
    ensures left == "" || (!Text.PySpace(left[0]) && left[0] != '#')
  {
    NoEqInBlank(b);
    if k == "" {
      margin, left := a + b, "";
      assert "" + b == b && a + b + "" == a + b;
    } else {
      margin, left := a, k + b;
      Text.TrimPadded(Text.PySpace, "", k, b);
      assert "" + k + b == k + b;
    }
  }

  lemma ValueSide(c: string, v: string, d: string) returns (right: string, margin: string)
    requires Text.Trimmed(Text.PySpace, v) && Blank(c) && Blank(d)
    ensures Blank(margin) && c + v + d == right + margin && Strip(right) == v
    ensures right == "" || !Text.PySpace(right[|right| - 1])
  {
    if v == "" {
      right, margin := "", c + d;
      assert c + "" == c && "" + (c + d) == c + d;
    } else {
      right, margin := c + v, d;
      Text.TrimPadded(Text.PySpace, c, v, "");
      assert c + v + "" == c + v;
    }
  }

  lemma CoreParses(before: string, left: string, right: string, behind: string)
    requires Blank(before) && Blank(behind) && '=' !in left
    requires left == "" || (!Text.PySpace(left[0]) && left[0] != '#')
    requires right == "" || !Text.PySpace(right[|right| - 1])
    ensures RowOf(before + (left + "=" + right) + behind) == Some((Strip(left), Strip(right)))
  {
    var core := left + "=" + right;
    assert core[0] == if left == "" then '=' else left[0];
    assert core[|core| - 1] == if right == "" then '=' else right[|right| - 1];
    Text.TrimPadded(Text.PySpace, before, core, behind);
    FirstEqOfRow(left, right);
    assert core[..|left|] == left && core[|left| + 1..] == right;
  }

  lemma SettingLineParses(raw: string, k: string, v: string, a: string, b: string, c: string, d: string)
    requires Text.Trimmed(Text.PySpace, k) && Text.Trimmed(Text.PySpace, v) && '=' !in k && (k == "" || k[0] != '#')
    requires Blank(a) && Blank(b) && Blank(c) && Blank(d) && Spaced(a, k, b, c, v, d) == raw
    ensures RowOf(raw) == Some((k, v))
  {
    var before, left := KeySide(a, k, b);
    var right, behind := ValueSide(c, v, d);
    CoreParses(before, left, right, behind);
    Around(a + (k + b), before, left, c + v, d, right, behind);
  }

  lemma Around(l: string, before: string, left: string, r: string, d: string, right: string, behind: string)
    requires l == before + left && r + d == right + behind
    ensures l + "=" + r + d == before + (left + "=" + right) + behind
  {
    assert l + "=" + r + d == l + ("=" + (r + d));
    assert before + (left + "=" + right) + behind == before + left + ("=" + (right + behind));
  }

  lemma ParsedLineSplits(raw: string) returns (a: string, b: string, c: string, d: string)
    requires RowOf(raw).Some?
    ensures Blank(a) && Blank(b) && Blank(c) && Blank(d)
    ensures Spaced(a, RowOf(raw).value.0, b, c, RowOf(raw).value.1, d) == raw
  {
    var line := Strip(raw);
    var left, right := line[..FirstEq(line)], line[FirstEq(line) + 1..];
    var a0, d0 := Text.TrimSplit(Text.PySpace, raw);
    var a1, c1 := Text.TrimSplit(Text.PySpace, left);
    var c2, d2 := Text.TrimSplit(Text.PySpace, right);
    a, b, c, d := a0 + a1, c1, c2, d2 + d0;
    assert line == left + "=" + right;
    JoinParts(a0, a1, Strip(left), c1, c2, Strip(right), d2, d0);
  }

  lemma ParsedKey(raw: string)
    requires RowOf(raw).Some?
    ensures var k := RowOf(raw).value.0; '=' !in k && (k == "" || k[0] != '#')
  {
    var line := Strip(raw);
    var left := line[..FirstEq(line)];
    Text.TrimIsTrimmed(Text.PySpace, raw);
    Text.TrimIsTrimmed(Text.PySpace, left);
    if left != "" {
      TrimRightKeepsFirst(left);
    }
  }

  lemma JoinParts(a0: string, a1: string, k: string, b: string, c: string, v: string, d2: string, d0: string)
    ensures a0 + ((a1 + k + b) + "=" + (c + v + d2)) + d0 == Spaced(a0 + a1, k, b, c, v, d2 + d0)
  {
    assert a0 + (a1 + k + b) == (a0 + a1) + (k + b);
    assert (c + v + d2) + d0 == (c + v) + (d2 + d0);
    assert a0 + ((a1 + k + b) + "=" + (c + v + d2)) + d0 == (a0 + (a1 + k + b)) + "=" + ((c + v + d2) + d0);
  }

  /** Exactly the lines of that form set a key. */
  lemma RowMeaning(raw: string, k: string, v: string)
    ensures RowOf(raw) == Some((k, v)) <==> SettingLine(raw, k, v)
  {
    if RowOf(raw) == Some((k, v)) {
      var line := Strip(raw);
      Text.TrimIsTrimmed(Text.PySpace, line[..FirstEq(line)]);
      Text.TrimIsTrimmed(Text.PySpace, line[FirstEq(line) + 1..]);
      var a, b, c, d := ParsedLineSplits(raw);
      ParsedKey(raw);
    }
    if SettingLine(raw, k, v) {
      var a, b, c, d :| Blank(a) && Blank(b) && Blank(c) && Blank(d) && Spaced(a, k, b, c, v, d) == raw;
      SettingLineParses(raw, k, v, a, b, c, d);
    }
  }

  /** One line per row, each ended by a newline. */
  function Written(rows: Env): string {
    if rows == [] then "" else Written(rows[..|rows| - 1]) + (rows[|rows| - 1].0 + "=" + rows[|rows| - 1].1 + "\n")
  }

  lemma {:induction false} JoinedIsWritten(rows: Env)
    requires rows != []
    ensures Join(RowLines(rows)) + "\n" == Written(rows)
  {
    var n := |rows| - 1;
    assert RowLines(rows)[..|RowLines(rows)| - 1] == RowLines(rows[..n]);
    if n == 0 {
      assert RowLines(rows) == [RowLine(rows[0])] && rows[..0] == [];
    } else {
      JoinedIsWritten(rows[..n]);
      assert RowLines(rows[..n]) != [];
      assert Join(RowLines(rows)) == Join(RowLines(rows[..n])) + "\n" + RowLine(rows[n]);
    }
  }

  /** The text saved: the rows in the order of their keys, "key=value" and a newline each; a single newline for none. */
  lemma PrintMeaning(env: Env)
    requires Unique(env)
    ensures ToMap(SortByKey(env)) == ToMap(env) && Sorted(SortByKey(env))
    ensures Print(env) == if env == [] then "\n" else Written(SortByKey(env))
  {
    SortKeepsRows(env);
    if env != [] {
      UniquePositions(env);
      JoinedIsWritten(SortByKey(env));
    }
  }

  function Paired(raw: string, rest: string): string {
    raw + "=" + rest
  }

  /** KEY=VALUE with a known key, which may have its prefix and, after upper-casing, be written in any case. */
  ghost predicate SettingArgument(upper: string -> string, pair: string, k: string, v: string) {
    exists raw, rest, short ::
      && Paired(raw, rest) == pair && '=' !in raw && v == Strip(rest)
      && KnownKey(short, upper(Strip(raw)), k)
  }

  predicate KnownKey(short: string, written: string, k: string) {
    (short in SETTABLE_NAMES || short in SETTABLE_LIMITS) && k == PREFIX + short && (written == short || written == PREFIX + short)
  }

  lemma NamesUnprefixed(short: string)
    requires short in SETTABLE_NAMES
    ensures !(PREFIX <= short)
  {
    assert PREFIX[0] == 'L' && PREFIX[1] == 'L';
    assert short[0] != 'L' || short[1] != 'L';
  }

  lemma LimitsUnprefixed(short: string)
    requires short in SETTABLE_LIMITS
    ensures !(PREFIX <= short)
  {
    assert PREFIX[0] == 'L' && PREFIX[1] == 'L';
    assert short[0] != 'L' || short[1] != 'L';
  }

  lemma RemovesPrefix(short: string)
    requires short in SETTABLE_NAMES || short in SETTABLE_LIMITS
    ensures RemovePrefix(short) == short && RemovePrefix(PREFIX + short) == short
  {
    if short in SETTABLE_NAMES {
      NamesUnprefixed(short);
    } else {
      LimitsUnprefixed(short);
    }
    assert (PREFIX + short)[|PREFIX|..] == short;
  }

  lemma AcceptedArgument(upper: string -> string, pair: string)
    requires Argument(upper, pair).Some?
    ensures SettingArgument(upper, pair, Argument(upper, pair).value.0, Argument(upper, pair).value.1)
  {
    var raw, rest := pair[..FirstEq(pair)], pair[FirstEq(pair) + 1..];
    var written := upper(Strip(raw));
    assert Paired(raw, rest) == pair;
    assert PREFIX <= written ==> written == PREFIX + written[|PREFIX|..];
    assert KnownKey(RemovePrefix(written), written, PREFIX + RemovePrefix(written));
  }

  lemma ArgumentAccepted(upper: string -> string, raw: string, rest: string, short: string, k: string)
    requires '=' !in raw && KnownKey(short, upper(Strip(raw)), k)
    ensures Argument(upper, Paired(raw, rest)) == Some((k, Strip(rest)))
  {
    var pair := Paired(raw, rest);
    FirstEqOfRow(raw, rest);
    assert pair[..|raw|] == raw && pair[|raw| + 1..] == rest;
    RemovesPrefix(short);
  }

  /** Exactly the arguments of that form are accepted, and this is what they set. */
  lemma ArgumentMeaning(upper: string -> string, pair: string, k: string, v: string)
    ensures Argument(upper, pair) == Some((k, v)) <==> SettingArgument(upper, pair, k, v)
  {
    if Argument(upper, pair) == Some((k, v)) {
      AcceptedArgument(upper, pair);
    }
    if SettingArgument(upper, pair, k, v) {
      var raw, rest, short :| Paired(raw, rest) == pair && '=' !in raw && v == Strip(rest) && KnownKey(short, upper(Strip(raw)), k);
      ArgumentAccepted(upper, raw, rest, short, k);
    }
  }
}
