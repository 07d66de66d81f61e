/** The shared configuration loader: reads `configs/<APP_ENV>.env` under
    the project root line by line and copies KEY=VALUE pairs into the
    process environment without overriding variables already set. The
    environment is a map; the outcome of locating, opening and reading the
    file is a parameter. */
module ConfigLoader {
  import opened Results
  import opened Text

  /** The process environment. */
  type Env = map<string, string>

  /** os.Getenv: an unset variable reads as "", and so does the empty key,
      for which syscall.Getenv never consults the environment. */
  function Getenv(env: Env, key: string): (v: string)
    ensures key == "" || key !in env ==> v == ""
    ensures key != "" && key in env ==> v == env[key]
  {
    if key != "" && key in env then env[key] else ""
  }

  /** The checks os.Setenv makes on Unix before setting a variable: a
      non-empty key with no `=` or NUL, and a value with no NUL. */
  predicate SetenvAccepts(key: string, value: string)
  {
    key != "" && '=' !in key && '\0' !in key && '\0' !in value
  }

  datatype Loader = Loader(env: string)

  /** NewLoader: the environment name comes from APP_ENV, "dev" when unset
      or empty. */
  function NewLoader(env: Env): (l: Loader)
    ensures Getenv(env, "APP_ENV") == "" ==> l.env == "dev"
    ensures Getenv(env, "APP_ENV") != "" ==> l.env == Getenv(env, "APP_ENV")
  {
    var name := Getenv(env, "APP_ENV");
    Loader(if name == "" then "dev" else name)
  }

  /** The path of the env file below the project root. */
  function ConfigFile(l: Loader): string
  {
    "configs/" + l.env + ".env"
  }

  /** The quote characters removed around a value. */
  const QuoteChars: set<char> := {'"', '\''}

  /** How one physical line of the file is read. */
  datatype Line = Skip | Malformed(line: string) | Assignment(key: string, value: string)

  /** One line: blank lines and `#` comments are skipped; otherwise the
      trimmed line must contain `=`, splits at the first one, and key and
      value are trimmed, the value also of every surrounding quote. */
  function ParseLine(raw: string): (r: Line)
    ensures r.Skip? <==> TrimSpace(raw) == "" || TrimSpace(raw)[0] == '#'
    ensures r.Malformed? <==> !r.Skip? && '=' !in TrimSpace(raw)
    ensures r.Malformed? ==> r.line == TrimSpace(raw)
    ensures r.Assignment? ==> '=' !in r.key
  {
    var line := TrimSpace(raw);
    if line == "" || HasPrefix(line, "#") then Skip
    else match CutAtFirst(line, '=')
      case None => Malformed(line)
      case Some((k, v)) =>
        assert '=' !in TrimSpace(k) by {
          assert forall c :: c in TrimSpace(k) ==> c in k;
        }
        Assignment(TrimSpace(k), Trim(TrimSpace(v), QuoteChars))
  }

  /** The first and last characters of `open + value + close`. */
  lemma QuotedEnds(open: string, value: string, close: string)
    requires forall k :: 0 <= k < |open| ==> open[k] in QuoteChars
    requires forall k :: 0 <= k < |close| ==> close[k] in QuoteChars
    requires value == [] || (value[0] !in Whitespace && value[|value| - 1] !in Whitespace)
    ensures var rhs := open + value + close;
      rhs == [] || (rhs[0] !in Whitespace && rhs[|rhs| - 1] !in Whitespace)
  {
    var rhs := open + value + close;
    if |rhs| > 0 {
      if |open| > 0 { assert rhs[0] == open[0]; }
      else if |value| > 0 { assert rhs[0] == value[0]; }
      else { assert rhs[0] == close[0]; }
      if |close| > 0 { assert rhs[|rhs| - 1] == close[|close| - 1]; }
      else if |value| > 0 { assert rhs[|rhs| - 1] == value[|value| - 1]; }
      else { assert rhs[|rhs| - 1] == open[|open| - 1]; }
    }
  }

  /** How ParseLine reads a line that is already trimmed and is not a
      comment, given where its first `=` is. */
  lemma ParseTrimmedLine(raw: string, key: string, rhs: string)
    requires TrimSpace(raw) == raw && raw != [] && raw[0] != '#'
    requires CutAtFirst(raw, '=') == Some((key, rhs))
    ensures ParseLine(raw) == Assignment(TrimSpace(key), Trim(TrimSpace(rhs), QuoteChars))
  {
  }

  /** Surrounding white space never changes how a line reads. */
  lemma ParseLineIgnoresSurroundingSpace(raw: string)
    ensures ParseLine(raw) == ParseLine(TrimSpace(raw))
  {
    TrimSpaceKeeps(TrimSpace(raw));
  }

  /** The line `KEY=<quotes>VALUE<quotes>` is trimmed and splits after KEY. */
  lemma EntryLineShape(key: string, open: string, value: string, close: string)
    requires key != "" && key[0] != '#' && '=' !in key
    requires key[0] !in Whitespace && key[|key| - 1] !in Whitespace
    requires forall k :: 0 <= k < |open| ==> open[k] in QuoteChars
    requires forall k :: 0 <= k < |close| ==> close[k] in QuoteChars
    requires value == [] || (value[0] !in Whitespace && value[|value| - 1] !in Whitespace)
    ensures var raw := key + "=" + open + value + close;
      TrimSpace(raw) == raw && raw != [] && raw[0] != '#'
      && CutAtFirst(raw, '=') == Some((key, open + value + close))
  {
    var rhs := open + value + close;
    var raw := key + "=" + open + value + close;
    assert raw == key + ['='] + rhs;
    QuotedEnds(open, value, close);
    assert raw[0] == key[0];
    assert raw[|raw| - 1] == if |rhs| == 0 then '=' else rhs[|rhs| - 1];
    TrimSpaceKeeps(raw);
    CutAtFirstOf(key, '=', rhs);
  }

  /** Writing `KEY=<quotes>VALUE<quotes>` and reading it back gives KEY and
      VALUE: the value may itself contain `=`, and any run of quote
      characters on either side is dropped. */
  lemma {:induction false} ParseLineReadsEntry(key: string, open: string, value: string, close: string)
    requires key != "" && key[0] != '#' && '=' !in key
    requires key[0] !in Whitespace && key[|key| - 1] !in Whitespace
    requires forall k :: 0 <= k < |open| ==> open[k] in QuoteChars
    requires forall k :: 0 <= k < |close| ==> close[k] in QuoteChars
    requires value == [] || (value[0] !in Whitespace && value[|value| - 1] !in Whitespace)
    requires value == [] || (value[0] !in QuoteChars && value[|value| - 1] !in QuoteChars)
    ensures ParseLine(key + "=" + open + value + close) == Assignment(key, value)
  {
    var rhs := open + value + close;
    EntryLineShape(key, open, value, close);
    ParseTrimmedLine(key + "=" + open + value + close, key, rhs);
    TrimSpaceKeeps(key);
    QuotedEnds(open, value, close);
    TrimSpaceKeeps(rhs);
    TrimOfPadded(open, value, close, QuoteChars);
  }

  datatype LoadError =
    | InvalidFormat(lineNumber: nat, line: string)
    | SetenvFailed(key: string)
    | OpenFailed(path: string)
    | ReadFailed(path: string)

  /** The environment after loading, and the error Load returned, if any.
      Variables set before an error stay set. */
  datatype LoadResult = LoadResult(env: Env, error: Option<LoadError>)

  /** Applies one parsed line with 1-based number `lineNumber`: an
      assignment sets the variable only when it currently reads as "". */
  function ApplyLine(env: Env, line: Line, lineNumber: nat): (r: LoadResult)
    ensures line.Skip? ==> r == LoadResult(env, None)
    ensures line.Malformed? ==> r == LoadResult(env, Some(InvalidFormat(lineNumber, line.line)))
    ensures line.Assignment? && Getenv(env, line.key) != "" ==> r == LoadResult(env, None)
    ensures line.Assignment? && Getenv(env, line.key) == "" && SetenvAccepts(line.key, line.value) ==>
      r == LoadResult(env[line.key := line.value], None)
    ensures line.Assignment? && Getenv(env, line.key) == "" && !SetenvAccepts(line.key, line.value) ==>
      r == LoadResult(env, Some(SetenvFailed(line.key)))
  {
    match line
    case Skip => LoadResult(env, None)
    case Malformed(text) => LoadResult(env, Some(InvalidFormat(lineNumber, text)))
    case Assignment(key, value) =>
      if Getenv(env, key) != "" then LoadResult(env, None)
      else if SetenvAccepts(key, value) then LoadResult(env[key := value], None)
      else LoadResult(env, Some(SetenvFailed(key)))
  }

  /** An assignment to the empty key is never skipped as already set, even
      when the map holds a value under "": os.Setenv rejects it. */
  lemma EmptyKeyIsRejected(env: Env, value: string, lineNumber: nat)
    ensures ApplyLine(env, Assignment("", value), lineNumber) == LoadResult(env, Some(SetenvFailed("")))
  {
    assert Getenv(env, "") == "";
  }

  /** Each physical line of the file, parsed on its own. */
  function ParseAll(raw: seq<string>): (lines: seq<Line>)
    ensures |lines| == |raw|
    ensures forall i :: 0 <= i < |raw| ==> lines[i] == ParseLine(raw[i])
  {
    seq(|raw|, i requires 0 <= i < |raw| => ParseLine(raw[i]))
  }

  /** The scan loop over parsed lines: lines[0] is physical line
      `previous + 1`; the loop stops at the first line that fails. */
  function ApplyLines(env: Env, lines: seq<Line>, previous: nat): (r: LoadResult)
    ensures r.error.None? ==> forall j :: 0 <= j < |lines| ==> !lines[j].Malformed?
    ensures (forall j :: 0 <= j < |lines| ==> Acceptable(lines[j])) ==> r.error.None?
    ensures r.error.Some? ==> r.error.value.InvalidFormat? || r.error.value.SetenvFailed?
    decreases |lines|
  {
    if |lines| == 0 then LoadResult(env, None)
    else
      var r := ApplyLine(env, lines[0], previous + 1);
      assert forall j :: 1 <= j < |lines| ==> lines[1..][j - 1] == lines[j];
      if r.error.Some? then r else ApplyLines(r.env, lines[1..], previous + 1)
  }

  /** A line that cannot stop the load, whatever the environment holds. */
  predicate Acceptable(line: Line)
  {
    !line.Malformed? && (line.Assignment? ==> SetenvAccepts(line.key, line.value))
  }

  /** Once a prefix has been applied without error, the scan carries on
      with the remaining lines from the environment that prefix left. */
  lemma {:induction false} ApplyLinesSplit(env: Env, lines: seq<Line>, previous: nat, k: nat)
    requires k <= |lines|
    requires ApplyLines(env, lines[..k], previous).error.None?
    ensures ApplyLines(env, lines, previous)
      == ApplyLines(ApplyLines(env, lines[..k], previous).env, lines[k..], previous + k)
    decreases k
  {
    if k == 0 {
      assert lines[0..] == lines;
    } else {
      var r := ApplyLine(env, lines[0], previous + 1);
      var prefix := lines[..k];
      assert prefix[0] == lines[0];
      assert prefix[1..] == lines[1..][..k - 1];
      assert r.error.None?;
      assert ApplyLines(env, prefix, previous) == ApplyLines(r.env, lines[1..][..k - 1], previous + 1);
      ApplyLinesSplit(r.env, lines[1..], previous + 1, k - 1);
      assert lines[1..][k - 1..] == lines[k..];
      assert ApplyLines(env, lines, previous) == ApplyLines(r.env, lines[1..], previous + 1);
    }
  }

  /** A malformed line reached without an earlier error stops the scan with
      an InvalidFormat error that names its 1-based physical line. */
  lemma MalformedLineStopsLoad(env: Env, lines: seq<Line>, previous: nat, k: nat)
    requires k < |lines| && lines[k].Malformed?
    requires ApplyLines(env, lines[..k], previous).error.None?
    ensures ApplyLines(env, lines, previous).error == Some(InvalidFormat(previous + k + 1, lines[k].line))
  {
    ApplyLinesSplit(env, lines, previous, k);
    assert lines[k..][0] == lines[k];
  }

  /** An assignment to an unset variable that os.Setenv rejects, reached
      without an earlier error, stops the scan with SetenvFailed. */
  lemma RejectedSetenvStopsLoad(env: Env, lines: seq<Line>, previous: nat, k: nat)
    requires k < |lines| && lines[k].Assignment?
    requires ApplyLines(env, lines[..k], previous).error.None?
    requires Getenv(ApplyLines(env, lines[..k], previous).env, lines[k].key) == ""
    requires !SetenvAccepts(lines[k].key, lines[k].value)
    ensures ApplyLines(env, lines, previous).error == Some(SetenvFailed(lines[k].key))
  {
    ApplyLinesSplit(env, lines, previous, k);
    assert lines[k..][0] == lines[k];
  }

  /** A variable that already reads as non-empty is never overwritten. */
  lemma {:induction false} LoadNeverOverrides(env: Env, lines: seq<Line>, previous: nat, key: string)
    requires Getenv(env, key) != ""
    ensures Getenv(ApplyLines(env, lines, previous).env, key) == Getenv(env, key)
    decreases |lines|
  {
    if |lines| > 0 {
      var r := ApplyLine(env, lines[0], previous + 1);
      if r.error.None? {
        LoadNeverOverrides(r.env, lines[1..], previous + 1, key);
      }
    }
  }

  /** An InvalidFormat error names the 1-based physical line of the first
      malformed line, skipped lines included, with its trimmed text. */
  lemma {:induction false} InvalidFormatNamesLine(env: Env, raw: seq<string>, n: nat, text: string)
    requires ApplyLines(env, ParseAll(raw), 0).error == Some(InvalidFormat(n, text))
    ensures 1 <= n <= |raw|
    ensures ParseLine(raw[n - 1]) == Malformed(text) && text == TrimSpace(raw[n - 1])
    ensures forall j :: 0 <= j < n - 1 ==> !ParseLine(raw[j]).Malformed?
  {
    var lines := ParseAll(raw);
    InvalidFormatFrom(env, lines, 0, n, text);
    assert lines[n - 1] == ParseLine(raw[n - 1]);
    forall j | 0 <= j < n - 1 ensures !ParseLine(raw[j]).Malformed? {
      assert lines[j] == ParseLine(raw[j]);
    }
  }

  lemma {:induction false} InvalidFormatFrom(env: Env, lines: seq<Line>, previous: nat, n: nat, text: string)
    requires ApplyLines(env, lines, previous).error == Some(InvalidFormat(n, text))
    ensures previous + 1 <= n <= previous + |lines|
    ensures lines[n - previous - 1] == Malformed(text)
    ensures forall j :: 0 <= j < n - previous - 1 ==> !lines[j].Malformed?
    decreases |lines|
  {
    var r := ApplyLine(env, lines[0], previous + 1);
    if r.error.None? {
      InvalidFormatFrom(r.env, lines[1..], previous + 1, n, text);
      assert forall j :: 1 <= j < |lines| ==> lines[j] == lines[1..][j - 1];
    }
  }

  /** Every value the load changed came from an assignment in the file to a
      variable that read as "" beforehand. */
  lemma {:induction false} ChangedValuesComeFromFile(env: Env, lines: seq<Line>, previous: nat, key: string)
    requires Getenv(ApplyLines(env, lines, previous).env, key) != Getenv(env, key)
    ensures Getenv(env, key) == ""
    ensures exists j :: 0 <= j < |lines| && lines[j] == Assignment(key, Getenv(ApplyLines(env, lines, previous).env, key))
    decreases |lines|
  {
    var r := ApplyLine(env, lines[0], previous + 1);
    var final := Getenv(ApplyLines(env, lines, previous).env, key);
    if Getenv(r.env, key) != Getenv(env, key) {
      assert lines[0] == Assignment(key, Getenv(r.env, key));
      if r.error.None? {
        LoadNeverOverrides(r.env, lines[1..], previous + 1, key);
      }
    } else {
      ChangedValuesComeFromFile(r.env, lines[1..], previous + 1, key);
      var j :| 0 <= j < |lines[1..]| && lines[1..][j] == Assignment(key, final);
      assert lines[j + 1] == lines[1..][j];
    }
  }

  /** What locating, opening and reading the env file produced. */
  datatype EnvFile =
    | NoProjectRoot
    | NotFound
    | CannotOpen
    | Contents(lines: seq<string>, readError: bool)

  /** Loader.Load: a missing project root or file is not an error; the file
      is applied line by line; a read error reported after the last line
      is returned once the lines read have been applied. `probe` answers
      for the path below the project root. */
  function Load(l: Loader, env: Env, probe: string -> EnvFile): (r: LoadResult)
    ensures probe(ConfigFile(l)).NoProjectRoot? || probe(ConfigFile(l)).NotFound? ==> r == LoadResult(env, None)
    ensures probe(ConfigFile(l)).CannotOpen? ==> r == LoadResult(env, Some(OpenFailed(ConfigFile(l))))
    ensures probe(ConfigFile(l)).Contents? ==> r.env == ApplyLines(env, ParseAll(probe(ConfigFile(l)).lines), 0).env
    ensures probe(ConfigFile(l)).Contents? ==>
      var applied := ApplyLines(env, ParseAll(probe(ConfigFile(l)).lines), 0);
      applied.error.Some? ==> r.error == applied.error
    ensures probe(ConfigFile(l)).Contents? ==>
      var applied := ApplyLines(env, ParseAll(probe(ConfigFile(l)).lines), 0);
      applied.error.None? ==>
        ((r.error.Some? <==> probe(ConfigFile(l)).readError)
         && (r.error.Some? ==> r.error == Some(ReadFailed(ConfigFile(l)))))
    ensures forall key :: Getenv(env, key) != "" ==> Getenv(r.env, key) == Getenv(env, key)
  {
    var path := ConfigFile(l);
    match probe(path)
    case NoProjectRoot => LoadResult(env, None)
    case NotFound => LoadResult(env, None)
    case CannotOpen => LoadResult(env, Some(OpenFailed(path)))
    case Contents(lines, readError) =>
      var r := ApplyLines(env, ParseAll(lines), 0);
      assert forall key :: Getenv(env, key) != "" ==> Getenv(r.env, key) == Getenv(env, key) by {
        forall key | Getenv(env, key) != "" ensures Getenv(r.env, key) == Getenv(env, key) {
          LoadNeverOverrides(env, ParseAll(lines), 0, key);
        }
      }
      if r.error.None? && readError then LoadResult(r.env, Some(ReadFailed(path))) else r
  }

  /** The env file's first malformed line is reported by Load when every
      earlier line is one that cannot fail. */
  lemma LoadReportsMalformedLine(l: Loader, env: Env, probe: string -> EnvFile, k: nat)
    requires probe(ConfigFile(l)).Contents?
    requires k < |probe(ConfigFile(l)).lines|
    requires ParseLine(probe(ConfigFile(l)).lines[k]).Malformed?
    requires forall j :: 0 <= j < k ==> Acceptable(ParseLine(probe(ConfigFile(l)).lines[j]))
    ensures Load(l, env, probe).error == Some(InvalidFormat(k + 1, TrimSpace(probe(ConfigFile(l)).lines[k])))
  {
    var raw := probe(ConfigFile(l)).lines;
    var lines := ParseAll(raw);
    assert lines[k] == ParseLine(raw[k]);
    FirstMalformedAfterAcceptable(env, lines, k);
  }

  /** The same on parsed lines: earlier lines that cannot fail let the
      malformed one be reached. */
  lemma FirstMalformedAfterAcceptable(env: Env, lines: seq<Line>, k: nat)
    requires k < |lines| && lines[k].Malformed?
    requires forall j :: 0 <= j < k ==> Acceptable(lines[j])
    ensures ApplyLines(env, lines, 0).error == Some(InvalidFormat(k + 1, lines[k].line))
  {
    assert forall j :: 0 <= j < k ==> lines[..k][j] == lines[j];
    MalformedLineStopsLoad(env, lines, 0, k);
  }

  /** A file whose lines all parse and are accepted loads without error,
      unless the scanner reports a read error after them. */
  lemma WellFormedFileLoads(l: Loader, env: Env, probe: string -> EnvFile)
    requires probe(ConfigFile(l)).Contents?
    requires forall j :: 0 <= j < |probe(ConfigFile(l)).lines| ==> Acceptable(ParseLine(probe(ConfigFile(l)).lines[j]))
    ensures Load(l, env, probe).error.Some? <==> probe(ConfigFile(l)).readError
  {
    var lines := ParseAll(probe(ConfigFile(l)).lines);
    assert forall j :: 0 <= j < |lines| ==> Acceptable(lines[j]);
  }

  /** GetEnv: the variable's value when non-empty, else the fallback. */
  function GetEnv(env: Env, key: string, fallback: string): (v: string)
    ensures Getenv(env, key) != "" ==> v == Getenv(env, key)
    ensures Getenv(env, key) == "" ==> v == fallback
  {
    var value := Getenv(env, key);
    if value != "" then value else fallback
  }

  /** MustGetEnv: None stands for the panic on an unset or empty variable. */
  function MustGetEnv(env: Env, key: string): (v: Option<string>)
    ensures v.None? <==> Getenv(env, key) == ""
    ensures v.Some? ==> v.value == Getenv(env, key) && v.value != ""
  {
    var value := Getenv(env, key);
    if value == "" then None else Some(value)
  }

  /** GetEnvBool: unset or empty gives the fallback; otherwise only the
      exact strings "true", "1" and "yes" are true. */
  function GetEnvBool(env: Env, key: string, fallback: bool): (b: bool)
    ensures Getenv(env, key) == "" ==> b == fallback
    ensures Getenv(env, key) != "" ==> (b <==> Getenv(env, key) in {"true", "1", "yes"})
  {
    var value := Getenv(env, key);
    if value == "" then fallback else value == "true" || value == "1" || value == "yes"
  }

  /** Spellings strconv.ParseBool would accept are false here. */
  lemma GetEnvBoolIsCaseSensitive(env: Env, key: string, fallback: bool)
    requires Getenv(env, key) in {"TRUE", "True", "t", "on"}
    ensures !GetEnvBool(env, key, fallback)
  {
  }
}
