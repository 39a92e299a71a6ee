/*
 * The parser of the CI configuration language (etc/try_parser.py): a list
 * of presets, each optionally followed by `(key=value, …)` overrides, plus
 * the keywords `fail-fast`, `full` and `try`.  A `RuntimeError` is an
 * `Err` carrying its message.
 */
module TryConfig {
  import opened Wrappers
  import opened PyStrings
  import opened TryLexer

  datatype Layout = LayoutNone | Layout2013 | Layout2020 | LayoutAll

  /** `Layout.parse`. */
  function ParseLayout(s: string): (r: Result<Layout, string>)
    ensures Lower(s) == "none" ==> r == Ok(LayoutNone)
    ensures Lower(s) in ["all", "both"] ==> r == Ok(LayoutAll)
    ensures Lower(s) !in ["none", "all", "both"] ==>
      r == (if Contains(Lower(s), "legacy") || Contains(Lower(s), "2013") then Ok(Layout2013)
            else if Contains(Lower(s), "2020") then Ok(Layout2020)
            else Err(WRONG_LAYOUT))
  {
    var s := Lower(s);
    if s == "none" then Ok(LayoutNone)
    else if s == "all" || s == "both" then Ok(LayoutAll)
    else if Contains(s, "legacy") || Contains(s, "2013") then Ok(Layout2013)
    else if Contains(s, "2020") then Ok(Layout2020)
    else Err(WRONG_LAYOUT)
  }

  const WRONG_LAYOUT := "Wrong layout option"

  datatype OS = Linux | Mac | Win

  /** `OS.parse`. */
  function ParseOS(s: string): (r: Result<OS, string>)
    ensures Lower(s) == "linux" ==> r == Ok(Linux)
    ensures Lower(s) != "linux" ==>
      r == (if Contains(Lower(s), "mac") then Ok(Mac)
            else if Contains(Lower(s), "win") then Ok(Win)
            else Err(WRONG_OS))
  {
    var s := Lower(s);
    if s == "linux" then Ok(Linux)
    else if Contains(s, "mac") then Ok(Mac)
    else if Contains(s, "win") then Ok(Win)
    else Err(WRONG_OS)
  }

  const WRONG_OS := "Wrong OS; only `linux`, `mac` and `windows` are supported"

  /** Both parsers ignore case, and each raises exactly when no rule matches. */
  lemma OptionParsersIgnoreCase(s: string)
    ensures ParseLayout(s) == ParseLayout(Lower(s))
    ensures ParseOS(s) == ParseOS(Lower(s))
    ensures ParseLayout(s).Err? <==>
      Lower(s) !in ["none", "all", "both"]
      && !Contains(Lower(s), "legacy") && !Contains(Lower(s), "2013") && !Contains(Lower(s), "2020")
    ensures ParseOS(s).Err? <==> Lower(s) != "linux" && !Contains(Lower(s), "mac") && !Contains(Lower(s), "win")
  {
    LowerIdempotent(s);
  }

  /** The OS is matched by substring, so any value holding "win" — "darwin" too — selects Windows. */
  lemma SubstringSelectsWindows(s: string, i: nat)
    requires i + 3 <= |s| && Lower(s)[i..i + 3] == "win"
    requires Lower(s) != "linux" && !Contains(Lower(s), "mac")
    ensures ParseOS(s) == Ok(Win)
  {
    ContainsAt(Lower(s), "win", i);
  }

  /** The `JobConfig` object; `parse` builds a fresh one, so it is a value here. */
  datatype JobConfig = JobConfig(name: string, os: OS, layout: Layout, profile: string, unitTests: bool, wpt: string)

  /** `JobConfig(name, os, layout)` with the defaults for the other fields. */
  function Job(name: string, os: OS, layout: Layout := LayoutNone): JobConfig
  {
    JobConfig(name, os, layout, "release", true, "")
  }

  /** `preset(s)`, ignoring case. */
  function Preset(s: string): Option<JobConfig>
  {
    var s := Lower(s);
    if s == "linux" then Some(Job("Linux", Linux))
    else if s == "mac" then Some(Job("MacOS", Mac))
    else if s in ["win", "windows"] then Some(Job("Windows", Win))
    else if s in ["wpt", "linux-wpt"] then Some(Job("Linux WPT", Linux, LayoutAll))
    else if s in ["wpt-2013", "linux-wpt-2013"] then Some(Job("Linux WPT legacy-layout", Linux, Layout2013))
    else if s in ["wpt-2020", "linux-wpt-2020"] then Some(Job("Linux WPT layout-2020", Linux, Layout2020))
    else if s in ["mac-wpt", "wpt-mac"] then Some(Job("MacOS WPT", Mac, LayoutAll))
    else if s == "mac-wpt-2013" then Some(Job("MacOS WPT legacy-layout", Mac, Layout2013))
    else if s == "mac-wpt-2020" then Some(Job("MacOS WPT layout-2020", Mac, Layout2020))
    else if s == "webgpu" then Some(JobConfig("WebGPU CTS", Linux, Layout2020, "production", false, "_webgpu"))
    else None
  }

  /** The lower-case names `preset` knows; "macos" is not among them. */
  const PRESET_NAMES: seq<string> := [
    "linux", "mac", "win", "windows", "wpt", "linux-wpt", "wpt-2013", "linux-wpt-2013",
    "wpt-2020", "linux-wpt-2020", "mac-wpt", "wpt-mac", "mac-wpt-2013", "mac-wpt-2020", "webgpu"
  ]

  lemma PresetNames(s: string)
    ensures Preset(s).Some? <==> Lower(s) in PRESET_NAMES
  {
  }

  /** The job a name starts from: its preset, or a Linux job of that name. */
  function BaseJob(name: string): (job: JobConfig)
    ensures Preset(name).Some? ==> job == Preset(name).value
    ensures Preset(name).None? ==> job == Job(name, Linux)
  {
    match Preset(name)
    case Some(job) => job
    case None => Job(name, Linux)
  }

  /** The overrides dictionary, in insertion order. */
  type Overrides = seq<(string, string)>

  /** `overrides[key] = val`: a new key goes last, an existing one keeps its place and takes the new value. */
  function DictSet(d: Overrides, key: string, val: string): (r: Overrides)
    ensures (forall i :: 0 <= i < |d| ==> d[i].0 != key) ==> r == d + [(key, val)]
    ensures forall i :: 0 <= i < |d| && d[i].0 == key && (forall j :: 0 <= j < i ==> d[j].0 != key) ==>
      r == d[i := (key, val)]
  {
    if d == [] then [(key, val)]
    else if d[0].0 == key then [(key, val)] + d[1..]
    else [d[0]] + DictSet(d[1..], key, val)
  }

  function UnknownKey(k: string): string
  {
    "Unknown key `" + k + "`; only `os`, `layout`, `profile` and `unit-tests` are supported."
  }

  /** One turn of the `for k, v in overrides.items()` loop of `JobConfig.parse`. */
  function ApplyOverride(job: JobConfig, k: string, v: string): (r: Result<JobConfig, string>)
    ensures k == "os" ==> r == (match ParseOS(v) case Ok(os) => Ok(job.(os := os)) case Err(e) => Err(e))
    ensures k == "layout" ==> r == (match ParseLayout(v) case Ok(l) => Ok(job.(layout := l)) case Err(e) => Err(e))
    ensures k == "profile" ==> r == Ok(job.(profile := v))
    ensures k == "wpt" ==> r == Ok(job.(wpt := v))
    ensures k in ["unit-tests", "unit-test"] ==> r == Ok(job.(unitTests := Lower(v) == "true"))
    ensures k !in ["os", "layout", "profile", "wpt", "unit-tests", "unit-test"] ==> r == Err(UnknownKey(k))
    ensures r.Ok? ==> r.value.name == job.name
  {
    if k == "os" then
      var os :- ParseOS(v); Ok(job.(os := os))
    else if k == "layout" then
      var layout :- ParseLayout(v); Ok(job.(layout := layout))
    else if k == "profile" then Ok(job.(profile := v))
    else if k == "wpt" then Ok(job.(wpt := v))
    else if k == "unit-tests" || k == "unit-test" then Ok(job.(unitTests := Lower(v) == "true"))
    else Err(UnknownKey(k))
  }

  /** The whole loop: the overrides in dictionary order, stopping at the first error. */
  function ApplyOverrides(job: JobConfig, overrides: Overrides): (r: Result<JobConfig, string>)
    ensures r.Ok? ==> r.value.name == job.name
    ensures overrides == [] ==> r == Ok(job)
    decreases |overrides|
  {
    if overrides == [] then Ok(job)
    else
      var next :- ApplyOverride(job, overrides[0].0, overrides[0].1);
      ApplyOverrides(next, overrides[1..])
  }

  /** `JobConfig.parse(name, overrides)`. */
  method ParseJob(name: string, overrides: Overrides) returns (r: Result<JobConfig, string>)
    ensures r == ApplyOverrides(BaseJob(name), overrides)
  {
    var job := BaseJob(name);
    var i := 0;
    while i < |overrides|
      invariant 0 <= i <= |overrides|
      invariant ApplyOverrides(job, overrides[i..]) == ApplyOverrides(BaseJob(name), overrides)
    {
      ApplyOverridesStep(job, overrides, i);
      var next := ApplyOverride(job, overrides[i].0, overrides[i].1);
      if next.Err? {
        return next;
      }
      job := next.value;
      i := i + 1;
    }
    return Ok(job);
  }

  lemma ApplyOverridesStep(job: JobConfig, overrides: Overrides, i: nat)
    requires i < |overrides|
    ensures ApplyOverrides(job, overrides[i..])
         == match ApplyOverride(job, overrides[i].0, overrides[i].1)
            case Err(e) => Err(e)
            case Ok(next) => ApplyOverrides(next, overrides[i + 1..])
  {
    assert overrides[i..][1..] == overrides[i + 1..];
  }

  /** A single unknown key makes `JobConfig.parse` raise, naming the key. */
  lemma UnknownKeyRaises(name: string, k: string, v: string, rest: Overrides)
    requires k !in ["os", "layout", "profile", "wpt", "unit-tests", "unit-test"]
    ensures ApplyOverrides(BaseJob(name), [(k, v)] + rest) == Err(UnknownKey(k))
  {
    assert ([(k, v)] + rest)[0] == (k, v);
  }

  /** Without overrides the job is the preset's, or a Linux job under the given name. */
  lemma NoOverrides(name: string)
    ensures ApplyOverrides(BaseJob(name), []) == Ok(if Preset(name).Some? then Preset(name).value else Job(name, Linux))
  {
  }

  /** Whichever value is given, `unit-tests` is true exactly for "true" in any case. */
  lemma UnitTestsOverride(job: JobConfig, v: string)
    ensures ApplyOverrides(job, [("unit-tests", v)]).Ok?
    ensures ApplyOverrides(job, [("unit-tests", v)]).value.unitTests <==> Lower(v) == "true"
  {
    assert [("unit-tests", v)][1..] == [];
  }

  /** The three jobs of `full`, in order. */
  const FULL_JOBS: seq<JobConfig> := [Job("Linux", Linux), Job("MacOS", Mac), Job("Windows", Win)]

  /**
   * The inner `while` of `Config.parse`, from the token after '(': one
   * `key = value` per turn, an optional separator after each, until ')' or Eof.
   */
  function ReadTuple(input: string, st: Stream, overrides: Overrides): (r: (Stream, Overrides))
    requires WellFormed(input, st)
    ensures WellFormed(input, r.0)
    ensures r.0.peek.typ == Rparen || r.0.peek.typ == Eof
    ensures Remaining(input, r.0) <= Remaining(input, st)
    decreases Remaining(input, st)
  {
    if st.peek.typ == Rparen || st.peek.typ == Eof then (st, overrides)
    else
      var key := st.peek.lit;
      var s1 := Take(input, st);
      var s2 := Take(input, s1);
      var val := s2.peek.lit;
      var s3 := Take(input, s2);
      var s4 := if IsSeparator(s3.peek) then Take(input, s3) else s3;
      ReadTuple(input, s4, DictSet(overrides, key, val))
  }

  /** `next_token` as a step on streams. */
  function Take(input: string, st: Stream): (next: Stream)
    requires WellFormed(input, st)
    ensures next == Scan(input, st.pos)
    ensures WellFormed(input, next)
    ensures Remaining(input, next) <= Remaining(input, st)
    ensures !Exhausted(input, st) ==> Remaining(input, next) < Remaining(input, st)
  {
    ScanProgresses(input, st);
    Scan(input, st.pos)
  }

  /** The name and overrides of one job: after a String token, an optional `( … )` and separator. */
  function ReadJob(input: string, st: Stream): (r: (Stream, Overrides))
    requires WellFormed(input, st)
    ensures WellFormed(input, r.0)
    ensures Remaining(input, r.0) <= Remaining(input, st)
  {
    if st.peek.typ == Lparen then
      var (t, overrides) := ReadTuple(input, Take(input, st), []);
      var t2 := Take(input, t);
      var t3 := if IsSeparator(t2.peek) then Take(input, t2) else t2;
      (t3, overrides)
    else (st, [])
  }

  /** What `Config.parse` leaves: `fail_fast`, the matrix, and the error it raised, if any. */
  datatype Outcome = Outcome(failFast: bool, matrix: seq<JobConfig>, error: Option<string>)

  /** The outer `while` of `Config.parse`, from a lexer state. */
  function ParseFrom(input: string, st: Stream, failFast: bool, matrix: seq<JobConfig>): (o: Outcome)
    requires WellFormed(input, st)
    decreases Remaining(input, st)
  {
    if st.peek.typ == Eof then Outcome(failFast, matrix, None)
    else
      var token := st.peek;
      var s1 := Take(input, st);
      if token.typ == String then
        var (s2, overrides) := ReadJob(input, s1);
        match ApplyOverrides(BaseJob(token.lit), overrides)
        case Err(e) => Outcome(failFast, matrix, Some(e))
        case Ok(job) => ParseFrom(input, s2, failFast, matrix + [job])
      else if token.typ == FailFast then ParseFrom(input, s1, true, matrix)
      else if token.typ == Full then ParseFrom(input, s1, failFast, matrix + FULL_JOBS)
      else ParseFrom(input, s1, failFast, matrix)
  }

  /** What the lexer reads: the stripped text, or "full" when nothing is left. */
  function ParseInput(s: string): (input: string)
    ensures input != []
  {
    var t := Strip(s);
    if t == [] then "full" else t
  }

  /** `Config.parse(s)` on a config whose fields are `failFast` and `matrix`. */
  function ParseConfig(s: string, failFast: bool, matrix: seq<JobConfig>): Outcome
  {
    var input := ParseInput(s);
    ParseFrom(input, Scan(input, 0), failFast, matrix)
  }

  /** `parse` only ever appends to the matrix, and never clears `fail_fast`. */
  lemma {:induction false} ParseOnlyAppends(input: string, st: Stream, failFast: bool, matrix: seq<JobConfig>)
    requires WellFormed(input, st)
    ensures var o := ParseFrom(input, st, failFast, matrix);
      |matrix| <= |o.matrix| && o.matrix[..|matrix|] == matrix && (failFast ==> o.failFast)
    decreases Remaining(input, st)
  {
    if st.peek.typ != Eof {
      var s1 := Take(input, st);
      var typ := st.peek.typ;
      if typ == String {
        var (s2, overrides) := ReadJob(input, s1);
        var job := ApplyOverrides(BaseJob(st.peek.lit), overrides);
        if job.Ok? {
          var m := matrix + [job.value];
          ParseOnlyAppends(input, s2, failFast, m);
          PrefixOfPrefix(matrix, m, ParseFrom(input, s2, failFast, m).matrix);
        }
      } else if typ == FailFast {
        ParseOnlyAppends(input, s1, true, matrix);
      } else if typ == Full {
        ParseOnlyAppends(input, s1, failFast, matrix + FULL_JOBS);
        PrefixOfPrefix(matrix, matrix + FULL_JOBS, ParseFrom(input, s1, failFast, matrix + FULL_JOBS).matrix);
      } else {
        ParseOnlyAppends(input, s1, failFast, matrix);
      }
    }
  }

  lemma PrefixOfPrefix(a: seq<JobConfig>, b: seq<JobConfig>, c: seq<JobConfig>)
    requires |a| <= |b| && b[..|a|] == a
    requires |b| <= |c| && c[..|b|] == b
    ensures |a| <= |c| && c[..|a|] == a
  {
    assert c[..|a|] == c[..|b|][..|a|];
  }

  /** `fail-fast` sets `fail_fast`; `try`, and any other token that is not a name or `full`, is skipped. */
  lemma KeywordSteps(input: string, st: Stream, failFast: bool, matrix: seq<JobConfig>)
    requires WellFormed(input, st)
    requires st.peek.typ !in {String, Full, Eof}
    ensures ParseFrom(input, st, failFast, matrix)
      == ParseFrom(input, Scan(input, st.pos), failFast || st.peek.typ == FailFast, matrix)
  {
  }

  /** A name: its job, with the overrides that follow it, is appended, or its error ends the parse. */
  lemma ParseStepJob(input: string, st: Stream, failFast: bool, matrix: seq<JobConfig>)
    requires WellFormed(input, st)
    requires st.peek.typ == String
    ensures var next := ReadJob(input, Scan(input, st.pos));
      var r := ApplyOverrides(BaseJob(st.peek.lit), next.1);
      ParseFrom(input, st, failFast, matrix)
      == if r.Ok? then ParseFrom(input, next.0, failFast, matrix + [r.value]) else Outcome(failFast, matrix, Some(r.error))
  {
  }

  /** `full` appends the Linux, MacOS and Windows jobs, in that order. */
  lemma FullStep(input: string, st: Stream, failFast: bool, matrix: seq<JobConfig>)
    requires WellFormed(input, st)
    requires st.peek.typ == Full
    ensures ParseFrom(input, st, failFast, matrix) == ParseFrom(input, Scan(input, st.pos), failFast, matrix + FULL_JOBS)
  {
  }

  lemma FullJobsInOrder(matrix: seq<JobConfig>)
    ensures matrix + [Job("Linux", Linux)] + [Job("MacOS", Mac)] + [Job("Windows", Win)] == matrix + FULL_JOBS
  {
  }

  /** Empty or blank input is read as "full". */
  lemma BlankInputIsFull(s: string, failFast: bool, matrix: seq<JobConfig>)
    requires forall i :: 0 <= i < |s| ==> IsSpace(s[i])
    ensures ParseConfig(s, failFast, matrix) == Outcome(failFast, matrix + FULL_JOBS, None)
  {
    FullText("full", failFast, matrix);
  }

  lemma FullText(full: string, failFast: bool, matrix: seq<JobConfig>)
    requires full == "full"
    ensures ParseFrom(full, Scan(full, 0), failFast, matrix) == Outcome(failFast, matrix + FULL_JOBS, None)
  {
    assert forall k :: 0 <= k < 4 ==> IsIdentChar(full[k]);
    ScanIdent(full, 0, 0, 4);
    assert full[0..4] == full;
    var st := Scan(full, 0);
    assert st == Stream(Token(Full, full), 4);
    FullStep(full, st, failFast, matrix);
  }

  /** The `Config` object: `fail_fast` and the job matrix. */
  class Config {
    var failFast: bool
    var matrix: seq<JobConfig>

    /** The fields `Config.__init__` sets before it looks at `s`. */
    constructor Empty()
      ensures !failFast && matrix == []
    {
      failFast := false;
      matrix := [];
    }

    /**
     * `Config(s)`: empty, then `parse(s)` when `s` is a non-empty string; the
     * RuntimeError `parse` raises propagates out of the construction.
     */
    static method New(s: Option<string>) returns (r: Result<Config, string>)
      ensures var o := if s.Some? && s.value != [] then ParseConfig(s.value, false, [])
                       else Outcome(false, [], None);
        && (r.Err? <==> o.error.Some?)
        && (r.Err? ==> r.error == o.error.value)
        && (r.Ok? ==> fresh(r.value) && r.value.failFast == o.failFast && r.value.matrix == o.matrix)
    {
      var config := new Config.Empty();
      if s.Some? && s.value != [] {
        var error := config.Parse(s.value);
        if error.Some? {
          return Err(error.value);
        }
      }
      r := Ok(config);
    }

    /** `Config.parse(s)`; `error` is the RuntimeError it raised, after which the jobs appended so far remain. */
    method Parse(s: string) returns (error: Option<string>)
      modifies this
      ensures var o := ParseConfig(s, old(failFast), old(matrix));
        failFast == o.failFast && matrix == o.matrix && error == o.error
    {
      var input := ParseInput(s);
      var lex := new Lexer(input);
      ghost var goal := ParseConfig(s, failFast, matrix);
      while lex.peekToken.typ != Eof
        invariant lex.Valid() && lex.input == input
        invariant ParseFrom(input, lex.State(), failFast, matrix) == goal
        decreases Remaining(input, lex.State())
      {
        ghost var st := lex.State();
        var token := lex.NextToken();
        if token.typ == String {
          ParseStepJob(input, st, failFast, matrix);
          ghost var s1 := lex.State();
          var name := token.lit;
          var overrides := ReadOverrides(lex);
          ghost var s2 := lex.State();
          assert (s2, overrides) == ReadJob(input, s1);
          var r := ParseJob(name, overrides);
          if r.Err? {
            return Some(r.error);
          }
          assert ParseFrom(input, st, failFast, matrix) == ParseFrom(input, s2, failFast, matrix + [r.value]);
          matrix := matrix + [r.value];
        } else if token.typ == FailFast {
          KeywordSteps(input, st, failFast, matrix);
          failFast := true;
        } else if token.typ == Full {
          FullStep(input, st, failFast, matrix);
          FullJobsInOrder(matrix);
          matrix := matrix + [Job("Linux", Linux)];
          matrix := matrix + [Job("MacOS", Mac)];
          matrix := matrix + [Job("Windows", Win)];
        } else {
          KeywordSteps(input, st, failFast, matrix);
        }
      }
      return None;
    }
  }

  /** The `if lex.peek_token().m_type == TokenType.Lparen:` block of `Config.parse`. */
  method ReadOverrides(lex: Lexer) returns (overrides: Overrides)
    requires lex.Valid()
    modifies lex
    ensures lex.Valid()
    ensures (lex.State(), overrides) == ReadJob(lex.input, old(lex.State()))
  {
    overrides := [];
    if lex.peekToken.typ == Lparen {
      var _ := lex.NextToken();
      ghost var start := lex.State();
      while lex.peekToken.typ != Rparen && lex.peekToken.typ != Eof
        invariant lex.Valid()
        invariant ReadTuple(lex.input, lex.State(), overrides) == ReadTuple(lex.input, start, [])
        decreases Remaining(lex.input, lex.State())
      {
        var keyToken := lex.NextToken();
        var _ := lex.NextToken();
        var valToken := lex.NextToken();
        overrides := DictSet(overrides, keyToken.lit, valToken.lit);
        if IsSeparator(lex.peekToken) {
          var _ := lex.NextToken();
        }
      }
      var _ := lex.NextToken();
      if IsSeparator(lex.peekToken) {
        var _ := lex.NextToken();
      }
    }
  }
}
