/*
 * The simple "try" preset parser (python/try_parser.py): a space-separated
 * list of preset names, each turned into one CI job; unknown names are
 * skipped (the script prints a notice, which is not modelled).
 */
module TryPresets {
  import opened Wrappers
  import opened PyStrings

  /** `Layout(Flag)`: two independent bits, `none` = neither, `all()` = both. */
  datatype Layout = Layout(layout2013: bool, layout2020: bool)

  const NONE_LAYOUT := Layout(false, false)
  const LAYOUT_2013 := Layout(true, false)
  const LAYOUT_2020 := Layout(false, true)
  const ALL_LAYOUTS := Layout(true, true)

  /** `flag in self`: every bit of `flag` is set in `self`. */
  predicate FlagIn(flag: Layout, self: Layout)
  {
    (flag.layout2013 ==> self.layout2013) && (flag.layout2020 ==> self.layout2020)
  }

  /** `Layout.to_string`. */
  function LayoutToString(layout: Layout): (s: string)
    ensures s == "all" <==> layout.layout2013 && layout.layout2020
    ensures s == "2020" <==> !layout.layout2013 && layout.layout2020
    ensures s == "2013" <==> layout.layout2013 && !layout.layout2020
    ensures s == "none" <==> !layout.layout2013 && !layout.layout2020
  {
    if FlagIn(ALL_LAYOUTS, layout) then "all"
    else if FlagIn(LAYOUT_2020, layout) then "2020"
    else if FlagIn(LAYOUT_2013, layout) then "2013"
    else "none"
  }

  datatype OS = LINUX | MACOS | WINDOWS

  /** The `JobConfig` dataclass. */
  datatype JobConfig = JobConfig(name: string, os: OS, wptLayout: Layout, profile: string,
                                 unitTests: bool, wptTestsToRun: string)

  /** `JobConfig(name, os)` with the dataclass defaults for the other fields. */
  function Job(name: string, os: OS, wptLayout: Layout := NONE_LAYOUT): JobConfig
  {
    JobConfig(name, os, wptLayout, "release", true, "")
  }

  /** `preset(s)`: the job a preset name stands for, ignoring case. */
  function Preset(s: string): Option<JobConfig>
  {
    var s := Lower(s);
    if s == "linux" then Some(Job("Linux", LINUX))
    else if s in ["mac", "macos"] then Some(Job("MacOS", MACOS))
    else if s in ["win", "windows"] then Some(Job("Windows", WINDOWS))
    else if s in ["wpt", "linux-wpt"] then Some(Job("Linux WPT", LINUX, ALL_LAYOUTS))
    else if s in ["wpt-2013", "linux-wpt-2013"] then Some(Job("Linux WPT legacy-layout", LINUX, LAYOUT_2013))
    else if s in ["wpt-2020", "linux-wpt-2020"] then Some(Job("Linux WPT layout-2020", LINUX, LAYOUT_2020))
    else if s in ["mac-wpt", "wpt-mac"] then Some(Job("MacOS WPT", MACOS, ALL_LAYOUTS))
    else if s == "mac-wpt-2013" then Some(Job("MacOS WPT legacy-layout", MACOS, LAYOUT_2013))
    else if s == "mac-wpt-2020" then Some(Job("MacOS WPT layout-2020", MACOS, LAYOUT_2020))
    else if s == "webgpu" then Some(JobConfig("WebGPU CTS", LINUX, LAYOUT_2020, "production", false, "_webgpu"))
    else None
  }

  /** The lower-case names `preset` knows. */
  const PRESET_NAMES: seq<string> := [
    "linux", "mac", "macos", "win", "windows", "wpt", "linux-wpt", "wpt-2013", "linux-wpt-2013",
    "wpt-2020", "linux-wpt-2020", "mac-wpt", "wpt-mac", "mac-wpt-2013", "mac-wpt-2020", "webgpu"
  ]

  /** `preset` ignores case and knows exactly the names of PRESET_NAMES. */
  lemma PresetIgnoresCase(s: string)
    ensures Preset(s) == Preset(Lower(s))
    ensures Preset(s).Some? <==> Lower(s) in PRESET_NAMES
  {
    LowerIdempotent(s);
  }

  /** Only the "webgpu" preset uses the production profile and skips unit tests. */
  lemma PresetProfile(s: string)
    requires Preset(s).Some?
    ensures Preset(s).value.profile == (if Lower(s) == "webgpu" then "production" else "release")
    ensures Preset(s).value.unitTests <==> Lower(s) != "webgpu"
  {
  }

  /** The "webgpu" preset: layout 2020 only the WebGPU tests, production profile, no unit tests. */
  lemma WebGpuPreset(s: string)
    requires Lower(s) == "webgpu"
    ensures Preset(s) == Some(JobConfig("WebGPU CTS", LINUX, LAYOUT_2020, "production", false, "_webgpu"))
    ensures LayoutToString(Preset(s).value.wptLayout) == "2020"
  {
  }

  /** The jobs of the recognised presets among `names`, in order. */
  function Presets(names: seq<string>): seq<JobConfig>
  {
    if names == [] then []
    else
      var rest := Presets(names[1..]);
      match Preset(names[0])
      case None => rest
      case Some(job) => [job] + rest
  }

  /** Every job comes from a recognised name, and there are at most as many jobs as names. */
  lemma {:induction false} PresetsComeFromNames(names: seq<string>)
    ensures |Presets(names)| <= |names|
    ensures forall j :: j in Presets(names) ==> exists n :: n in names && Preset(n) == Some(j)
  {
    if names != [] {
      PresetsComeFromNames(names[1..]);
      assert forall n :: n in names[1..] ==> n in names;
    }
  }

  lemma {:induction false} PresetsAppend(a: seq<string>, b: seq<string>)
    ensures Presets(a + b) == Presets(a) + Presets(b)
  {
    if a == [] {
      assert a + b == b;
    } else {
      assert (a + b)[0] == a[0];
      assert (a + b)[1..] == a[1..] + b;
      PresetsAppend(a[1..], b);
    }
  }

  /** The names `parse` splits its input into: empty or blank input means "linux macos windows". */
  function PresetNames(s: string): seq<string>
  {
    var s := Strip(s);
    Split(if s == [] then DEFAULT_PRESETS else s)
  }

  const DEFAULT_PRESETS: string := "linux macos windows"

  /** The three names blank input stands for. */
  lemma DefaultNamesSplit(l: string, m: string, w: string)
    requires l == "linux" && m == "macos" && w == "windows"
    ensures Split(l + " " + m + " " + w) == [l, m, w]
  {
    assert forall k :: 0 <= k < |w| ==> w[k] != ' ';
    assert forall k :: 0 <= k < |m| ==> m[k] != ' ';
    assert forall k :: 0 <= k < |l| ==> l[k] != ' ';
    SplitWithoutSpace(w);
    SplitAfterWord(m, w);
    assert l + " " + m + " " + w == l + " " + (m + " " + w);
    SplitAfterWord(l, m + " " + w);
  }

  lemma DefaultPresets()
    ensures Presets(["linux", "macos", "windows"]) == [Job("Linux", LINUX), Job("MacOS", MACOS), Job("Windows", WINDOWS)]
  {
    var names: seq<string> := ["linux", "macos", "windows"];
    assert Lower("windows") == "windows";
    assert Presets(names[2..]) == [Job("Windows", WINDOWS)];
    assert Lower("macos") == "macos";
    assert Presets(names[1..]) == [Job("MacOS", MACOS), Job("Windows", WINDOWS)];
    assert Lower("linux") == "linux";
  }

  lemma DefaultPresetsText()
    ensures DEFAULT_PRESETS == "linux" + " " + "macos" + " " + "windows"
  {
  }

  lemma DefaultPresetsSplit()
    ensures Split(DEFAULT_PRESETS) == ["linux", "macos", "windows"]
  {
    DefaultNamesSplit("linux", "macos", "windows");
    DefaultPresetsText();
  }

  /** Blank input gives the jobs Linux, MacOS and Windows, release profile, with unit tests. */
  lemma BlankInputGivesDefaultMatrix(s: string)
    requires forall i :: 0 <= i < |s| ==> IsSpace(s[i])
    ensures Presets(PresetNames(s)) == [Job("Linux", LINUX), Job("MacOS", MACOS), Job("Windows", WINDOWS)]
  {
    assert PresetNames(s) == Split(DEFAULT_PRESETS);
    DefaultPresetsSplit();
    DefaultPresets();
  }

  lemma PresetsStep(names: seq<string>, i: nat)
    requires i < |names|
    ensures Presets(names[..i + 1]) == Presets(names[..i]) + (match Preset(names[i]) case Some(job) => [job] case None => [])
  {
    assert names[..i + 1] == names[..i] + [names[i]];
    PresetsSnoc(names[..i], names[i]);
  }

  lemma PresetsSnoc(names: seq<string>, name: string)
    ensures Presets(names + [name]) == Presets(names) + (if Preset(name).Some? then [Preset(name).value] else [])
  {
    PresetsAppend(names, [name]);
    assert [name][1..] == [];
  }

  /** The `Config` object: `fail_fast` and the job matrix. */
  class Config {
    var failFast: bool
    var matrix: seq<JobConfig>

    /** `Config(s)`: empty, then `parse(s)` when a string is given. */
    constructor(s: Option<string>)
      ensures !failFast
      ensures matrix == if s.Some? then Presets(PresetNames(s.value)) else []
    {
      failFast := false;
      matrix := [];
      new;
      if s.Some? {
        Parse(s.value);
      }
    }

    /** `Config.parse`: appends one job per recognised preset name; `fail_fast` is left alone. */
    method Parse(s: string)
      modifies this
      ensures matrix == old(matrix) + Presets(PresetNames(s))
      ensures failFast == old(failFast)
    {
      AppendPresets(PresetNames(s));
    }

    /** The `for m in s.split(" ")` loop of `parse`. */
    method AppendPresets(names: seq<string>)
      modifies this
      ensures matrix == old(matrix) + Presets(names)
      ensures failFast == old(failFast)
    {
      var i := 0;
      while i < |names|
        invariant 0 <= i <= |names|
        invariant matrix == old(matrix) + Presets(names[..i])
        invariant failFast == old(failFast)
      {
        var p := Preset(names[i]);
        PresetsStep(names, i);
        if p.Some? {
          matrix := matrix + [p.value];
        }
        i := i + 1;
      }
      assert names[..i] == names;
    }
  }
}
