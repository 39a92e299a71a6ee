/*
 * The GStreamer library and plugin lists that the build packages with
 * Servo (python/servo/gstreamer.py): DLL names for Windows (a reduced set
 * for UWP) and the plugin list written into generated Rust source.
 *
 * The macOS lists depend on the build machine (`platform.machine()`, the
 * GSTREAMER environment variable, which files exist); here they are a
 * parameter of `PluginList`.
 */
module GStreamer {
  import opened PyStrings

  const GSTREAMER_DYLIBS: seq<string> := [
    // gstreamer
    "gstbase", "gstcontroller", "gstnet", "gstreamer",
    // gst-plugins-base
    "gstapp", "gstaudio", "gstfft", "gstgl", "gstpbutils", "gstriff", "gstrtp",
    "gstrtsp", "gstsctp", "gstsdp", "gsttag", "gstvideo",
    // gst-plugins-bad
    "gstcodecparsers", "gstplayer", "gstwebrtc"
  ]

  const GSTREAMER_PLUGINS: seq<string> := [
    // gstreamer
    "gstcoreelements", "gstnice",
    // gst-plugins-base
    "gstapp", "gstaudioconvert", "gstaudioresample", "gstgio", "gstogg", "gstopengl",
    "gstopus", "gstplayback", "gsttheora", "gsttypefindfunctions", "gstvolume", "gstvorbis",
    // gst-plugins-good
    "gstaudiofx", "gstaudioparsers", "gstautodetect", "gstdeinterlace", "gstid3demux",
    "gstinterleave", "gstisomp4", "gstmatroska", "gstrtp", "gstrtpmanager",
    "gstvideofilter", "gstvpx",
    // gst-plugins-bad
    "gstaudiobuffersplit", "gstdtls", "gstid3tag", "gstproxy", "gstvideoparsersbad", "gstwebrtc",
    // gst-libav
    "gstlibav"
  ]

  /** Libraries that are not shipped for UWP. */
  const NON_UWP_DYLIBS: seq<string> := ["gstnet", "gstsctp"]

  /** Plugins that are not shipped for UWP. */
  const NON_UWP_PLUGINS: seq<string> := [
    "gstnice",
    "gstogg", "gstopengl", "gstopus", "gstrtp", "gsttheora", "gstvorbis",
    "gstmatroska", "gstrtpmanager", "gstvpx",
    "gstdtls", "gstwebrtc"
  ]

  /** The extra Windows plugins appended to GSTREAMER_PLUGINS. */
  const WINDOWS_EXTRA_PLUGINS: seq<string> := ["gstvideoconvert", "gstvideoscale", "gstwasapi"]

  /** `filter(lambda x: x not in excluded, libs)`. */
  function Without(libs: seq<string>, excluded: seq<string>): (r: seq<string>)
    ensures forall x :: x in r <==> x in libs && x !in excluded
    ensures |r| <= |libs|
  {
    if libs == [] then []
    else if libs[0] in excluded then Without(libs[1..], excluded)
    else [libs[0]] + Without(libs[1..], excluded)
  }

  /** Filtering keeps the relative order: it distributes over concatenation. */
  lemma {:induction false} WithoutAppend(a: seq<string>, b: seq<string>, excluded: seq<string>)
    ensures Without(a + b, excluded) == Without(a, excluded) + Without(b, excluded)
  {
    if a == [] {
      assert a + b == b;
    } else {
      assert (a + b)[0] == a[0];
      assert (a + b)[1..] == a[1..] + b;
      WithoutAppend(a[1..], b, excluded);
    }
  }

  /** Filtering a list none of whose entries is excluded keeps it whole. */
  lemma {:induction false} WithoutNothingExcluded(libs: seq<string>, excluded: seq<string>)
    requires forall x :: x in libs ==> x !in excluded
    ensures Without(libs, excluded) == libs
  {
    if libs != [] {
      assert libs[0] in libs;
      assert forall x :: x in libs[1..] ==> x in libs;
      WithoutNothingExcluded(libs[1..], excluded);
    }
  }

  /** `[f"{lib}{suffix}" for lib in libs]`. */
  function WithSuffix(libs: seq<string>, suffix: string): (r: seq<string>)
    ensures |r| == |libs| && forall i :: 0 <= i < |libs| ==> r[i] == libs[i] + suffix
  {
    seq(|libs|, i requires 0 <= i < |libs| => libs[i] + suffix)
  }

  /** `windows_dlls(uwp)`. */
  function WindowsDlls(uwp: bool): seq<string>
  {
    var libs := if uwp then Without(GSTREAMER_DYLIBS, NON_UWP_DYLIBS) else GSTREAMER_DYLIBS;
    WithSuffix(libs, "-1.0-0.dll")
  }

  /** `windows_plugins(uwp)`. */
  function WindowsPlugins(uwp: bool): seq<string>
  {
    var libs := GSTREAMER_PLUGINS + WINDOWS_EXTRA_PLUGINS;
    WithSuffix(if uwp then Without(libs, NON_UWP_PLUGINS) else libs, ".dll")
  }

  /** Without UWP every library is shipped, in order, as `<lib>-1.0-0.dll`. */
  lemma WindowsDllsDesktop()
    ensures |WindowsDlls(false)| == |GSTREAMER_DYLIBS| == 19
    ensures forall i :: 0 <= i < 19 ==> WindowsDlls(false)[i] == GSTREAMER_DYLIBS[i] + "-1.0-0.dll"
  {
  }

  /** For UWP the list is the same with gstnet and gstsctp removed (order is kept by WithoutAppend). */
  lemma WindowsDllsUwp(lib: string)
    ensures WindowsDlls(true) == WithSuffix(Without(GSTREAMER_DYLIBS, NON_UWP_DYLIBS), "-1.0-0.dll")
    ensures lib + "-1.0-0.dll" in WindowsDlls(true)
        <==> lib in GSTREAMER_DYLIBS && lib != "gstnet" && lib != "gstsctp"
  {
    WithSuffixMembership(Without(GSTREAMER_DYLIBS, NON_UWP_DYLIBS), "-1.0-0.dll", lib);
  }

  /**
   * The Windows plugins: GSTREAMER_PLUGINS then the three extras, each with
   * ".dll"; for UWP exactly the non-UWP ones are gone and the order of the
   * rest is kept.
   */
  lemma WindowsPluginsContents(uwp: bool, plugin: string)
    ensures !uwp ==> WindowsPlugins(uwp) == WithSuffix(GSTREAMER_PLUGINS, ".dll") + WithSuffix(WINDOWS_EXTRA_PLUGINS, ".dll")
    ensures uwp ==> WindowsPlugins(uwp) == WithSuffix(Without(GSTREAMER_PLUGINS, NON_UWP_PLUGINS), ".dll")
                                         + WithSuffix(Without(WINDOWS_EXTRA_PLUGINS, NON_UWP_PLUGINS), ".dll")
    ensures uwp ==> (plugin + ".dll" in WindowsPlugins(uwp)
                     <==> (plugin in GSTREAMER_PLUGINS || plugin in WINDOWS_EXTRA_PLUGINS) && plugin !in NON_UWP_PLUGINS)
  {
    WithSuffixAppend(GSTREAMER_PLUGINS, WINDOWS_EXTRA_PLUGINS, ".dll");
    if uwp {
      var all := GSTREAMER_PLUGINS + WINDOWS_EXTRA_PLUGINS;
      WithoutAppend(GSTREAMER_PLUGINS, WINDOWS_EXTRA_PLUGINS, NON_UWP_PLUGINS);
      WithSuffixAppend(Without(GSTREAMER_PLUGINS, NON_UWP_PLUGINS), Without(WINDOWS_EXTRA_PLUGINS, NON_UWP_PLUGINS), ".dll");
      WithSuffixMembership(Without(all, NON_UWP_PLUGINS), ".dll", plugin);
    }
  }

  /** A name carries the suffix in the list exactly when the name is in the source list. */
  lemma WithSuffixMembership(libs: seq<string>, suffix: string, lib: string)
    ensures lib + suffix in WithSuffix(libs, suffix) <==> lib in libs
  {
    var r := WithSuffix(libs, suffix);
    if lib + suffix in r {
      var i :| 0 <= i < |r| && r[i] == lib + suffix;
      SuffixCancels(libs[i], lib, suffix);
    }
    if lib in libs {
      var i :| 0 <= i < |libs| && libs[i] == lib;
      assert r[i] == lib + suffix;
    }
  }

  lemma WithSuffixAppend(a: seq<string>, b: seq<string>, suffix: string)
    ensures WithSuffix(a + b, suffix) == WithSuffix(a, suffix) + WithSuffix(b, suffix)
  {
  }

  lemma SuffixCancels(a: string, b: string, suffix: string)
    requires a + suffix == b + suffix
    ensures a == b
  {
    assert |a| == |b|;
    assert forall i :: 0 <= i < |a| ==> a[i] == (a + suffix)[i] == (b + suffix)[i] == b[i];
  }

  /**
   * The plugin choice of `write_plugin_list(target)`: the macOS plugins'
   * base names for an "apple-" target, the Windows plugins for a
   * "-windows-" target (UWP when it contains "-uwp-"), otherwise none.
   */
  function PluginList(target: string, macosPluginNames: seq<string>): (plugins: seq<string>)
    ensures Contains(target, "apple-") ==> plugins == macosPluginNames
    ensures !Contains(target, "apple-") && Contains(target, "-windows-") ==> plugins == WindowsPlugins(Contains(target, "-uwp-"))
    ensures !Contains(target, "apple-") && !Contains(target, "-windows-") ==> plugins == []
  {
    if Contains(target, "apple-") then macosPluginNames
    else if Contains(target, "-windows-") then WindowsPlugins(Contains(target, "-uwp-"))
    else []
  }

  /** `",\n".join(...)` of the quoted names. */
  function QuotedLines(plugins: seq<string>): string
  {
    if plugins == [] then ""
    else if |plugins| == 1 then "\"" + plugins[0] + "\""
    else "\"" + plugins[0] + "\"" + ",\n" + QuotedLines(plugins[1..])
  }

  const GENERATED_HEADER: string :=
    "/* This is a generated file. Do not modify. */\n\npub(crate) static GSTREAMER_PLUGINS: &[&'static str] = &[\n"

  /** The text `write_plugin_list` prints: a Rust array of the plugin names. */
  function GeneratedSource(target: string, macosPluginNames: seq<string>): (text: string)
    ensures |text| >= |GENERATED_HEADER| + |GENERATED_FOOTER|
    ensures text[..|GENERATED_HEADER|] == GENERATED_HEADER
    ensures text[|text| - |GENERATED_FOOTER|..] == GENERATED_FOOTER
    ensures forall i :: 0 <= i < |PluginList(target, macosPluginNames)| ==>
      Contains(text, "\"" + PluginList(target, macosPluginNames)[i] + "\"")
  {
    var plugins := PluginList(target, macosPluginNames);
    var body := QuotedLines(plugins);
    var text := GENERATED_HEADER + body + GENERATED_FOOTER;
    assert text[|text| - |GENERATED_FOOTER|..] == GENERATED_FOOTER;
    QuotedLinesInGeneratedSource(plugins, text);
    text
  }

  const GENERATED_FOOTER: string := "\n];\n\n"

  /** Text found in the middle part is found in the whole. */
  lemma ContainsInMiddle(front: string, middle: string, back: string, w: string)
    requires Contains(middle, w)
    ensures Contains(front + middle + back, w)
  {
    var k :| 0 <= k <= |middle| - |w| && OccursAt(middle, w, k);
    var text := front + middle + back;
    assert text[|front| + k..|front| + k + |w|] == middle[k..k + |w|];
    ContainsAt(text, w, |front| + k);
  }

  /** Every quoted name of `QuotedLines` survives between header and footer. */
  lemma QuotedLinesInGeneratedSource(plugins: seq<string>, text: string)
    requires text == GENERATED_HEADER + QuotedLines(plugins) + GENERATED_FOOTER
    ensures forall i :: 0 <= i < |plugins| ==> Contains(text, "\"" + plugins[i] + "\"")
  {
    forall i | 0 <= i < |plugins|
      ensures Contains(text, "\"" + plugins[i] + "\"")
    {
      QuotedLinesHoldEveryName(plugins, i);
      ContainsInMiddle(GENERATED_HEADER, QuotedLines(plugins), GENERATED_FOOTER, "\"" + plugins[i] + "\"");
    }
  }

  /** Each name appears in the generated array, in quotes. */
  lemma {:induction false} QuotedLinesHoldEveryName(plugins: seq<string>, i: nat)
    requires i < |plugins|
    ensures Contains(QuotedLines(plugins), "\"" + plugins[i] + "\"")
  {
    var q := "\"" + plugins[0] + "\"";
    if |plugins| == 1 {
      ContainsAt(QuotedLines(plugins), q, 0);
    } else if i == 0 {
      assert QuotedLines(plugins)[..|q|] == q;
      ContainsAt(QuotedLines(plugins), q, 0);
    } else {
      QuotedLinesHoldEveryName(plugins[1..], i - 1);
      var rest := QuotedLines(plugins[1..]);
      var w := "\"" + plugins[i] + "\"";
      var k :| 0 <= k <= |rest| - |w| && OccursAt(rest, w, k);
      var prefix := q + ",\n";
      assert QuotedLines(plugins) == prefix + rest;
      assert (prefix + rest)[|prefix| + k..|prefix| + k + |w|] == rest[k..k + |w|];
      ContainsAt(QuotedLines(plugins), w, |prefix| + k);
    }
  }
}
