/** Helpers shared by the `run` and `child` commands: reading a runtime bundle from disk, and
    turning a declared mount's option strings into the flags and data of the mount call. */
module Util {
  import opened Wrappers
  import opened Paths
  import opened Oci

  /** The two names inside a runtime bundle directory. */
  const RootfsFolder: string := "rootfs"
  const ConfigFile: string := "config.json"

  // ---------------------------------------------------------------------------------------
  // Mount option translation
  // ---------------------------------------------------------------------------------------

  /** The mount data for `options`: every option followed by a comma, in the given order. */
  function OptionData(options: seq<string>): string
  {
    if options == [] then "" else options[0] + "," + OptionData(options[1..])
  }

  /** The mount options as the loop builds them, one `WriteString(o + ",")` per option.
      No option is recognised as a flag: the flag word is always 0 and there is no error. */
  method ParseMountFlagsAndDataFromOptions(options: seq<string>) returns (flags: bv64, data: string, err: Option<string>)
    ensures flags == 0 && err == None
    ensures data == OptionData(options)
  {
    var builder := "";
    for i := 0 to |options|
      invariant builder == OptionData(options[..i])
    {
      assert options[..i + 1] == options[..i] + [options[i]];
      OptionDataAppend(options[..i], [options[i]]);
      builder := builder + (options[i] + ",");
    }
    assert options[..|options|] == options;
    return 0, builder, None;
  }

  /** Translating a concatenation concatenates the translations: order is kept. */
  lemma {:induction false} OptionDataAppend(a: seq<string>, b: seq<string>)
    ensures OptionData(a + b) == OptionData(a) + OptionData(b)
    decreases |a|
  {
    if a == [] {
      assert a + b == b;
    } else {
      assert (a + b)[0] == a[0];
      assert (a + b)[1..] == a[1..] + b;
      OptionDataAppend(a[1..], b);
    }
  }

  /** The option at position `i` stands in the data right after the data of the options before it. */
  lemma OptionDataAt(options: seq<string>, i: nat)
    requires i < |options|
    ensures OptionData(options) == OptionData(options[..i]) + options[i] + "," + OptionData(options[i + 1..])
  {
    var front, back := options[..i], options[i..];
    assert options == front + back;
    OptionDataAppend(front, back);
    assert back[0] == options[i] && back[1..] == options[i + 1..];
    var x, y := OptionData(front), OptionData(options[i + 1..]);
    Paths.ConcatAssoc(x, options[i] + ",", y);
    Paths.ConcatAssoc(x, options[i], ",");
  }

  /** Total length of the option strings. */
  function TotalLength(options: seq<string>): nat
  {
    if options == [] then 0 else |options[0]| + TotalLength(options[1..])
  }

  /** The data holds every option's characters plus one comma per option. */
  lemma {:induction false} OptionDataLength(options: seq<string>)
    ensures |OptionData(options)| == TotalLength(options) + |options|
    decreases |options|
  {
    if options != [] {
      OptionDataLength(options[1..]);
    }
  }

  /** No options give empty data; otherwise the data ends with a comma. */
  lemma {:induction false} OptionDataShape(options: seq<string>)
    ensures options == [] <==> OptionData(options) == ""
    ensures options != [] ==> OptionData(options)[|OptionData(options)| - 1] == ','
    decreases |options|
  {
    if options != [] {
      OptionDataShape(options[1..]);
      var rest := OptionData(options[1..]);
      assert OptionData(options) == options[0] + "," + rest;
      if rest != "" {
        assert OptionData(options)[|OptionData(options)| - 1] == rest[|rest| - 1];
      }
    }
  }

  /** The comma-terminated fields of `s`, `cur` being the field read so far; a reference reading
      of mount data, against which the translation is checked. */
  function Fields(s: string, cur: string): seq<string>
    decreases |s|
  {
    if s == [] then (if cur == [] then [] else [cur])
    else if s[0] == ',' then [cur] + Fields(s[1..], [])
    else Fields(s[1..], cur + [s[0]])
  }

  lemma {:induction false} FieldsOfField(cur: string, o: string, rest: string)
    requires ',' !in o
    ensures Fields(o + "," + rest, cur) == [cur + o] + Fields(rest, [])
    decreases |o|
  {
    var s := o + "," + rest;
    if o == [] {
      assert s[0] == ',' && s[1..] == rest;
      assert cur + o == cur;
    } else {
      assert s[0] == o[0] && s[1..] == o[1..] + "," + rest;
      FieldsOfField(cur + [o[0]], o[1..], rest);
      assert cur + [o[0]] + o[1..] == cur + o;
    }
  }

  /** Reading the data back gives the options, as long as no option holds a comma itself. */
  lemma {:induction false} OptionDataRoundTrip(options: seq<string>)
    requires forall i :: 0 <= i < |options| ==> ',' !in options[i]
    ensures Fields(OptionData(options), []) == options
    decreases |options|
  {
    if options != [] {
      OptionDataRoundTrip(options[1..]);
      FieldsOfField([], options[0], OptionData(options[1..]));
      assert [] + options[0] == options[0];
      assert options == [options[0]] + options[1..];
    }
  }

  // ---------------------------------------------------------------------------------------
  // Bundle loading
  // ---------------------------------------------------------------------------------------

  /** What bundle loading sees of the host: the readable files by path (`os.Open` fails on any
      other path), the JSON decoder (None: the bytes are not a configuration), and the result of
      `os.Getwd` used by `filepath.Abs` (None: an error). */
  datatype Host = Host(files: map<string, Bytes>, decode: Bytes -> Option<Spec>, getwd: Option<string>)

  datatype LoadError =
    | OpenFailed(path: string)
    | DecodeFailed(path: string)
    | AbsFailed(path: string)
  {
    function Message(): string
    {
      match this
      case OpenFailed(_) => "failed to open runtime config file"
      case DecodeFailed(_) => "failed to decode runtime config file"
      case AbsFailed(_) => "failed to make absolute path from rootfs path"
    }
  }

  /** Go's `(*specs.Spec, string, error)` triple. */
  datatype Loaded = Loaded(config: Option<Spec>, rootfsPath: string, err: Option<LoadError>)

  /** Where a bundle keeps its configuration and its root file system. */
  function ConfigPath(runtimePath: string): string
  {
    Join(runtimePath, ConfigFile)
  }

  function RootfsPath(runtimePath: string, getwd: Option<string>): Option<string>
  {
    Abs(Join(runtimePath, RootfsFolder), getwd)
  }

  /** Read the bundle at `runtimePath`: open and decode its configuration, then make the
      rootfs path absolute. Either everything is returned or nothing but an error. */
  function GetConfigAndRootFromRuntimePath(runtimePath: string, host: Host): (r: Loaded)
    ensures r.err.None? <==> r.config.Some?
    ensures r.err.Some? ==> r.rootfsPath == ""
    ensures r.err == Some(OpenFailed(ConfigPath(runtimePath))) <==> ConfigPath(runtimePath) !in host.files
    ensures r.err == Some(DecodeFailed(ConfigPath(runtimePath))) <==>
              && ConfigPath(runtimePath) in host.files
              && host.decode(host.files[ConfigPath(runtimePath)]).None?
    ensures r.err == Some(AbsFailed(Join(runtimePath, RootfsFolder))) <==>
              && ConfigPath(runtimePath) in host.files
              && host.decode(host.files[ConfigPath(runtimePath)]).Some?
              && RootfsPath(runtimePath, host.getwd).None?
    ensures r.err.None? <==>
              && ConfigPath(runtimePath) in host.files
              && host.decode(host.files[ConfigPath(runtimePath)]).Some?
              && RootfsPath(runtimePath, host.getwd).Some?
    ensures r.err.None? ==>
              && r.config == host.decode(host.files[ConfigPath(runtimePath)])
              && Some(r.rootfsPath) == RootfsPath(runtimePath, host.getwd)
  {
    var configPath := ConfigPath(runtimePath);
    if configPath !in host.files then Loaded(None, "", Some(OpenFailed(configPath)))
    else
      var config := host.decode(host.files[configPath]);
      if config.None? then Loaded(None, "", Some(DecodeFailed(configPath)))
      else
        var rootfs := RootfsPath(runtimePath, host.getwd);
        if rootfs.None? then Loaded(None, "", Some(AbsFailed(Join(runtimePath, RootfsFolder))))
        else Loaded(config, rootfs.value, None)
  }

  /** A name without separators, joined onto a path `p`, becomes one more kept segment of `p`. */
  lemma JoinName(p: string, name: string)
    requires name != "" && name != "." && name != ".." && Sep !in name
    ensures Join(p, name) == Render(IsAbs(p), Segments(p) + [name])
  {
    if p == "" {
      assert Segments(p) == [];
      NameIsClean(name);
    } else {
      SplitSepFree(name);
      JoinSegments(p, name);
    }
  }

  /** The configuration and the root file system sit side by side in the bundle directory: for any
      bundle path, the empty one included, their kept segments are the bundle's with one more name, and for a
      rooted bundle path (or a rooted working directory) the rootfs path is rooted and clean. */
  lemma BundleLayout(runtimePath: string, getwd: Option<string>)
    ensures Segments(ConfigPath(runtimePath)) == Segments(runtimePath) + [ConfigFile]
    ensures Segments(Join(runtimePath, RootfsFolder)) == Segments(runtimePath) + [RootfsFolder]
    ensures IsAbs(runtimePath) || (getwd.Some? && IsAbs(getwd.value)) ==>
              && RootfsPath(runtimePath, getwd).Some?
              && IsAbs(RootfsPath(runtimePath, getwd).value)
              && Clean(RootfsPath(runtimePath, getwd).value) == RootfsPath(runtimePath, getwd).value
  {
    var r := IsAbs(runtimePath);
    SegmentsNormal(runtimePath);
    JoinName(runtimePath, ConfigFile);
    JoinName(runtimePath, RootfsFolder);
    StepNormal(r, Segments(runtimePath), ConfigFile);
    StepNormal(r, Segments(runtimePath), RootfsFolder);
    RenderSegments(r, Segments(runtimePath) + [ConfigFile]);
    RenderSegments(r, Segments(runtimePath) + [RootfsFolder]);
    var j := Join(runtimePath, RootfsFolder);
    if r {
      assert IsAbs(j);
    }
    if IsAbs(runtimePath) || (getwd.Some? && IsAbs(getwd.value)) {
      AbsIsRootedAndClean(j, getwd);
    }
  }
}
