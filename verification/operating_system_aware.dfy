/** Platform detection and the option lists handed to the engine's command-line tools. */
module OperatingSystemAware {
  import opened Outcomes
  import opened Text
  import opened Disk

  /** What org.apache.commons.lang3.SystemUtils reports about the running JVM. */
  datatype Platform = Platform(isWindows: bool, isMacOsx: bool, isLinux: bool, osName: string, osArch: string)

  /** A Java int (the boxed port handed to createInitOptions). */
  type Int32 = x: int | -0x8000_0000 <= x < 0x8000_0000

  /** One entry of a configuration map; a map is given as its entries in iteration order. */
  type Entry = (string, string)

  /** getOS(): Windows is tested first, then macOS, then Linux; anything else is unsupported. */
  function GetOS(p: Platform): (r: Result<string>)
    ensures r.Ok? <==> p.isWindows || p.isMacOsx || p.isLinux
    ensures r == Ok("Windows") <==> p.isWindows
    ensures r == Ok("Darwin") <==> !p.isWindows && p.isMacOsx
    ensures r == Ok("Linux") <==> !p.isWindows && !p.isMacOsx && p.isLinux
    ensures r.Ok? ==> r.value in {"Windows", "Darwin", "Linux"}
    ensures r.Err? ==> r.error == UnsupportedOperation("Unknown OS " + p.osName)
  {
    if p.isWindows then Ok("Windows")
    else if p.isMacOsx then Ok("Darwin")
    else if p.isLinux then Ok("Linux")
    else Err(UnsupportedOperation("Unknown OS " + p.osName))
  }

  /** getArchitecture(): the JVM's `amd64` is renamed `x86_64`; every other name is kept. */
  function GetArchitecture(osArch: string): (arch: string)
    ensures osArch == "amd64" ==> arch == "x86_64"
    ensures osArch != "amd64" ==> arch == osArch
    ensures arch != "amd64"
  {
    if osArch == "amd64" then "x86_64" else osArch
  }

  /** Renaming twice is renaming once. */
  lemma GetArchitectureIdempotent(osArch: string)
    ensures GetArchitecture(GetArchitecture(osArch)) == GetArchitecture(osArch)
  {
  }

  /** The tokens createLocaleOptions emits for one entry. */
  function LocaleTokens(windows: bool, e: Entry): seq<string> {
    if windows then ["--" + e.0 + "=" + e.1] else ["--" + e.0, e.1]
  }

  /** The locale options: the tokens of each entry, in iteration order. */
  function LocaleOptions(windows: bool, config: seq<Entry>): seq<string>
    decreases |config|
  {
    if |config| == 0 then []
    else LocaleOptions(windows, config[..|config| - 1]) + LocaleTokens(windows, config[|config| - 1])
  }

  /** One `--key=value` token per entry on Windows, the pair `--key`, `value` elsewhere. */
  lemma {:induction false} LocaleOptionsShape(windows: bool, config: seq<Entry>)
    ensures |LocaleOptions(windows, config)| == (if windows then 1 else 2) * |config|
    ensures windows ==> forall j :: 0 <= j < |config| ==>
      LocaleOptions(windows, config)[j] == "--" + config[j].0 + "=" + config[j].1
    ensures !windows ==> forall j :: 0 <= j < |config| ==>
      LocaleOptions(windows, config)[2 * j] == "--" + config[j].0 &&
      LocaleOptions(windows, config)[2 * j + 1] == config[j].1
    decreases |config|
  {
    if |config| > 0 {
      var front := config[..|config| - 1];
      LocaleOptionsShape(windows, front);
      assert forall j :: 0 <= j < |front| ==> front[j] == config[j];
    }
  }

  /** The options of two runs of entries are the options of each, concatenated. */
  lemma {:induction false} LocaleOptionsAppend(windows: bool, a: seq<Entry>, b: seq<Entry>)
    ensures LocaleOptions(windows, a + b) == LocaleOptions(windows, a) + LocaleOptions(windows, b)
    decreases |b|
  {
    if |b| == 0 {
      assert a + b == a;
    } else {
      var front := b[..|b| - 1];
      assert (a + b)[..|a + b| - 1] == a + front;
      LocaleOptionsAppend(windows, a, front);
    }
  }

  /** createLocaleOptions(localeConfiguration), building the list entry by entry. */
  method CreateLocaleOptions(platform: Platform, localeConfiguration: seq<Entry>)
    returns (localeOptions: seq<string>)
    ensures localeOptions == LocaleOptions(platform.isWindows, localeConfiguration)
  {
    localeOptions := [];
    for i := 0 to |localeConfiguration|
      invariant localeOptions == LocaleOptions(platform.isWindows, localeConfiguration[..i])
    {
      var (key, value) := localeConfiguration[i];
      if platform.isWindows {
        localeOptions := localeOptions + ["--" + key + "=" + value];
      } else {
        localeOptions := localeOptions + ["--" + key];
        localeOptions := localeOptions + [value];
      }
      assert localeConfiguration[..i + 1][..i] == localeConfiguration[..i];
    }
    assert localeConfiguration[..|localeConfiguration|] == localeConfiguration;
  }

  /** The `-c key=value` pairs of createInitOptions, in iteration order. */
  function ConfigPairs(config: seq<Entry>): seq<string>
    decreases |config|
  {
    if |config| == 0 then []
    else ConfigPairs(config[..|config| - 1]) + ["-c", config[|config| - 1].0 + "=" + config[|config| - 1].1]
  }

  /** The postmaster options: port, `-F`, then one `-c` setting per entry. */
  function InitOptions(port: int, config: seq<Entry>): seq<string> {
    ["-p", IntToDecimal(port), "-F"] + ConfigPairs(config)
  }

  lemma {:induction false} ConfigPairsShape(config: seq<Entry>)
    ensures |ConfigPairs(config)| == 2 * |config|
    ensures forall j :: 0 <= j < |config| ==>
      ConfigPairs(config)[2 * j] == "-c" && ConfigPairs(config)[2 * j + 1] == config[j].0 + "=" + config[j].1
    decreases |config|
  {
    if |config| > 0 {
      var front := config[..|config| - 1];
      ConfigPairsShape(front);
      assert forall j :: 0 <= j < |front| ==> front[j] == config[j];
    }
  }

  /** `-p`, the decimal port (which reads back as the port) and `-F`, then the pair `-c`,
      `key=value` per entry: 3 + 2n tokens. */
  lemma InitOptionsShape(port: int, config: seq<Entry>)
    ensures |InitOptions(port, config)| == 3 + 2 * |config|
    ensures InitOptions(port, config)[..3] == ["-p", IntToDecimal(port), "-F"]
    ensures ParseDecimal(InitOptions(port, config)[1]) == Some(port)
    ensures forall j :: 0 <= j < |config| ==>
      InitOptions(port, config)[3 + 2 * j] == "-c" &&
      InitOptions(port, config)[4 + 2 * j] == config[j].0 + "=" + config[j].1
  {
    ConfigPairsShape(config);
    DecimalRoundTrip(port);
  }

  /** createInitOptions(port, postgresConfiguration), building the list entry by entry. */
  method CreateInitOptions(port: Int32, postgresConfiguration: seq<Entry>) returns (initOptions: seq<string>)
    ensures initOptions == InitOptions(port, postgresConfiguration)
  {
    initOptions := ["-p", IntToDecimal(port), "-F"];
    for i := 0 to |postgresConfiguration|
      invariant initOptions == InitOptions(port, postgresConfiguration[..i])
    {
      var (key, value) := postgresConfiguration[i];
      initOptions := initOptions + ["-c"];
      initOptions := initOptions + [key + "=" + value];
      assert postgresConfiguration[..i + 1][..i] == postgresConfiguration[..i];
    }
    assert postgresConfiguration[..|postgresConfiguration|] == postgresConfiguration;
  }

  function ExecutableExtension(platform: Platform): string {
    if platform.isWindows then ".exe" else ""
  }

  /** getBinaryPath(directory, binaryName): `bin/<name>` (plus `.exe` on Windows) resolved
      against the directory as java.io.File does. */
  function GetBinaryPath(platform: Platform, directory: Path, binaryName: string): Path {
    Child(directory, "bin/" + (binaryName + ExecutableExtension(platform)))
  }

  /** For a binary name that is one path component, the binary path is the directory's
      normal form, `bin/`, the name and the platform's extension, and it lies in the
      directory's `bin` subdirectory. */
  lemma GetBinaryPathLocation(platform: Platform, directory: Path, binaryName: string)
    requires SimpleName(binaryName)
    ensures var base := Base(directory);
      GetBinaryPath(platform, directory, binaryName) ==
        base + Joint(base) + "bin/" + binaryName + ExecutableExtension(platform)
    ensures Parent(GetBinaryPath(platform, directory, binaryName)) == Some(Child(directory, "bin"))
    ensures platform.isWindows ==> EndsWith(GetBinaryPath(platform, directory, binaryName), ".exe")
  {
    var file := binaryName + ExecutableExtension(platform);
    var base := Base(directory);
    BinaryFileName(platform, binaryName);
    BinaryPathResolves(directory, file);
    BinaryPathParent(directory, file);
    assert base + Joint(base) + "bin/" + file == base + Joint(base) + "bin/" + binaryName + ExecutableExtension(platform);
  }

  /** Adding the platform's extension to a one-component name keeps it one component. */
  lemma BinaryFileName(platform: Platform, binaryName: string)
    requires SimpleName(binaryName)
    ensures SimpleName(binaryName + ExecutableExtension(platform))
  {
    var ext := ExecutableExtension(platform);
    var file := binaryName + ext;
    forall i | 0 <= i < |file|
      ensures file[i] != '/'
    {
      if i < |binaryName| {
        assert file[i] == binaryName[i];
      } else {
        assert file[i] == ext[i - |binaryName|];
      }
    }
  }

  /** `bin/<file>` for a one-component file name lies in the directory's `bin`
      subdirectory. */
  lemma BinaryPathParent(directory: Path, file: string)
    requires SimpleName(file)
    ensures Parent(Child(directory, "bin/" + file)) == Some(Child(directory, "bin"))
  {
    var base := Base(directory);
    var bin := base + Joint(base) + "bin";
    assert Normal("bin");
    assert Child(directory, "bin") == bin;
    BinaryPathResolves(directory, file);
    assert Child(directory, "bin/" + file) == bin + "/" + file;
    BinDirectoryParent(base, file);
  }

  /** `bin/<file>` for a one-component file name is joined to the directory unchanged. */
  lemma BinaryPathResolves(directory: Path, file: string)
    requires SimpleName(file)
    ensures Child(directory, "bin/" + file) == Base(directory) + Joint(Base(directory)) + "bin/" + file
  {
    JoinNormal("bin", file);
    assert "bin/" + file == "bin" + Joint("bin") + file;
  }

  lemma BinDirectoryParent(base: Path, file: string)
    requires SimpleName(file) && base != ""
    ensures Parent(base + Joint(base) + "bin" + "/" + file) == Some(base + Joint(base) + "bin")
  {
    var bin := base + Joint(base) + "bin";
    assert Joint(bin) == "/";
    JoinParent(bin, file);
  }

  /** Different binaries, each named by one path component, never share a path. */
  lemma GetBinaryPathInjective(platform: Platform, directory: Path, a: string, b: string)
    requires SimpleName(a) && SimpleName(b)
    requires GetBinaryPath(platform, directory, a) == GetBinaryPath(platform, directory, b)
    ensures a == b
  {
    GetBinaryPathLocation(platform, directory, a);
    GetBinaryPathLocation(platform, directory, b);
    var ext := ExecutableExtension(platform);
    var base := Base(directory);
    var prefix := base + Joint(base) + "bin/";
    assert prefix + a + ext == prefix + b + ext;
    assert |a| == |b|;
    assert a == (prefix + a + ext)[|prefix|..|prefix| + |a|];
    assert b == (prefix + b + ext)[|prefix|..|prefix| + |b|];
  }

  function LineSeparator(platform: Platform): string {
    if platform.isWindows then "\r\n" else "\n"
  }

  /** The exit-status rule of system(command): it returns only on exit status 0; otherwise it
      throws IllegalStateException("Process <command list> failed<newline><stderr>"). */
  function SystemOutcome(platform: Platform, command: seq<string>, exitStatus: int, stderr: string): (o: Outcome)
    ensures o.Pass? <==> exitStatus == 0
    ensures o.Fail? ==> o.error.IllegalState? && Contains(o.error.message, ListString(command))
  {
    if exitStatus == 0 then Pass
    else
      var message := "Process " + ListString(command) + " failed" + LineSeparator(platform) + stderr;
      assert StartsWith(message[8..], ListString(command));
      Fail(IllegalState(message))
  }
}
