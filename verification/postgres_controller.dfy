/** The argument vectors of the engine's `pg_ctl` and `initdb` tools, and the rule that a
    tool run succeeds only with exit status 0. */
module PostgresController {
  import opened Outcomes
  import opened Text
  import opened Disk
  import opened OperatingSystemAware

  /** pgBin(postgresDirectory, binaryName). */
  function PgBin(platform: Platform, postgresDirectory: Path, binaryName: string): (path: Path)
    ensures path == GetBinaryPath(platform, postgresDirectory, binaryName)
  {
    Child(postgresDirectory, "bin/" + (binaryName + (if platform.isWindows then ".exe" else "")))
  }

  /** The options joined by single spaces into one argument (Collectors.joining(" ")). */
  function OptionsString(options: seq<string>): string {
    Join(" ", options)
  }

  /** The command pgCtl runs: the tool, the action, `-D`, the data directory, and all
      options as one final argument. */
  function PgCtlCommand(platform: Platform, postgresDirectory: Path, dataDirectory: Path,
                        action: string, options: seq<string>): (command: seq<string>)
    ensures |command| == 5
    ensures command[0] == PgBin(platform, postgresDirectory, "pg_ctl")
    ensures command[1..4] == [action, "-D", dataDirectory]
    ensures command[4] == OptionsString(options)
  {
    [PgBin(platform, postgresDirectory, "pg_ctl"), action, "-D", dataDirectory, OptionsString(options)]
  }

  /** The command initDb runs: the tool, all options as one argument, then `-D` and the
      data directory. */
  function InitDbCommand(platform: Platform, postgresDirectory: Path, dataDirectory: Path,
                         options: seq<string>): (command: seq<string>)
    ensures |command| == 4
    ensures command[0] == PgBin(platform, postgresDirectory, "initdb")
    ensures command[1] == OptionsString(options)
    ensures command[2..] == ["-D", dataDirectory]
  {
    [PgBin(platform, postgresDirectory, "initdb"), OptionsString(options), "-D", dataDirectory]
  }

  /** An empty option list still contributes one argument, the empty string. */
  lemma EmptyOptionsStillPassed(platform: Platform, postgresDirectory: Path, dataDirectory: Path, action: string)
    ensures PgCtlCommand(platform, postgresDirectory, dataDirectory, action, [])[4] == ""
    ensures InitDbCommand(platform, postgresDirectory, dataDirectory, [])[1] == ""
  {
  }

  /** The joined argument carries the options without loss as long as none is blank-bearing:
      splitting it at the spaces gives the list back. */
  lemma OptionsRecoverable(options: seq<string>)
    requires |options| > 0
    requires forall i :: 0 <= i < |options| ==> ' ' !in options[i]
    ensures Split(OptionsString(options), ' ') == options
  {
    SplitJoin(options, ' ');
  }

  /** pgCtl(postgresDirectory, dataDirectory, action, options): runs the command and
      answers with it when the tool exits with status 0. */
  function PgCtl(platform: Platform, postgresDirectory: Path, dataDirectory: Path, action: string,
                 options: seq<string>, exitStatus: int, stderr: string): (r: Result<seq<string>>)
    ensures r.Ok? <==> exitStatus == 0
    ensures r.Ok? ==> r.value == PgCtlCommand(platform, postgresDirectory, dataDirectory, action, options)
    ensures r.Err? ==> r.error.IllegalState?
    ensures r.Err? ==>
      Contains(r.error.message, ListString(PgCtlCommand(platform, postgresDirectory, dataDirectory, action, options)))
  {
    var command := PgCtlCommand(platform, postgresDirectory, dataDirectory, action, options);
    match SystemOutcome(platform, command, exitStatus, stderr)
    case Pass => Ok(command)
    case Fail(e) => Err(e)
  }

  /** initDb(postgresDirectory, dataDirectory, options), under the same exit-status rule. */
  function InitDb(platform: Platform, postgresDirectory: Path, dataDirectory: Path,
                  options: seq<string>, exitStatus: int, stderr: string): (r: Result<seq<string>>)
    ensures r.Ok? <==> exitStatus == 0
    ensures r.Ok? ==> r.value == InitDbCommand(platform, postgresDirectory, dataDirectory, options)
    ensures r.Err? ==> r.error.IllegalState?
    ensures r.Err? ==>
      Contains(r.error.message, ListString(InitDbCommand(platform, postgresDirectory, dataDirectory, options)))
  {
    var command := InitDbCommand(platform, postgresDirectory, dataDirectory, options);
    match SystemOutcome(platform, command, exitStatus, stderr)
    case Pass => Ok(command)
    case Fail(e) => Err(e)
  }
}
