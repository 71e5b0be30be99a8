/** The embedded server's lifecycle: construction (prepare the binaries, initdb when the data
    directory holds no postgresql.conf), start (optional cleanup, the data-directory lock, the
    one-shot `started` flag, pg_ctl start, the readiness loop) and close (the one-shot `closed`
    flag, a best-effort pg_ctl stop, lock release, optional cleanup). */
module PostgresEmbeddedServer {
  import opened Outcomes
  import opened Text
  import opened Disk
  import opened OperatingSystemAware
  import opened PostgresController
  import opened BinaryResolver
  import opened PostgresBinaryPreparer

  const ConfFileName := "postgresql.conf"
  const NoCleanupProperty := "pmp.no-cleanup"
  /** `-A trust -U postgres -E UTF-8`, which initdb receives before the locale options. */
  const InitDbBaseOptions: seq<string> := ["-A", "trust", "-U", "postgres", "-E", "UTF-8"]
  /** `-m fast -t 5 -w`: fast shutdown, waiting at most five seconds. */
  const StopOptions: seq<string> := ["-m", "fast", "-t", "5", "-w"]

  // ---------------------------------------------------------------- verifyReady

  /** What the readiness probe observes: the socket connect fails, the JDBC query fails with an
      SQLException, or `SELECT 1` answers with these values in its first column, one per row. */
  datatype Probe = ConnectFailed | QueryFailed(message: string) | Rows(firstColumn: seq<int>)

  /** verifyReady's verdict: ready, an SQLException (retried by the caller), or an
      IllegalStateException (not caught by the caller). */
  datatype Readiness = Accepted | SqlError(message: string) | Rejected(error: Failure)

  function VerifyReady(probe: Probe): (r: Readiness)
    ensures r.Accepted? <==> probe == Rows([1])
    ensures r.SqlError? <==> !probe.Rows?
    ensures probe.ConnectFailed? ==> r == SqlError("connect failed")
    ensures probe.QueryFailed? ==> r == SqlError(probe.message)
    ensures r.Rejected? ==> r.error.IllegalState?
  {
    match probe
    case ConnectFailed => SqlError("connect failed")
    case QueryFailed(message) => SqlError(message)
    case Rows(column) =>
      if |column| == 0 then Rejected(IllegalState("expecting single row"))
      else if column[0] != 1 then Rejected(IllegalState("expecting 1"))
      else if |column| > 1 then Rejected(IllegalState("expecting single row"))
      else Accepted
  }

  /** A rejected result is reported as "expecting 1" exactly when there is a first row and its
      value is not 1; every other rejection is "expecting single row". */
  lemma VerifyReadyMessages(probe: Probe)
    requires VerifyReady(probe).Rejected?
    ensures VerifyReady(probe).error.message ==
      if |probe.firstColumn| > 0 && probe.firstColumn[0] != 1 then "expecting 1" else "expecting single row"
  {
  }

  // ---------------------------------------------------------------- waitForServerStartup

  /** One pass of the readiness loop that starts before the deadline: the probe's outcome and
      whether the 100 ms sleep after a failed probe is interrupted. */
  datatype Attempt = Attempt(probe: Probe, sleepInterrupted: bool)

  /** How the readiness loop ends. */
  datatype Waiting = Up | Interrupted | GaveUp(lastCause: Option<string>) | Aborted(error: Failure)

  /** The readiness loop over the attempts made before the deadline, `lastCause` being the
      message of the latest SQLException so far. */
  function Wait(attempts: seq<Attempt>, lastCause: Option<string>): Waiting
    decreases |attempts|
  {
    if |attempts| == 0 then GaveUp(lastCause)
    else match VerifyReady(attempts[0].probe)
      case Accepted => Up
      case Rejected(e) => Aborted(e)
      case SqlError(message) =>
        if attempts[0].sleepInterrupted then Interrupted else Wait(attempts[1..], Some(message))
  }

  /** The message of the SQLException an attempt ends in, if it ends in one. */
  function CauseOf(a: Attempt): Option<string> {
    match VerifyReady(a.probe)
    case SqlError(message) => Some(message)
    case _ => None
  }

  /** The attempt fails with an SQLException and the sleep after it completes. */
  predicate Retried(a: Attempt) {
    VerifyReady(a.probe).SqlError? && !a.sleepInterrupted
  }

  /** Attempt `k` is the first to find the server ready, every one before it having been retried. */
  predicate ReadyAt(attempts: seq<Attempt>, k: int) {
    0 <= k < |attempts| && attempts[k].probe == Rows([1]) && forall j :: 0 <= j < k ==> Retried(attempts[j])
  }

  lemma ReadyAtTail(attempts: seq<Attempt>, k: int)
    requires |attempts| > 0 && Retried(attempts[0])
    ensures ReadyAt(attempts, k + 1) <==> ReadyAt(attempts[1..], k)
  {
    if ReadyAt(attempts[1..], k) {
      forall j | 0 <= j < k + 1 ensures Retried(attempts[j]) {
        if j > 0 {
          assert attempts[j] == attempts[1..][j - 1];
        }
      }
    }
    if ReadyAt(attempts, k + 1) {
      forall j | 0 <= j < k ensures Retried(attempts[1..][j]) {
        assert attempts[1..][j] == attempts[j + 1];
      }
    }
  }

  /** The loop reports the server up exactly when some attempt finds it ready after every
      earlier attempt failed with an SQLException and slept its full interval. */
  lemma {:induction false} WaitUp(attempts: seq<Attempt>, lastCause: Option<string>)
    ensures Wait(attempts, lastCause).Up? <==> exists k :: ReadyAt(attempts, k)
    decreases |attempts|
  {
    if |attempts| > 0 {
      if Retried(attempts[0]) {
        WaitUp(attempts[1..], Some(VerifyReady(attempts[0].probe).message));
        if exists k :: ReadyAt(attempts[1..], k) {
          var k :| ReadyAt(attempts[1..], k);
          ReadyAtTail(attempts, k);
        }
        if exists k :: ReadyAt(attempts, k) {
          var k :| ReadyAt(attempts, k);
          assert k != 0;
          ReadyAtTail(attempts, k - 1);
        }
      } else {
        if attempts[0].probe == Rows([1]) {
          assert ReadyAt(attempts, 0);
        }
        if exists k :: ReadyAt(attempts, k) {
          var k :| ReadyAt(attempts, k);
          assert k == 0;
        }
      }
    }
  }

  /** The loop gives up exactly when every attempt before the deadline was retried, and its
      cause is then the last attempt's SQLException (the given one when there was no attempt). */
  lemma {:induction false} WaitGivesUp(attempts: seq<Attempt>, lastCause: Option<string>)
    ensures Wait(attempts, lastCause).GaveUp? <==> forall j :: 0 <= j < |attempts| ==> Retried(attempts[j])
    ensures Wait(attempts, lastCause).GaveUp? ==>
      Wait(attempts, lastCause).lastCause ==
        if |attempts| == 0 then lastCause else CauseOf(attempts[|attempts| - 1])
    decreases |attempts|
  {
    if |attempts| > 0 && Retried(attempts[0]) {
      var rest := attempts[1..];
      WaitGivesUp(rest, Some(VerifyReady(attempts[0].probe).message));
      assert forall j :: 0 <= j < |rest| ==> rest[j] == attempts[j + 1];
      if |rest| > 0 {
        assert rest[|rest| - 1] == attempts[|attempts| - 1];
      }
    }
  }

  /** An IllegalStateException from verifyReady ends the loop at once: once the attempts before
      it were retried, nothing after it is looked at. */
  lemma {:induction false} WaitStopsAtRejected(attempts: seq<Attempt>, lastCause: Option<string>, k: nat)
    requires k < |attempts| && VerifyReady(attempts[k].probe).Rejected?
    requires forall j :: 0 <= j < k ==> Retried(attempts[j])
    ensures Wait(attempts, lastCause) == Aborted(VerifyReady(attempts[k].probe).error)
    ensures Wait(attempts, lastCause) == Wait(attempts[..k + 1], lastCause)
    decreases k
  {
    if k > 0 {
      var rest := attempts[1..];
      assert rest[k - 1] == attempts[k];
      assert attempts[..k + 1][1..] == rest[..k];
      forall j | 0 <= j < k - 1 ensures Retried(rest[j]) {
        assert rest[j] == attempts[j + 1];
      }
      WaitStopsAtRejected(rest, Some(VerifyReady(attempts[0].probe).message), k - 1);
    }
  }

  /** waitForServerStartup, over the attempts made before the deadline. */
  method WaitForServerStartup(attempts: seq<Attempt>) returns (w: Waiting)
    ensures w == Wait(attempts, None)
  {
    var lastCause: Option<string> := None;
    var i := 0;
    while i < |attempts|
      invariant 0 <= i <= |attempts|
      invariant Wait(attempts, None) == Wait(attempts[i..], lastCause)
    {
      assert attempts[i..][1..] == attempts[i + 1..];
      match VerifyReady(attempts[i].probe) {
        case Accepted =>
          return Up;
        case Rejected(e) =>
          return Aborted(e);
        case SqlError(message) =>
          lastCause := Some(message);
      }
      if attempts[i].sleepInterrupted {
        return Interrupted;
      }
      i := i + 1;
    }
    w := GaveUp(lastCause);
  }

  // ---------------------------------------------------------------- the server

  /** The server's settings: the port, the data directory, the `-c` settings and the initdb
      locale settings (each in map-iteration order), both cleanup flags and the startup wait. */
  datatype ServerConfig = ServerConfig(
    port: Int32,
    dataDirectory: FilePath,
    postgresConfig: seq<Entry>,
    localeConfig: seq<Entry>,
    cleanBeforeStart: bool,
    cleanAfterClose: bool,
    startupWaitMillis: nat)

  /** What a server is built with: the platform, the system properties, the prepared binary
      directory and its settings. */
  datatype Setup = Setup(platform: Platform, props: map<string, string>, postgresDirectory: Path, config: ServerConfig)

  function LockFile(setup: Setup): Path {
    Child(setup.config.dataDirectory, LockFileName)
  }

  /** Deleting the data directory is asked for by the flag and not vetoed by `pmp.no-cleanup`. */
  predicate CleanupEnabled(flag: bool, props: map<string, string>) {
    flag && NoCleanupProperty !in props
  }

  /** The `lockStream` field: never assigned (null), open, or closed. */
  datatype LockStream = Unopened | Open | Closed

  /** The server's fields, its command trace (every pg_ctl / initdb command line run, in order)
      and the filesystem. `lockAcquired` is `lock != null`. */
  datatype ServerState = ServerState(
    started: bool,
    closed: bool,
    lockStream: LockStream,
    lockAcquired: bool,
    commands: seq<seq<string>>,
    fs: FsState)

  /** A freshly built server. */
  function Initial(fs: FsState): ServerState {
    ServerState(false, false, Unopened, false, [], fs)
  }

  /** The initdb options: the fixed ones, then the locale options. */
  function InitDbOptions(setup: Setup): seq<string> {
    InitDbBaseOptions + LocaleOptions(setup.platform.isWindows, setup.config.localeConfig)
  }

  /** The constructor's initialization step: initdb runs when no postgresql.conf is found. */
  function InitSpec(st: ServerState, setup: Setup, initExit: int, initStderr: string): (out: (ServerState, Outcome)) {
    if Exists(st.fs, Child(setup.config.dataDirectory, ConfFileName)) then (st, Pass)
    else
      var st1 := st.(commands := st.commands +
        [InitDbCommand(setup.platform, setup.postgresDirectory, setup.config.dataDirectory, InitDbOptions(setup))]);
      match InitDb(setup.platform, setup.postgresDirectory, setup.config.dataDirectory, InitDbOptions(setup), initExit, initStderr)
      case Ok(_) => (st1, Pass)
      case Err(e) => (st1, Fail(e))
  }

  /** initdb runs exactly when postgresql.conf is absent, with `-A trust -U postgres -E UTF-8`
      followed by the locale options, before `-D <data directory>`; the outcome follows
      initdb's exit status. */
  lemma InitOnlyWhenConfAbsent(st: ServerState, setup: Setup, initExit: int, initStderr: string)
    ensures var out := InitSpec(st, setup, initExit, initStderr);
      Exists(st.fs, Child(setup.config.dataDirectory, ConfFileName)) ==> out == (st, Pass)
    ensures var out := InitSpec(st, setup, initExit, initStderr);
      !Exists(st.fs, Child(setup.config.dataDirectory, ConfFileName)) ==>
        && out.0 == st.(commands := st.commands + [out.0.commands[|st.commands|]])
        && out.0.commands[|st.commands|][1] ==
             Join(" ", ["-A", "trust", "-U", "postgres", "-E", "UTF-8"] +
                       LocaleOptions(setup.platform.isWindows, setup.config.localeConfig))
        && out.0.commands[|st.commands|][2..] == ["-D", setup.config.dataDirectory]
        && (out.1.Pass? <==> initExit == 0)
  {
  }

  /** lock(): open the lock file for writing, then tryLock on it. */
  function LockSpec(st: ServerState, setup: Setup, peerHoldsLock: bool): (out: (ServerState, Outcome)) {
    var lockFile := LockFile(setup);
    var stream := OpenForWrite(st.fs, lockFile);
    if stream.1.Fail? then (st, stream.1)
    else
      var st1 := st.(fs := stream.0, lockStream := Open);
      var locked := TryLock(stream.0, lockFile, peerHoldsLock);
      match locked.1
      case Err(e) => (st1, Fail(e))
      case Ok(acquired) =>
        var st2 := st1.(fs := locked.0, lockAcquired := acquired);
        if acquired then (st2, Pass) else (st2, Fail(IllegalState("could not lock " + lockFile)))
  }

  /** The inputs of one start(): whether another process holds the data-directory lock, how
      pg_ctl start exits, and the readiness loop's attempts. */
  datatype StartRun = StartRun(peerHoldsLock: bool, pgCtlExit: int, pgCtlStderr: string, attempts: seq<Attempt>)

  /** The options given to `pg_ctl start`: `-o` followed by the init options. */
  function StartOptions(setup: Setup): seq<string> {
    ["-o"] + InitOptions(setup.config.port, setup.config.postgresConfig)
  }

  function TimeoutMessage(setup: Setup): string {
    "Gave up waiting for server to start after " + IntToDecimal(setup.config.startupWaitMillis) + "ms"
  }

  /** The cleanup before start: the data directory is deleted when the rule allows it. Only an
      IOException is caught there, so the IllegalArgumentException of a regular file at the
      data directory's path escapes. */
  function CleanSpec(st: ServerState, setup: Setup): (out: (ServerState, Outcome)) {
    if CleanupEnabled(setup.config.cleanBeforeStart, setup.props)
    then
      var deleted := DeleteDirectoryEffect(st.fs, setup.config.dataDirectory);
      (st.(fs := deleted.0), deleted.1)
    else (st, Pass)
  }

  /** How start() ends once the readiness loop has ended: an interrupt returns normally. */
  function Finish(setup: Setup, w: Waiting): (o: Outcome) {
    match w
    case Up => Pass
    case Interrupted => Pass
    case GaveUp(cause) => Fail(IOFailure(TimeoutMessage(setup), cause))
    case Aborted(e) => Fail(e)
  }

  /** What start() does after lock(): the `started` check, pg_ctl start, the readiness loop. */
  function LaunchSpec(st: ServerState, setup: Setup, run: StartRun): (out: (ServerState, Outcome)) {
    if st.started then (st, Fail(IllegalState("Postmaster already started")))
    else
      var command := PgCtlCommand(setup.platform, setup.postgresDirectory, setup.config.dataDirectory, "start", StartOptions(setup));
      var st1 := st.(started := true, commands := st.commands + [command]);
      match PgCtl(setup.platform, setup.postgresDirectory, setup.config.dataDirectory, "start", StartOptions(setup),
                  run.pgCtlExit, run.pgCtlStderr)
      case Err(e) => (st1, Fail(e))
      case Ok(_) => (st1, Finish(setup, Wait(run.attempts, None)))
  }

  /** start(connectionConfig): cleanup, lock(), then the launch. */
  function StartSpec(st: ServerState, setup: Setup, run: StartRun): (out: (ServerState, Outcome)) {
    var cleaned := CleanSpec(st, setup);
    if cleaned.1.Fail? then cleaned
    else
      var locked := LockSpec(cleaned.0, setup, run.peerHoldsLock);
      if locked.1.Fail? then locked else LaunchSpec(locked.0, setup, run)
  }

  /** The cleanup passes and the lock step succeeds: the lock file can be opened and is locked
      by nobody else. */
  predicate LockGranted(st: ServerState, setup: Setup, peerHoldsLock: bool) {
    CleanSpec(st, setup).1.Pass? && LockSpec(CleanSpec(st, setup).0, setup, peerHoldsLock).1.Pass?
  }

  /** Cleanup and lock() touch neither the start flags nor the commands run; a granted lock
      leaves the stream open and the lock acquired. */
  lemma LockedAfterCleanup(st: ServerState, setup: Setup, peerHoldsLock: bool)
    ensures var locked := LockSpec(CleanSpec(st, setup).0, setup, peerHoldsLock).0;
      locked.started == st.started && locked.closed == st.closed && locked.commands == st.commands
    ensures LockGranted(st, setup, peerHoldsLock) ==>
      var locked := LockSpec(CleanSpec(st, setup).0, setup, peerHoldsLock).0;
      locked.lockAcquired && locked.lockStream == Open
  {
  }

  /** A first start with the lock granted marks the server started, runs exactly one command,
      `pg_ctl start -D <data directory>` with `-o -p <port> -F [-c key=value]...` as its one
      options argument, and succeeds exactly when pg_ctl exits with 0 and the readiness loop
      does not end in a timeout or an IllegalStateException. */
  lemma StartLaunches(st: ServerState, setup: Setup, run: StartRun)
    requires !st.started && LockGranted(st, setup, run.peerHoldsLock)
    ensures var out := StartSpec(st, setup, run);
      && out.0.started && out.0.lockAcquired && out.0.lockStream == Open
      && |out.0.commands| == |st.commands| + 1 && out.0.commands[..|st.commands|] == st.commands
      && out.0.commands[|st.commands|] ==
           PgCtlCommand(setup.platform, setup.postgresDirectory, setup.config.dataDirectory, "start",
                        ["-o", "-p", IntToDecimal(setup.config.port), "-F"] + ConfigPairs(setup.config.postgresConfig))
      && (out.1.Pass? <==> run.pgCtlExit == 0 && (Wait(run.attempts, None).Up? || Wait(run.attempts, None).Interrupted?))
  {
    LockedAfterCleanup(st, setup, run.peerHoldsLock);
    var locked := LockSpec(CleanSpec(st, setup).0, setup, run.peerHoldsLock).0;
    assert StartSpec(st, setup, run) == LaunchSpec(locked, setup, run);
    LaunchRunsStart(locked, setup, run);
  }

  lemma LaunchRunsStart(st: ServerState, setup: Setup, run: StartRun)
    requires !st.started
    ensures var out := LaunchSpec(st, setup, run);
      && out.0.started && out.0.lockAcquired == st.lockAcquired && out.0.lockStream == st.lockStream
      && |out.0.commands| == |st.commands| + 1 && out.0.commands[..|st.commands|] == st.commands
      && out.0.commands[|st.commands|] ==
           PgCtlCommand(setup.platform, setup.postgresDirectory, setup.config.dataDirectory, "start",
                        ["-o", "-p", IntToDecimal(setup.config.port), "-F"] + ConfigPairs(setup.config.postgresConfig))
      && (out.1.Pass? <==> run.pgCtlExit == 0 && (Wait(run.attempts, None).Up? || Wait(run.attempts, None).Interrupted?))
  {
    var out := LaunchSpec(st, setup, run);
    assert out.0.commands[..|st.commands|] == st.commands;
    assert StartOptions(setup) ==
      ["-o", "-p", IntToDecimal(setup.config.port), "-F"] + ConfigPairs(setup.config.postgresConfig);
  }

  /** A start whose readiness loop times out fails with IOException, carrying as its cause the
      last SQLException seen (none if no attempt was made). */
  lemma StartTimeout(st: ServerState, setup: Setup, run: StartRun)
    requires !st.started && LockGranted(st, setup, run.peerHoldsLock) && run.pgCtlExit == 0
    requires forall j :: 0 <= j < |run.attempts| ==> Retried(run.attempts[j])
    ensures StartSpec(st, setup, run).1 ==
      Fail(IOFailure(TimeoutMessage(setup),
        if |run.attempts| == 0 then None else CauseOf(run.attempts[|run.attempts| - 1])))
  {
    WaitGivesUp(run.attempts, None);
  }

  /** A second start never succeeds and never launches a second postmaster: it fails at lock()
      (the first start's lock is still held by this JVM, or the lock file cannot be opened or
      locked), or else with "Postmaster already started". The cleanup and lock() have run again
      all the same. */
  lemma SecondStartFails(st: ServerState, setup: Setup, run: StartRun)
    requires st.started
    ensures StartSpec(st, setup, run).1.Fail?
    ensures StartSpec(st, setup, run).0.started && StartSpec(st, setup, run).0.commands == st.commands
    ensures LockGranted(st, setup, run.peerHoldsLock) ==>
      StartSpec(st, setup, run).1 == Fail(IllegalState("Postmaster already started"))
    ensures LockFile(setup) in st.fs.jvmLocks && !CleanupEnabled(setup.config.cleanBeforeStart, setup.props)
            && OpenForWrite(st.fs, LockFile(setup)).1.Pass? ==>
      StartSpec(st, setup, run).1 == Fail(OverlappingLock)
  {
    var cleaned := CleanSpec(st, setup);
    if cleaned.1.Pass? {
      var locked := LockSpec(cleaned.0, setup, run.peerHoldsLock);
      LockedAfterCleanup(st, setup, run.peerHoldsLock);
      if locked.1.Pass? {
        assert StartSpec(st, setup, run) == LaunchSpec(locked.0, setup, run);
      } else {
        assert StartSpec(st, setup, run) == locked;
      }
    }
  }

  /** With cleanup before start enabled, start never gets the lock and nothing is started.
      Normally the cleanup deletes the data directory, and lock() then cannot create the lock
      file inside it: start fails with an IOException. When a regular file stands at the data
      directory's path, the cleanup itself throws IllegalArgumentException, which is not
      caught, and the file stays. */
  lemma StartAfterCleanupCannotLock(st: ServerState, setup: Setup, run: StartRun)
    requires CleanupEnabled(setup.config.cleanBeforeStart, setup.props) && setup.config.dataDirectory != ""
    ensures StartSpec(st, setup, run).1.Fail?
    ensures PlainFile(st.fs, setup.config.dataDirectory) ==>
      StartSpec(st, setup, run) == (st, Fail(IllegalArgument(setup.config.dataDirectory + " is not a directory")))
    ensures !PlainFile(st.fs, setup.config.dataDirectory) ==>
      && StartSpec(st, setup, run).1.error.IOFailure?
      && StartSpec(st, setup, run).0 == st.(fs := DeleteTree(st.fs, setup.config.dataDirectory))
  {
    var dataDirectory := setup.config.dataDirectory;
    ChildOfSimple(dataDirectory, LockFileName);
    BaseOfFilePath(dataDirectory);
    var t := DeleteTree(st.fs, dataDirectory);
    assert Under(dataDirectory, dataDirectory);
    assert dataDirectory !in t.dirs;
  }

  /** close(). */
  function CloseSpec(st: ServerState, setup: Setup, stopExit: int, stopStderr: string): (out: (ServerState, Outcome)) {
    if st.closed then (st, Pass)  // "Server already stopped"
    else
      var dataDirectory := setup.config.dataDirectory;
      // the stop command runs; a failure is logged
      var command := PgCtlCommand(setup.platform, setup.postgresDirectory, dataDirectory, "stop", StopOptions);
      var st1 := st.(closed := true, commands := st.commands + [command]);
      var st2 := if st.lockAcquired then st1.(fs := st1.fs.(jvmLocks := st1.fs.jvmLocks - {LockFile(setup)})) else st1;
      if st.lockStream.Unopened? then (st2, Fail(NullPointer))  // lockStream.close() on null
      else
        var st3 := st2.(lockStream := Closed);
        if CleanupEnabled(setup.config.cleanAfterClose, setup.props)
        then
          // only an IOException is caught here
          var deleted := DeleteDirectoryEffect(st3.fs, dataDirectory);
          (st3.(fs := deleted.0), deleted.1)
        else (st3, Pass)
  }

  /** close() is idempotent: once it has run, whatever happened the first time, a second call
      changes nothing and returns normally. */
  lemma CloseIdempotent(st: ServerState, setup: Setup, stopExit: int, stopStderr: string, stopExit': int, stopStderr': string)
    ensures var first := CloseSpec(st, setup, stopExit, stopStderr);
      first.0.closed && CloseSpec(first.0, setup, stopExit', stopStderr') == (first.0, Pass)
  {
  }

  /** The first close() after a start attempt that opened the lock stream is best effort: whatever
      pg_ctl stop's exit status, the lock is released and the stream closed, and the data
      directory is deleted exactly under the cleanup rule. It returns normally unless that
      cleanup finds a regular file at the data directory's path: the IllegalArgumentException
      is not caught, and the file stays. */
  lemma CloseBestEffort(st: ServerState, setup: Setup, stopExit: int, stopStderr: string)
    requires !st.closed && !st.lockStream.Unopened?
    ensures var out := CloseSpec(st, setup, stopExit, stopStderr);
      && out.0.closed && out.0.lockStream == Closed
      && out.0.commands == st.commands +
           [PgCtlCommand(setup.platform, setup.postgresDirectory, setup.config.dataDirectory, "stop", StopOptions)]
      && (st.lockAcquired ==> LockFile(setup) !in out.0.fs.jvmLocks)
    ensures var out := CloseSpec(st, setup, stopExit, stopStderr);
      var rejected := CleanupEnabled(setup.config.cleanAfterClose, setup.props) && setup.config.dataDirectory != ""
                      && PlainFile(st.fs, setup.config.dataDirectory);
      && (out.1 == Pass <==> !rejected)
      && (rejected ==> out.1 == Fail(IllegalArgument(setup.config.dataDirectory + " is not a directory")))
      && (CleanupEnabled(setup.config.cleanAfterClose, setup.props) && !rejected ==>
            forall p :: Under(setup.config.dataDirectory, p) ==> !Exists(out.0.fs, p))
      && (!CleanupEnabled(setup.config.cleanAfterClose, setup.props) || rejected ==>
            out.0.fs.dirs == st.fs.dirs && out.0.fs.files == st.fs.files && out.0.fs.links == st.fs.links)
  {
  }

  /** close() before any start has opened the lock stream still marks the server closed and runs
      pg_ctl stop, then fails with NullPointerException without any cleanup. */
  lemma CloseBeforeStart(st: ServerState, setup: Setup, stopExit: int, stopStderr: string)
    requires !st.closed && st.lockStream.Unopened? && !st.lockAcquired
    ensures CloseSpec(st, setup, stopExit, stopStderr) ==
      (st.(closed := true, commands := st.commands +
         [PgCtlCommand(setup.platform, setup.postgresDirectory, setup.config.dataDirectory, "stop", StopOptions)]),
       Fail(NullPointer))
  {
  }

  /** Without the after-close cleanup, close() keeps the lock file: it only releases the lock.
      Only that cleanup, which deletes the whole data directory, removes the file. */
  lemma CloseKeepsLockFile(st: ServerState, setup: Setup, stopExit: int, stopStderr: string)
    requires !CleanupEnabled(setup.config.cleanAfterClose, setup.props)
    requires LockFile(setup) in st.fs.files
    ensures LockFile(setup) in CloseSpec(st, setup, stopExit, stopStderr).0.fs.files
  {
  }

  class Server {
    const setup: Setup
    const fs: FileSystem
    var started: bool
    var closed: bool
    var lockStream: LockStream
    var lockAcquired: bool
    var commands: seq<seq<string>>

    function State(): ServerState
      reads this, fs
    {
      ServerState(started, closed, lockStream, lockAcquired, commands, fs.State())
    }

    constructor (setup: Setup, fs: FileSystem)
      ensures this.setup == setup && this.fs == fs
      ensures State() == Initial(fs.State())
    {
      this.setup := setup;
      this.fs := fs;
      started, closed, lockStream, lockAcquired, commands := false, false, Unopened, false, [];
    }

    /** initDatabase(), when postgresql.conf is absent. */
    method InitializeIfNeeded(initExit: int, initStderr: string) returns (o: Outcome)
      modifies this
      ensures (State(), o) == InitSpec(old(State()), setup, initExit, initStderr)
    {
      var configured := fs.IsPresent(Child(setup.config.dataDirectory, ConfFileName));
      if configured {
        return Pass;
      }
      var options := InitDbBaseOptions;
      var localeOptions := CreateLocaleOptions(setup.platform, setup.config.localeConfig);
      options := options + localeOptions;
      commands := commands + [InitDbCommand(setup.platform, setup.postgresDirectory, setup.config.dataDirectory, options)];
      var ran := InitDb(setup.platform, setup.postgresDirectory, setup.config.dataDirectory, options, initExit, initStderr);
      o := if ran.Ok? then Pass else Fail(ran.error);
    }

    /** lock(). */
    method Lock(peerHoldsLock: bool) returns (o: Outcome)
      modifies this, fs
      ensures (State(), o) == LockSpec(old(State()), setup, peerHoldsLock)
    {
      var lockFile := LockFile(setup);
      o := fs.OpenOutputStream(lockFile);
      if o.Fail? {
        return;
      }
      lockStream := Open;
      var locked := fs.Lock(lockFile, peerHoldsLock);
      if locked.Err? {
        return Fail(locked.error);
      }
      lockAcquired := locked.value;
      if !lockAcquired {
        return Fail(IllegalState("could not lock " + lockFile));
      }
    }

    /** start(connectionConfig). */
    method Start(run: StartRun) returns (o: Outcome)
      modifies this, fs
      ensures (State(), o) == StartSpec(old(State()), setup, run)
    {
      if CleanupEnabled(setup.config.cleanBeforeStart, setup.props) {
        o := fs.DeleteDirectory(setup.config.dataDirectory);
        if o.Fail? {
          return;
        }
      }
      o := Lock(run.peerHoldsLock);
      if o.Fail? {
        return;
      }
      o := Launch(run);
    }

    /** The rest of start() once the lock is held. */
    method Launch(run: StartRun) returns (o: Outcome)
      modifies this
      ensures (State(), o) == LaunchSpec(old(State()), setup, run)
    {
      if started {
        return Fail(IllegalState("Postmaster already started"));
      }
      started := true;
      var initOptions := CreateInitOptions(setup.config.port, setup.config.postgresConfig);
      var options := ["-o"] + initOptions;
      var dataDirectory := setup.config.dataDirectory;
      commands := commands + [PgCtlCommand(setup.platform, setup.postgresDirectory, dataDirectory, "start", options)];
      var launched := PgCtl(setup.platform, setup.postgresDirectory, dataDirectory, "start", options, run.pgCtlExit, run.pgCtlStderr);
      if launched.Err? {
        return Fail(launched.error);
      }
      var waited := WaitForServerStartup(run.attempts);
      o := Finish(setup, waited);
    }

    /** close(). */
    method Close(stopExit: int, stopStderr: string) returns (o: Outcome)
      modifies this, fs
      ensures (State(), o) == CloseSpec(old(State()), setup, stopExit, stopStderr)
    {
      if closed {
        return Pass;
      }
      closed := true;
      var dataDirectory := setup.config.dataDirectory;
      commands := commands + [PgCtlCommand(setup.platform, setup.postgresDirectory, dataDirectory, "stop", StopOptions)];
      var stopped := PgCtl(setup.platform, setup.postgresDirectory, dataDirectory, "stop", StopOptions, stopExit, stopStderr);
      if lockAcquired {
        fs.Release(LockFile(setup));
      }
      if lockStream.Unopened? {
        return Fail(NullPointer);
      }
      lockStream := Closed;
      ghost var released := State();
      o := Pass;
      if CleanupEnabled(setup.config.cleanAfterClose, setup.props) {
        o := fs.DeleteDirectory(dataDirectory);
        assert (State(), o) == (released.(fs := DeleteDirectoryEffect(released.fs, dataDirectory).0),
                                DeleteDirectoryEffect(released.fs, dataDirectory).1);
      }
    }
  }

  /** new PostgresEmbeddedServer(builder): prepare the binaries through the process-wide cache,
      then create the server and initialize its data directory if needed. */
  method Build(cache: BinaryCache, fs: FileSystem, resolver: Resolver, overridden: Option<FilePath>, host: Host,
               md5Hex: seq<bv8> -> HexString, race: Race, config: ServerConfig, initExit: int, initStderr: string)
    returns (r: Result<Server>)
    modifies cache, fs
    ensures var prepared := PrepareEffect(old(cache.prepared), old(fs.State()), resolver, overridden, host, md5Hex, race);
      && cache.prepared == prepared.1
      && (prepared.0.Err? ==> r == Err(prepared.0.error) && fs.State() == prepared.2)
      && (prepared.0.Ok? ==>
            var setup := Setup(host.platform, host.props, prepared.0.value, config);
            var init := InitSpec(Initial(prepared.2), setup, initExit, initStderr);
            && fs.State() == prepared.2
            && (init.1.Fail? ==> r == Err(init.1.error))
            && (init.1.Pass? ==> r.Ok? && fresh(r.value) && r.value.fs == fs && r.value.setup == setup
                                  && r.value.State() == init.0))
  {
    var postgresDirectory := cache.Prepare(fs, resolver, overridden, host, md5Hex, race);
    if postgresDirectory.Err? {
      return Err(postgresDirectory.error);
    }
    var server := new Server(Setup(host.platform, host.props, postgresDirectory.value, config), fs);
    var initialized := server.InitializeIfNeeded(initExit, initStderr);
    if initialized.Fail? {
      return Err(initialized.error);
    }
    r := Ok(server);
  }
}
