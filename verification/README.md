# postgres-maven-plugin core, modelled in Dafny

The plugin provisions a throwaway PostgreSQL instance for a build. It does four things:

- It resolves the platform's engine archive. By default this is a resource bundled on the class path.
- It extracts the archive once into a content-addressed directory `PG-<md5 hex>` under a working directory. Concurrent processes coordinate through an unpack lock file and a `.exists` marker.
- It runs `initdb` when the data directory has no `postgresql.conf`.
- It starts the postmaster with `pg_ctl start`, waits until `SELECT 1` answers, and stops it again with `pg_ctl stop`.

This project models that decision logic and proves what it guarantees. It has one Dafny module per Java source.

| module | Java source | form |
|---|---|---|
| `Outcomes` | the exception classes the core throws | datatypes `Result`, `Outcome`, `Failure` |
| `Text` | `Collectors.joining`, `Integer.toString`, `List.toString` | functions and lemmas |
| `Disk` | `java.io.File` and `java.nio.file` calls on a filesystem snapshot | value functions, plus the class `FileSystem` whose methods update it in place |
| `FileSystemAware` | `traits/FileSystemAware.java` | function `GetWorkingDirectory`; `mkdirs` as the method `Mkdirs` with its effect `MkdirsEffect` |
| `OperatingSystemAware` | `traits/OperatingSystemAware.java` | pure functions; the two list builders as methods with loops |
| `PostgresController` | `postgres/PostgresController.java` | pure functions for the argument vectors and the exit-status rule |
| `Archives`, `BinaryResolver` | `postgres/PostgresBinaryResolver.java`, `postgres/BundledPostgresBinaryResolver.java` | datatypes and functions; Java `equals`/`hashCode` |
| `PostgresBinaryPreparer` | `postgres/PostgresBinaryPreparer.java` | class `BinaryCache` (the static map) and methods over `FileSystem`, each proved equal to a specification function |
| `PostgresEmbeddedServer` | `postgres/PostgresEmbeddedServer.java` | class `Server` (flags, lock fields, command trace) whose methods are proved equal to specification functions over `ServerState` |

Inputs that come from outside the JVM are parameters:

- **tryLock outcomes:** `Race.lockAcquired`, and `StartRun.peerHoldsLock` for a lock held by another process. A lock already held by this JVM is tracked in `FsState.jvmLocks`; retaking it gives `OverlappingFileLockException`.
- **Another process finishing an unpack:** `Race.firstSeen`, the index of the first `.exists` check that sees the marker.
- **Process exit statuses and stderr.**
- **The readiness probes:** `StartRun.attempts`, the attempts begun before the deadline.
- **The MD5 digest and its hex encoding:** a function parameter `md5Hex`. Its answers are lower-case hexadecimal strings, as `Hex.encodeHexString` writes them.
- **The class path:** a map from resource name to archive.
- **The system properties:** a map.
- **Configuration maps:** sequences of entries in iteration order.

The model follows the code where it departs from the intended design:

- When the lock file cannot be opened, the IOException escapes `unpack`, but its `finally` block still runs. `File.delete` then removes whatever is at the lock file's path, unless it is a directory that holds something (`UnpackLockFileUnopenable`).
- `unpack`, holding the lock, catches every exception from extraction. An unsupported entry therefore does not fail `prepare`. The directory is returned and cached without a `.exists` marker (`PrepareSwallowsExtractionFailure`).
- The pre-start cleanup deletes the data directory and does not recreate it. `lock()` then cannot create `epg-lock` inside it, so `start` fails with an IOException whenever that cleanup runs (`StartAfterCleanupCannotLock`).
- Both cleanups catch only IOException. When a regular file stands at the data directory's path, `FileUtils.deleteDirectory` throws IllegalArgumentException and deletes nothing. That exception escapes: `start` fails before `lock()`, and `close` fails after releasing the lock and closing the stream. The file stays in both cases (`StartAfterCleanupCannotLock`, `CloseBestEffort`).
- A repeated `start` re-runs the cleanup and `lock()` before it checks `started`. If the first start's lock is still held by this JVM, the error is `OverlappingFileLockException`, not "Postmaster already started". Either way it never launches a second postmaster (`SecondStartFails`).
- `close` releases the lock and closes the lock stream but does not delete `epg-lock` itself. Only the after-close cleanup, which deletes the whole data directory, removes it (`CloseKeepsLockFile`, `CloseBestEffort`).
- `close` before any `start` reaches `lockStream.close()` on null. It fails with `NullPointerException` after marking the server closed and running `pg_ctl stop` (`CloseBeforeStart`).
- The constructor's `cleanDataDirectory` is an empty method, so construction never cleans anything.
- `start` never checks `closed`, only `started`, and `close` does not reset `started`. A server closed before it was ever started can therefore still be started, and `start` launches a postmaster for it (`LaunchSpec`).

## Model

| member | source | states |
|---|---|---|
| Text.DecimalRoundTrip | src/main/java/fr/avereyl/tools/traits/OperatingSystemAware.java:99 | `Integer.toString(port)` is lossless: the decimal text reads back as the same integer, negative ports included |
| Disk.NormalizeFacts | src/main/java/fr/avereyl/tools/traits/FileSystemAware.java:29-30 | the normal form `java.io.File` keeps: no repeated separator and no trailing one except the root; empty only for the empty string; a path already normal is unchanged |
| Disk.ChildOfSimple | src/main/java/fr/avereyl/tools/postgres/PostgresBinaryPreparer.java:100 | `new File(parent, name)` for a one-component name is the parent's normal form (the root for an empty parent), one separator (none after the root), then the name; the result is normal and its parent is that directory |
| Disk.ChildInjective | src/main/java/fr/avereyl/tools/postgres/PostgresBinaryPreparer.java:104-105 | two one-component names under one parent give the same path exactly when the names are equal |
| Disk.Parent | src/main/java/fr/avereyl/tools/postgres/PostgresBinaryPreparer.java:193 | `getParentFile()` is null exactly for a name without a separator or for the root; otherwise it is a strict prefix of the path |
| Disk.OpenForWrite | src/main/java/fr/avereyl/tools/postgres/PostgresEmbeddedServer.java:298 | `new FileOutputStream(p)` succeeds exactly when p is not a directory or link and its parent directory exists; it then leaves an empty file at p; failure is an IOException and changes nothing |
| Disk.TryLock | src/main/java/fr/avereyl/tools/postgres/PostgresEmbeddedServer.java:299 | `tryLock()` throws OverlappingFileLockException exactly when this JVM already holds the lock, answers null when another process holds it, and otherwise takes it |
| Disk.DeleteFile | src/main/java/fr/avereyl/tools/postgres/PostgresBinaryPreparer.java:159 | `File.delete()` removes a file, a link or an empty directory at the path; a directory that still holds something stays, with its executable bit; nothing at any other path appears or disappears |
| Disk.DeleteTree | src/main/java/fr/avereyl/tools/postgres/PostgresEmbeddedServer.java:148 | the removal step of `FileUtils.deleteDirectory` on a root that is not a regular file: the root and everything below it go and nothing else does; the empty path names no existing file, so nothing is deleted |
| Disk.DeleteDirectoryEffect | src/main/java/fr/avereyl/tools/postgres/PostgresEmbeddedServer.java:148 | `FileUtils.deleteDirectory` fails exactly when a regular file is at the root: it throws IllegalArgumentException("<root> is not a directory") and changes nothing; otherwise nothing under the root exists afterwards; either way nothing outside the root appears or disappears |
| Disk.FileSystem.IsPresent | src/main/java/fr/avereyl/tools/postgres/PostgresBinaryPreparer.java:107 | `File.exists()` answers whether anything is at the path |
| Disk.FileSystem.OpenOutputStream | src/main/java/fr/avereyl/tools/postgres/PostgresBinaryPreparer.java:128 | opening the lock file updates the filesystem as `OpenForWrite` says |
| Disk.FileSystem.CreateNew | src/main/java/fr/avereyl/tools/postgres/PostgresBinaryPreparer.java:141 | `createNewFile()` creates an empty file and answers true exactly when nothing was at the path |
| Disk.FileSystem.Delete | src/main/java/fr/avereyl/tools/postgres/PostgresBinaryPreparer.java:159 | `delete()` updates the filesystem as `DeleteFile` says |
| Disk.FileSystem.DeleteDirectory | src/main/java/fr/avereyl/tools/postgres/PostgresEmbeddedServer.java:338 | the new state and the outcome are `DeleteDirectoryEffect` of the old state |
| Disk.FileSystem.Symlink | src/main/java/fr/avereyl/tools/postgres/PostgresBinaryPreparer.java:184-186 | `Files.createSymbolicLink` adds the link exactly when nothing is at the path, and fails with an IOException otherwise |
| Disk.FileSystem.Write | src/main/java/fr/avereyl/tools/postgres/PostgresBinaryPreparer.java:195-196 | opening with `CREATE_NEW` and writing stores the bytes exactly when nothing is at the path, and fails with an IOException otherwise |
| Disk.FileSystem.MakeExecutable | src/main/java/fr/avereyl/tools/postgres/PostgresBinaryPreparer.java:232 | `setExecutable(true)` marks the path and answers true exactly when something is there |
| Disk.FileSystem.Lock | src/main/java/fr/avereyl/tools/postgres/PostgresEmbeddedServer.java:299 | the new lock table and the answer are those of `TryLock` |
| Disk.FileSystem.Release | src/main/java/fr/avereyl/tools/postgres/PostgresEmbeddedServer.java:327 | `release()` drops this JVM's lock on the path and changes nothing else |
| FileSystemAware.GetWorkingDirectory | src/main/java/fr/avereyl/tools/traits/FileSystemAware.java:28-31 | `pmp.working-dir` in normal form when set; otherwise `embedded-pg` joined to the normal form of `java.io.tmpdir`, and its parent is that directory; a relative `embedded-pg` when both properties are unset |
| FileSystemAware.WorkingDirectorySeesNormalForm | src/main/java/fr/avereyl/tools/traits/FileSystemAware.java:28-31 | two property maps whose properties have the same normal forms give the same working directory |
| FileSystemAware.WorkingDirectoryIgnoresTrailingSeparator | src/main/java/fr/avereyl/tools/traits/FileSystemAware.java:29-30 | a temporary directory written with a trailing separator (`/tmp/`) gives the same working directory as without it (`/tmp/embedded-pg`) |
| FileSystemAware.MkdirsEffect | src/main/java/fr/avereyl/tools/traits/FileSystemAware.java:39-43 | mkdirs succeeds exactly when the path is already a directory, or nothing is there and no regular file or link lies between it and its nearest existing ancestor directory; it then leaves a directory there; otherwise it throws IllegalStateException("Could not create <dir>") and changes nothing |
| FileSystemAware.MkdirsBelowFileFails | src/main/java/fr/avereyl/tools/traits/FileSystemAware.java:39-43 | mkdirs of a path whose parent is a regular file throws IllegalStateException("Could not create <dir>"), and so does mkdirs of any child of that path |
| FileSystemAware.MkdirsIdempotent | src/main/java/fr/avereyl/tools/traits/FileSystemAware.java:39-43 | after a successful mkdirs, a second call succeeds and changes nothing |
| FileSystemAware.MkdirsFailureStable | src/main/java/fr/avereyl/tools/traits/FileSystemAware.java:40-42 | a failed mkdirs leaves the state alone, so it fails again in the same way |
| FileSystemAware.Mkdirs | src/main/java/fr/avereyl/tools/traits/FileSystemAware.java:39-43 | the in-place mkdirs has exactly the effect and outcome of `MkdirsEffect` |
| OperatingSystemAware.GetOS | src/main/java/fr/avereyl/tools/traits/OperatingSystemAware.java:43-54 | Windows is tested first, then Darwin, then Linux; each answer holds iff its flag is the first one set; with no flag set it throws UnsupportedOperationException("Unknown OS <name>") |
| OperatingSystemAware.GetArchitecture | src/main/java/fr/avereyl/tools/traits/OperatingSystemAware.java:69-71 | `amd64` becomes `x86_64`, every other name is unchanged, and the answer is never `amd64` |
| OperatingSystemAware.GetArchitectureIdempotent | src/main/java/fr/avereyl/tools/traits/OperatingSystemAware.java:69-71 | renaming an already renamed architecture changes nothing |
| OperatingSystemAware.LocaleOptionsShape | src/main/java/fr/avereyl/tools/traits/OperatingSystemAware.java:78-89 | n `--key=value` tokens on Windows, or 2n tokens `--key`, `value` elsewhere, entry j at position j or 2j |
| OperatingSystemAware.LocaleOptionsAppend | src/main/java/fr/avereyl/tools/traits/OperatingSystemAware.java:79-88 | the options are built entry by entry: those of a concatenation are the concatenation of the options, and an empty map gives none |
| OperatingSystemAware.CreateLocaleOptions | src/main/java/fr/avereyl/tools/traits/OperatingSystemAware.java:78-89 | the list the loop builds is `LocaleOptions` of the entries |
| OperatingSystemAware.ConfigPairsShape | src/main/java/fr/avereyl/tools/traits/OperatingSystemAware.java:101-104 | the setting pairs are 2n tokens, `-c` then `key=value` for entry j at positions 2j and 2j+1 |
| OperatingSystemAware.InitOptionsShape | src/main/java/fr/avereyl/tools/traits/OperatingSystemAware.java:97-106 | 3 + 2n tokens: `-p`, the decimal port (which parses back to the port), `-F`, then `-c`, `key=value` per entry in order |
| OperatingSystemAware.CreateInitOptions | src/main/java/fr/avereyl/tools/traits/OperatingSystemAware.java:97-106 | the list the loop builds is `InitOptions(port, entries)` |
| OperatingSystemAware.GetBinaryPathLocation | src/main/java/fr/avereyl/tools/traits/OperatingSystemAware.java:108-111 | for a one-component name: the directory's normal form, `bin/`, the name, then `.exe` exactly on Windows; the path lies in the directory's `bin` subdirectory |
| OperatingSystemAware.GetBinaryPathInjective | src/main/java/fr/avereyl/tools/traits/OperatingSystemAware.java:108-111 | two one-component binary names in one directory never share a path |
| OperatingSystemAware.SystemOutcome | src/main/java/fr/avereyl/tools/traits/OperatingSystemAware.java:130-133 | a command succeeds iff it exits with 0; otherwise IllegalStateException whose message contains the command list |
| PostgresController.PgBin | src/main/java/fr/avereyl/tools/postgres/PostgresController.java:74-77 | the controller's binary path is the same as `getBinaryPath` |
| PostgresController.PgCtlCommand | src/main/java/fr/avereyl/tools/postgres/PostgresController.java:43-48 | exactly five arguments: pg_ctl's path, the action, `-D`, the data directory, and the options joined by single spaces |
| PostgresController.InitDbCommand | src/main/java/fr/avereyl/tools/postgres/PostgresController.java:59-63 | exactly four arguments: initdb's path, the joined options, `-D`, the data directory; the options come before `-D` |
| PostgresController.EmptyOptionsStillPassed | src/main/java/fr/avereyl/tools/postgres/PostgresController.java:45 | an empty option list still contributes one empty-string argument to both commands |
| PostgresController.OptionsRecoverable | src/main/java/fr/avereyl/tools/postgres/PostgresController.java:45 | when no option contains a space, splitting the joined argument at spaces gives the options back |
| PostgresController.PgCtl | src/main/java/fr/avereyl/tools/postgres/PostgresController.java:96-99 | pgCtl returns iff the exit status is 0, and then with the five-argument command; otherwise IllegalStateException naming the command |
| PostgresController.InitDb | src/main/java/fr/avereyl/tools/postgres/PostgresController.java:96-99 | the same exit-status rule for the four-argument initdb command |
| BinaryResolver.ResourceName | src/main/java/fr/avereyl/tools/postgres/BundledPostgresBinaryResolver.java:14 | the resource is `/postgresql-<system>-<hw>.txz`: that prefix and suffix around the two names |
| BinaryResolver.ResourceNameInjective | src/main/java/fr/avereyl/tools/postgres/BundledPostgresBinaryResolver.java:14 | platforms whose system name has no dash ask for different resources |
| BinaryResolver.GetPostgresBinary | src/main/java/fr/avereyl/tools/postgres/BundledPostgresBinaryResolver.java:13-15 | the bundled resolver answers the class-path resource of that name, null when it is missing, and never an IOException |
| BinaryResolver.BundledEquals | src/main/java/fr/avereyl/tools/postgres/BundledPostgresBinaryResolver.java:18-23 | true for the object itself, false for null, and otherwise true exactly for objects of the same runtime class |
| BinaryResolver.BundledResolversAllEqual | src/main/java/fr/avereyl/tools/postgres/BundledPostgresBinaryResolver.java:17-28 | any two bundled resolvers are equal and hash alike; none equals an object of another class |
| BinaryResolver.BundledEqualsIsEquivalence | src/main/java/fr/avereyl/tools/postgres/BundledPostgresBinaryResolver.java:18-28 | equals is reflexive, symmetric and transitive, and equal objects have equal hash codes |
| BinaryResolver.CacheKeyMatchesEquals | src/main/java/fr/avereyl/tools/postgres/BundledPostgresBinaryResolver.java:17-28 | two resolvers share a cache entry iff Java calls them equal: all bundled resolvers share one entry |
| PostgresBinaryPreparer.ExtractionDirectory | src/main/java/fr/avereyl/tools/postgres/PostgresBinaryPreparer.java:97-100 | the extraction directory is the working directory's normal form, one separator (none after the root), then `PG-<hex digest>`; its parent is the working directory |
| PostgresBinaryPreparer.ExtractionDirectoryContentAddressed | src/main/java/fr/avereyl/tools/postgres/PostgresBinaryPreparer.java:97-100 | under one working directory, `PG-<digest>` directories are equal iff the digests are equal |
| PostgresBinaryPreparer.Dispatch | src/main/java/fr/avereyl/tools/postgres/PostgresBinaryPreparer.java:224-229 | an entry of an unsupported kind throws UnsupportedOperationException("Unsupported entry found: <name>") and changes nothing |
| PostgresBinaryPreparer.DispatchFacts | src/main/java/fr/avereyl/tools/postgres/PostgresBinaryPreparer.java:184-229 | each branch only adds to the filesystem and sets no executable bit; on success the entry is at its path; a link fails exactly when something is already there; an unreadable file throws IllegalStateException("could not read <name>") before anything changes; a directory entry is mkdirs |
| PostgresBinaryPreparer.ExtractEntryFacts | src/main/java/fr/avereyl/tools/postgres/PostgresBinaryPreparer.java:184-236 | one entry only adds to the filesystem; on success a link, a file with its bytes, or a directory is at its path; only a `bin/` or `./bin/` entry becomes executable |
| PostgresBinaryPreparer.ExtractGrows | src/main/java/fr/avereyl/tools/postgres/PostgresBinaryPreparer.java:180-237 | extraction, wherever it stops, removes and rewrites nothing, and makes executable only the paths of `bin/` entries |
| PostgresBinaryPreparer.ExtractPlacesAll | src/main/java/fr/avereyl/tools/postgres/PostgresBinaryPreparer.java:180-237 | after a successful extraction every entry is in place, and every `bin/` entry is executable |
| PostgresBinaryPreparer.ExtractAvoidsFile | src/main/java/fr/avereyl/tools/postgres/PostgresBinaryPreparer.java:180-237 | a successful extraction places no entry at the path of a regular file already there, such as the open lock file |
| PostgresBinaryPreparer.ExtractRejectsUnsupported | src/main/java/fr/avereyl/tools/postgres/PostgresBinaryPreparer.java:224-229 | an archive containing an unsupported entry never extracts successfully |
| PostgresBinaryPreparer.ExtractOne | src/main/java/fr/avereyl/tools/postgres/PostgresBinaryPreparer.java:181-236 | one loop iteration, in place, has the effect and outcome of `ExtractEntry` |
| PostgresBinaryPreparer.ExtractTxz | src/main/java/fr/avereyl/tools/postgres/PostgresBinaryPreparer.java:174-241 | the entry loop, in place, has the effect and outcome of `Extract` over the entries in stream order |
| PostgresBinaryPreparer.AwaitMarker | src/main/java/fr/avereyl/tools/postgres/PostgresBinaryPreparer.java:149-156 | the marker is found iff it is there by the last check; at most 59 sleeps; exactly as many as checks before it appears, capped at 59 |
| PostgresBinaryPreparer.LockedUnpack | src/main/java/fr/avereyl/tools/postgres/PostgresBinaryPreparer.java:132-146 | the lock holder's try block never lets an exception escape |
| PostgresBinaryPreparer.AwaitUnpack | src/main/java/fr/avereyl/tools/postgres/PostgresBinaryPreparer.java:147-156 | the waiting branch succeeds exactly when the marker is seen by the last check, and the marker is then present; otherwise IllegalStateException("Waited 60 seconds ...") with nothing changed |
| PostgresBinaryPreparer.UnpackPaths | src/main/java/fr/avereyl/tools/postgres/PostgresBinaryPreparer.java:104-105 | the lock file and the marker are two different entries directly inside the extraction directory, neither of them the directory itself |
| PostgresBinaryPreparer.UnpackWithLock | src/main/java/fr/avereyl/tools/postgres/PostgresBinaryPreparer.java:128-162 | holding the lock, unpack never fails once the lock file is open; if extraction succeeds where no marker was, the marker exists afterwards and every entry is in place, with every `bin/` entry executable; the lock file is always removed |
| PostgresBinaryPreparer.UnpackSkipsWhenMarked | src/main/java/fr/avereyl/tools/postgres/PostgresBinaryPreparer.java:133-135 | holding the lock with the marker present, nothing is extracted; only the lock file is created and removed |
| PostgresBinaryPreparer.UnpackWithoutLock | src/main/java/fr/avereyl/tools/postgres/PostgresBinaryPreparer.java:147-157 | without the lock, unpack succeeds iff the marker appears by the last check, and then it is present; otherwise IllegalStateException |
| PostgresBinaryPreparer.UnpackSwallowsExtractionFailure | src/main/java/fr/avereyl/tools/postgres/PostgresBinaryPreparer.java:130-146 | holding the lock, an archive with an unsupported entry fails to extract, yet unpack passes, leaving the partial extraction without the lock file |
| PostgresBinaryPreparer.UnpackKeepsDirectories | src/main/java/fr/avereyl/tools/postgres/PostgresBinaryPreparer.java:126-163 | unpack removes no directory except possibly one at the lock file's path |
| PostgresBinaryPreparer.UnpackLockFileUnopenable | src/main/java/fr/avereyl/tools/postgres/PostgresBinaryPreparer.java:128-162 | when the lock file cannot be opened, unpack throws an IOException; the finally block has still deleted whatever was at the lock file's path unless it is a directory that holds something; nothing else appears or disappears |
| PostgresBinaryPreparer.Unpack | src/main/java/fr/avereyl/tools/postgres/PostgresBinaryPreparer.java:126-163 | the in-place unpack has the effect and outcome of `UnpackEffect`, including the finally block's cleanup after a failed open |
| PostgresBinaryPreparer.Install | src/main/java/fr/avereyl/tools/postgres/PostgresBinaryPreparer.java:103-115 | the failure that mkdirs-then-unpack hands to prepare is never a bare IOException: unpack's IOException is wrapped as ExceptionInInitializerError |
| PostgresBinaryPreparer.PrepareCachedFastPath | src/main/java/fr/avereyl/tools/postgres/PostgresBinaryPreparer.java:72-74 | a resolver already in the cache gets its recorded directory; the cache and the filesystem are unchanged |
| PostgresBinaryPreparer.PrepareIdempotent | src/main/java/fr/avereyl/tools/postgres/PostgresBinaryPreparer.java:117-119 | after a successful prepare the cache sends the resolver to the returned directory, and any equal resolver gets the identical answer with nothing changed; a failed prepare leaves the cache as it was |
| PostgresBinaryPreparer.PrepareRecords | src/main/java/fr/avereyl/tools/postgres/PostgresBinaryPreparer.java:117 | a successful prepare records exactly its answer for the resolver's cache key; a failed one leaves the cache as it was |
| PostgresBinaryPreparer.PrepareWithoutBinary | src/main/java/fr/avereyl/tools/postgres/PostgresBinaryPreparer.java:86-88 | a null stream fails with IllegalStateException("No POSTGRES binary found for <os> / <arch>"); the cache and the filesystem are unchanged |
| PostgresBinaryPreparer.PrepareContentAddressed | src/main/java/fr/avereyl/tools/postgres/PostgresBinaryPreparer.java:97-103 | a fresh successful prepare returns `<workingDir>/PG-<hex digest of the archive>`, where workingDir is the override or `getWorkingDirectory()`, and that directory exists |
| PostgresBinaryPreparer.PrepareSkipsUnpackWhenMarked | src/main/java/fr/avereyl/tools/postgres/PostgresBinaryPreparer.java:105-109 | when the directory already holds `.exists`, prepare succeeds and records the directory without touching the filesystem |
| PostgresBinaryPreparer.PrepareSwallowsExtractionFailure | src/main/java/fr/avereyl/tools/postgres/PostgresBinaryPreparer.java:130-146 | with the lock held and an unsupported entry in the archive, extraction fails, yet prepare returns and caches the directory; the filesystem is the partial extraction without the lock file, so no marker was made |
| PostgresBinaryPreparer.BinaryCache.constructor | src/main/java/fr/avereyl/tools/postgres/PostgresBinaryPreparer.java:66 | the cache starts empty |
| PostgresBinaryPreparer.BinaryCache.Prepare | src/main/java/fr/avereyl/tools/postgres/PostgresBinaryPreparer.java:68-124 | answer, new cache and new filesystem are those of `PrepareEffect` |
| PostgresEmbeddedServer.VerifyReady | src/main/java/fr/avereyl/tools/postgres/PostgresEmbeddedServer.java:213-234 | ready iff the query returns exactly one row whose value is 1; connect and query failures are SQLExceptions ("connect failed" or the query's message); any other result is an IllegalStateException |
| PostgresEmbeddedServer.VerifyReadyMessages | src/main/java/fr/avereyl/tools/postgres/PostgresEmbeddedServer.java:224-232 | the rejection reads "expecting 1" iff there is a first row whose value is not 1, and "expecting single row" otherwise |
| PostgresEmbeddedServer.WaitUp | src/main/java/fr/avereyl/tools/postgres/PostgresEmbeddedServer.java:188-211 | the loop reports the server up iff some attempt finds it ready after every earlier attempt failed with an SQLException and slept its full interval |
| PostgresEmbeddedServer.WaitGivesUp | src/main/java/fr/avereyl/tools/postgres/PostgresEmbeddedServer.java:197-210 | the loop times out iff every attempt was retried, and its cause is then the last attempt's SQLException |
| PostgresEmbeddedServer.WaitStopsAtRejected | src/main/java/fr/avereyl/tools/postgres/PostgresEmbeddedServer.java:192-200 | an IllegalStateException from verifyReady ends the loop with that error; later attempts are never looked at |
| PostgresEmbeddedServer.WaitForServerStartup | src/main/java/fr/avereyl/tools/postgres/PostgresEmbeddedServer.java:188-211 | the loop, keeping `lastCause`, ends as `Wait` says: up, interrupted, timed out with the last cause, or aborted |
| PostgresEmbeddedServer.InitOnlyWhenConfAbsent | src/main/java/fr/avereyl/tools/postgres/PostgresEmbeddedServer.java:116-119 | initdb runs iff postgresql.conf is absent, as one command whose options are `-A trust -U postgres -E UTF-8` then the locale options, before `-D <data dir>`; the outcome follows its exit status |
| PostgresEmbeddedServer.StartLaunches | src/main/java/fr/avereyl/tools/postgres/PostgresEmbeddedServer.java:157-170 | a first start with the lock granted marks the server started, holds the lock, and runs exactly `pg_ctl start -D <dir>` with options `-o -p <port> -F [-c k=v]...`; it succeeds iff pg_ctl exits with 0 and the loop ends up or interrupted |
| PostgresEmbeddedServer.StartTimeout | src/main/java/fr/avereyl/tools/postgres/PostgresEmbeddedServer.java:209-210 | a timeout fails start with IOException("Gave up waiting for server to start after <ms>ms") caused by the last SQLException |
| PostgresEmbeddedServer.SecondStartFails | src/main/java/fr/avereyl/tools/postgres/PostgresEmbeddedServer.java:146-164 | a repeated start always fails and runs no command; with the lock granted the error is "Postmaster already started"; with this JVM's lock still held it is OverlappingFileLockException |
| PostgresEmbeddedServer.StartAfterCleanupCannotLock | src/main/java/fr/avereyl/tools/postgres/PostgresEmbeddedServer.java:146-157 | when the pre-start cleanup runs, start always fails and starts nothing: a regular file at the data directory's path gives IllegalArgumentException with the state unchanged; otherwise the data directory is deleted and lock() fails with an IOException |
| PostgresEmbeddedServer.CloseIdempotent | src/main/java/fr/avereyl/tools/postgres/PostgresEmbeddedServer.java:312-315 | after any first close, a second close changes nothing and returns normally |
| PostgresEmbeddedServer.CloseBestEffort | src/main/java/fr/avereyl/tools/postgres/PostgresEmbeddedServer.java:318-344 | whatever pg_ctl stop's exit status, the first close runs `pg_ctl stop -m fast -t 5 -w`, releases a held lock and closes the stream; it returns normally exactly unless the after-close cleanup meets a regular file at the data directory's path, which gives IllegalArgumentException and deletes nothing; otherwise the data directory is deleted exactly under the cleanup rule |
| PostgresEmbeddedServer.CloseBeforeStart | src/main/java/fr/avereyl/tools/postgres/PostgresEmbeddedServer.java:318-333 | close before a lock stream exists marks the server closed, runs pg_ctl stop, then fails with NullPointerException without cleanup |
| PostgresEmbeddedServer.CloseKeepsLockFile | src/main/java/fr/avereyl/tools/postgres/PostgresEmbeddedServer.java:326-333 | without the after-close cleanup, close keeps the lock file; only that cleanup removes it |
| PostgresEmbeddedServer.Server.constructor | src/main/java/fr/avereyl/tools/postgres/PostgresEmbeddedServer.java:80-92 | a new server is not started, not closed, has no lock stream or lock, and has run no command |
| PostgresEmbeddedServer.Server.InitializeIfNeeded | src/main/java/fr/avereyl/tools/postgres/PostgresEmbeddedServer.java:274-282 | building the initdb options with the locale loop has the effect and outcome of `InitSpec` |
| PostgresEmbeddedServer.Server.Lock | src/main/java/fr/avereyl/tools/postgres/PostgresEmbeddedServer.java:297-302 | lock() in place follows `LockSpec`: open the stream, then tryLock; null gives IllegalStateException("could not lock <file>") |
| PostgresEmbeddedServer.Server.Start | src/main/java/fr/avereyl/tools/postgres/PostgresEmbeddedServer.java:144-186 | start in place follows `StartSpec`: cleanup, lock(), the started check, pg_ctl start, the readiness loop |
| PostgresEmbeddedServer.Server.Launch | src/main/java/fr/avereyl/tools/postgres/PostgresEmbeddedServer.java:162-184 | the part of start after lock() follows `LaunchSpec` |
| PostgresEmbeddedServer.Server.Close | src/main/java/fr/avereyl/tools/postgres/PostgresEmbeddedServer.java:309-345 | close in place follows `CloseSpec` |
| PostgresEmbeddedServer.Build | src/main/java/fr/avereyl/tools/postgres/PostgresEmbeddedServer.java:94-121 | construction is prepare through the shared cache, then initdb if needed; it fails with the first error; on success the server is fresh, uses the prepared directory, and is in the state `InitSpec` gives |

## Left out

- Process spawning, the stream-draining threads (`StreamGobbler`, `ProcessOutputLogger`) and logging: these are I/O and concurrency. Only the exit-status rule is kept, with the exit status and stderr as inputs. The `RuntimeException` wrapping of a failed process launch is not modelled.
- XZ and tar decoding: an archive is its bytes plus its decoded entries. MD5 and hex encoding: an abstract function `md5Hex`. `IOUtils.copy` failures and `NoSuchAlgorithmException` are not modelled.
- Asynchronous file writes and the `Phaser` join: writes are taken as completed when issued, so a failed asynchronous write is not modelled.
- The `ReentrantLock` around `prepare`: each `prepare` is one atomic step.
- Sockets, JDBC and the `DataSource` builders (`getJdbcUrl`, `getDatabase`, `getPostgresDatabase`), and `detectPort`: these are network I/O. Only the row check of `verifyReady` is modelled, over an observed probe outcome.
- `System.nanoTime`, the startup deadline and `Thread.sleep`: the readiness loop takes the attempts begun before the deadline as input, each with whether its sleep is interrupted. The unpack wait counts checks, not seconds.
- An interrupt during the unpack wait, which `prepare` turns into `ExceptionInInitializerError`: not modelled.
- The shutdown hook registered by `start`, and `StopWatch` timing: not modelled.
- The Maven mojos: these are parameter binding only.
- The `Builder`: it has no operation that sets a field, so a built server has a null data directory, port 0 and a null startup wait. The model takes a `ServerConfig` instead.
- The mismatch between `start(Map)` and the interface's `start()`: not modelled.
- What `initdb` and the postmaster do to the data directory: these are external programs. The model records their command lines in `ServerState.commands`.
- Filesystem approximations:
  - Paths are strings in `java.io.File`'s Unix normal form: repeated separators collapsed, a trailing one dropped, and an empty parent read as the root. `.` and `..` are not resolved, and relative paths are not made absolute.
  - `mkdirs` records the directory but not the missing ancestors it creates on the way; it does fail when a regular file or link stands among those ancestors.
  - Symbolic links are never followed.
  - Only `FileOutputStream` checks that the parent directory exists.
  - File locks are keyed by path rather than by file identity.
- Disk.DeleteDirectoryEffect: the text of the IllegalArgumentException differs between commons-io versions. The model uses "<root> is not a directory". A failure to delete, which commons-io reports as an IOException that the cleanups log, is not modelled.
- The other process in the unpack wait is described by the first check at which its marker is visible, not by wall-clock time.
- PostgresBinaryPreparer.AwaitUnpack: the other process's extraction is modelled only as its `.exists` marker appearing. The files it extracts are not added to the filesystem.
- OperatingSystemAware.GetBinaryPathLocation: states the layout only for one-component names, as the core uses it with `pg_ctl` and `initdb`. Other names are still resolved by `Child` as `java.io.File` does.
- OperatingSystemAware.GetBinaryPathInjective: holds only for binary names that are one path component. `java.io.File` normalisation makes names such as `x/` and `x` resolve to the same path.
