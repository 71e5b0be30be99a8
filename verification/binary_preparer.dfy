/** Preparing the engine binaries: a process-wide cache from resolver to extraction
    directory, a content-addressed extraction directory, and the cross-process unpack
    protocol (hold the unpack lock and extract, or wait for the `.exists` marker). */
module PostgresBinaryPreparer {
  import opened Outcomes
  import opened Text
  import opened Disk
  import opened FileSystemAware
  import opened OperatingSystemAware
  import opened Archives
  import opened BinaryResolver

  const LockFileName := "epg-lock"
  const MarkerName := ".exists"
  /** The initial value of the countdown in the waiting loop. */
  const MaxAttempts := 60

  // ---------------------------------------------------------------- directory naming

  /** A lower-case hexadecimal digit, as Hex.encodeHexString writes them. */
  predicate IsHexDigit(c: char) {
    '0' <= c <= '9' || 'a' <= c <= 'f'
  }

  /** A digest written in hexadecimal. */
  type HexString = s: string | forall i :: 0 <= i < |s| ==> IsHexDigit(s[i])

  /** `PG-<digest>` is a single path component. */
  lemma DirectoryNameSimple(digestHex: HexString)
    ensures SimpleName("PG-" + digestHex)
  {
    var name := "PG-" + digestHex;
    forall i | 0 <= i < |name|
      ensures name[i] != '/'
    {
      if i >= 3 {
        assert name[i] == digestHex[i - 3];
      }
    }
  }

  /** The extraction directory: `PG-<hex digest>` resolved against the working directory. */
  function ExtractionDirectory(workingDirectory: Path, digestHex: HexString): (dir: FilePath)
    ensures dir == Base(workingDirectory) + Joint(Base(workingDirectory)) + ("PG-" + digestHex)
    ensures Parent(dir) == Some(Base(workingDirectory))
  {
    DirectoryNameSimple(digestHex);
    ChildOfSimple(workingDirectory, "PG-" + digestHex);
    Child(workingDirectory, "PG-" + digestHex)
  }

  /** Content addressing: equal digests give one directory, distinct digests distinct ones. */
  lemma ExtractionDirectoryContentAddressed(workingDirectory: Path, d1: HexString, d2: HexString)
    ensures ExtractionDirectory(workingDirectory, d1) == ExtractionDirectory(workingDirectory, d2) <==> d1 == d2
  {
    DirectoryNameSimple(d1);
    DirectoryNameSimple(d2);
    ChildInjective(workingDirectory, "PG-" + d1, "PG-" + d2);
    assert ("PG-" + d1)[3..] == d1 && ("PG-" + d2)[3..] == d2;
  }

  // ---------------------------------------------------------------- extractTxz

  /** The path an entry is extracted to: `targetDir + "/" + name`, in java.io.File's normal form. */
  function EntryPath(targetDir: Path, name: string): Path {
    Normalize(targetDir + "/" + name)
  }

  /** Entries under `bin/` (or `./bin/`) are made executable. */
  predicate IsBinEntry(name: string) {
    StartsWith(name, "bin/") || StartsWith(name, "./bin/")
  }

  /** What an entry of the given kind leaves at path `p` once it is extracted. */
  predicate Holds(t: FsState, p: Path, kind: EntryKind) {
    match kind
    case SymbolicLink(target) => p in t.links && t.links[p] == target
    case HardLink(target) => p in t.links && t.links[p] == target
    case RegularFile(content, _) => p in t.files && t.files[p] == content
    case Directory => p in t.dirs
    case Other(_) => false
  }

  /** The dispatch on the entry's kind: links (symbolic or hard) become symbolic links, a file
      is written after its parent directory is made, a directory is made, anything else is
      unsupported. */
  function Dispatch(s: FsState, targetDir: Path, e: TarEntry): (out: (FsState, Outcome))
    ensures e.kind.Other? ==> out == (s, Fail(UnsupportedOperation("Unsupported entry found: " + e.name)))
  {
    var p := EntryPath(targetDir, e.name);
    match e.kind
    case SymbolicLink(target) => CreateSymbolicLink(s, p, target)
    case HardLink(target) => CreateSymbolicLink(s, p, target)
    case RegularFile(content, readable) =>
      if !readable then (s, Fail(IllegalState("could not read " + e.name)))
      else if Parent(p).None? then (s, Fail(NullPointer))
      else
        var made := MkdirsEffect(s, Parent(p).value);
        if made.1.Fail? then made else WriteNew(made.0, p, content)
    case Directory => MkdirsEffect(s, p)
    case Other(_) => (s, Fail(UnsupportedOperation("Unsupported entry found: " + e.name)))
  }

  /** Dispatch only adds to the filesystem and never sets an executable bit; on success the
      entry is at its path; a link is refused exactly when something is already there, an
      unreadable file is refused before anything happens, and a directory entry is mkdirs. */
  lemma DispatchFacts(s: FsState, targetDir: Path, e: TarEntry)
    ensures var out := Dispatch(s, targetDir, e);
      && Grows(s, out.0) && out.0.executable == s.executable
      && (out.1.Pass? ==> Holds(out.0, EntryPath(targetDir, e.name), e.kind))
    ensures e.kind.SymbolicLink? || e.kind.HardLink? ==>
      (Dispatch(s, targetDir, e).1.Pass? <==> !Exists(s, EntryPath(targetDir, e.name)))
    ensures e.kind.RegularFile? && !e.kind.readable ==>
      Dispatch(s, targetDir, e) == (s, Fail(IllegalState("could not read " + e.name)))
    ensures e.kind.Directory? ==> Dispatch(s, targetDir, e) == MkdirsEffect(s, EntryPath(targetDir, e.name))
  {
  }

  /** One iteration of the extraction loop: dispatch, then the executable rule. */
  function ExtractEntry(s: FsState, targetDir: Path, e: TarEntry): (out: (FsState, Outcome)) {
    var dispatched := Dispatch(s, targetDir, e);
    if dispatched.1.Fail? then dispatched
    else if IsBinEntry(e.name) then (SetExecutable(dispatched.0, EntryPath(targetDir, e.name)).0, Pass)
    else (dispatched.0, Pass)
  }

  /** The whole extraction: entries in stream order, stopping at the first exception. */
  function Extract(s: FsState, targetDir: Path, entries: seq<TarEntry>): (out: (FsState, Outcome))
    decreases |entries|
  {
    if |entries| == 0 then (s, Pass)
    else
      var first := ExtractEntry(s, targetDir, entries[0]);
      if first.1.Fail? then first else Extract(first.0, targetDir, entries[1..])
  }

  /** What a successfully extracted entry leaves at its path. */
  predicate Placed(t: FsState, targetDir: Path, e: TarEntry) {
    var p := EntryPath(targetDir, e.name);
    Holds(t, p, e.kind) && (IsBinEntry(e.name) ==> p in t.executable)
  }

  lemma ExtractEntryFacts(s: FsState, targetDir: Path, e: TarEntry)
    ensures Grows(s, ExtractEntry(s, targetDir, e).0)
    ensures ExtractEntry(s, targetDir, e).1.Pass? ==> Placed(ExtractEntry(s, targetDir, e).0, targetDir, e)
    ensures ExtractEntry(s, targetDir, e).0.executable - s.executable <=
      if IsBinEntry(e.name) then {EntryPath(targetDir, e.name)} else {}
  {
    DispatchFacts(s, targetDir, e);
  }

  lemma PlacedStable(s: FsState, t: FsState, targetDir: Path, e: TarEntry)
    requires Placed(s, targetDir, e) && Grows(s, t)
    ensures Placed(t, targetDir, e)
  {
  }

  /** The paths of the `bin/` entries among `entries`. */
  function BinPaths(targetDir: Path, entries: seq<TarEntry>): set<Path> {
    set i | 0 <= i < |entries| && IsBinEntry(entries[i].name) :: EntryPath(targetDir, entries[i].name)
  }

  /** Extraction only adds: whatever it stops at, nothing that was there is removed or
      rewritten, and the only entries made executable are `bin/` entries. */
  lemma {:induction false} ExtractGrows(s: FsState, targetDir: Path, entries: seq<TarEntry>)
    ensures Grows(s, Extract(s, targetDir, entries).0)
    ensures Extract(s, targetDir, entries).0.executable - s.executable <= BinPaths(targetDir, entries)
    decreases |entries|
  {
    if |entries| > 0 {
      var first := ExtractEntry(s, targetDir, entries[0]);
      ExtractEntryFacts(s, targetDir, entries[0]);
      assert IsBinEntry(entries[0].name) ==> EntryPath(targetDir, entries[0].name) in BinPaths(targetDir, entries);
      if first.1.Pass? {
        ExtractGrows(first.0, targetDir, entries[1..]);
        GrowsTransitive(s, first.0, Extract(first.0, targetDir, entries[1..]).0);
        assert BinPaths(targetDir, entries[1..]) <= BinPaths(targetDir, entries) by {
          forall p | p in BinPaths(targetDir, entries[1..]) ensures p in BinPaths(targetDir, entries) {
            var i :| 0 <= i < |entries[1..]| && IsBinEntry(entries[1..][i].name) && p == EntryPath(targetDir, entries[1..][i].name);
            assert entries[1..][i] == entries[i + 1];
          }
        }
      }
    }
  }

  /** A successful extraction has placed every entry: each link, file (with its bytes) and
      directory is at its path, and every `bin/` entry is executable. */
  lemma {:induction false} ExtractPlacesAll(s: FsState, targetDir: Path, entries: seq<TarEntry>)
    requires Extract(s, targetDir, entries).1.Pass?
    ensures forall i :: 0 <= i < |entries| ==> Placed(Extract(s, targetDir, entries).0, targetDir, entries[i])
    decreases |entries|
  {
    if |entries| > 0 {
      var first := ExtractEntry(s, targetDir, entries[0]);
      var t := Extract(s, targetDir, entries).0;
      ExtractEntryFacts(s, targetDir, entries[0]);
      ExtractPlacesAll(first.0, targetDir, entries[1..]);
      ExtractGrows(first.0, targetDir, entries[1..]);
      PlacedStable(first.0, t, targetDir, entries[0]);
      forall i | 1 <= i < |entries| ensures Placed(t, targetDir, entries[i]) {
        assert entries[i] == entries[1..][i - 1];
      }
    }
  }

  /** An entry never succeeds at the path of an existing regular file, and the file stays a
      file. */
  lemma EntryAvoidsFile(s: FsState, targetDir: Path, e: TarEntry, q: Path)
    requires q in s.files && q !in s.dirs && ExtractEntry(s, targetDir, e).1.Pass?
    ensures EntryPath(targetDir, e.name) != q
    ensures q in ExtractEntry(s, targetDir, e).0.files && q !in ExtractEntry(s, targetDir, e).0.dirs
  {
    DispatchFacts(s, targetDir, e);
  }

  /** A successful extraction places no entry at the path of a regular file that was already
      there (such as the open lock file). */
  lemma {:induction false} ExtractAvoidsFile(s: FsState, targetDir: Path, entries: seq<TarEntry>, q: Path)
    requires q in s.files && q !in s.dirs && Extract(s, targetDir, entries).1.Pass?
    ensures forall i :: 0 <= i < |entries| ==> EntryPath(targetDir, entries[i].name) != q
    decreases |entries|
  {
    if |entries| > 0 {
      var first := ExtractEntry(s, targetDir, entries[0]);
      EntryAvoidsFile(s, targetDir, entries[0], q);
      ExtractAvoidsFile(first.0, targetDir, entries[1..], q);
      forall i | 1 <= i < |entries|
        ensures EntryPath(targetDir, entries[i].name) != q
      {
        assert entries[i] == entries[1..][i - 1];
      }
    }
  }

  /** An archive holding an entry of an unsupported kind never extracts successfully. */
  lemma {:induction false} ExtractRejectsUnsupported(s: FsState, targetDir: Path, entries: seq<TarEntry>, k: nat)
    requires k < |entries| && entries[k].kind.Other?
    ensures Extract(s, targetDir, entries).1.Fail?
    decreases |entries|
  {
    if k > 0 {
      var first := ExtractEntry(s, targetDir, entries[0]);
      if first.1.Pass? {
        assert entries[1..][k - 1] == entries[k];
        ExtractRejectsUnsupported(first.0, targetDir, entries[1..], k - 1);
      }
    }
  }

  /** One loop iteration of extractTxz. */
  method ExtractOne(fs: FileSystem, targetDir: Path, entry: TarEntry) returns (o: Outcome)
    modifies fs
    ensures (fs.State(), o) == ExtractEntry(old(fs.State()), targetDir, entry)
  {
    var fsObject := EntryPath(targetDir, entry.name);
    match entry.kind {
      case SymbolicLink(target) =>
        o := fs.Symlink(fsObject, target);
      case HardLink(target) =>
        o := fs.Symlink(fsObject, target);
      case RegularFile(content, readable) =>
        if !readable {
          o := Fail(IllegalState("could not read " + entry.name));
        } else if Parent(fsObject).None? {
          o := Fail(NullPointer);
        } else {
          o := Mkdirs(fs, Parent(fsObject).value);
          if o.Pass? {
            o := fs.Write(fsObject, content);
          }
        }
      case Directory =>
        o := Mkdirs(fs, fsObject);
      case Other(_) =>
        o := Fail(UnsupportedOperation("Unsupported entry found: " + entry.name));
    }
    if o.Pass? && IsBinEntry(entry.name) {
      var success := fs.MakeExecutable(fsObject);
    }
  }

  /** extractTxz(stream, targetDir): the entries one by one, writes taken as synchronous. */
  method ExtractTxz(fs: FileSystem, targetDir: Path, entries: seq<TarEntry>) returns (o: Outcome)
    modifies fs
    ensures (fs.State(), o) == Extract(old(fs.State()), targetDir, entries)
  {
    var i := 0;
    while i < |entries|
      invariant 0 <= i <= |entries|
      invariant Extract(old(fs.State()), targetDir, entries) == Extract(fs.State(), targetDir, entries[i..])
    {
      assert entries[i..][1..] == entries[i + 1..];
      o := ExtractOne(fs, targetDir, entries[i]);
      if o.Fail? {
        return;
      }
      i := i + 1;
    }
    o := Pass;
  }

  // ---------------------------------------------------------------- waiting for another process

  /** Whether the `.exists` check numbered `check` (from 0) finds the marker: it was there
      already, or another process created it before that check. */
  predicate MarkerSeen(present: bool, firstSeen: Option<nat>, check: nat) {
    present || (firstSeen.Some? && firstSeen.value <= check)
  }

  /** The waiting branch of unpack: `while (!exists() && --maxAttempts > 0) sleep(1s)`, then
      one last check. The loop checks at most 60 times and sleeps at most 59 times, so the
      marker is found exactly when it is there by the 61st check. */
  method AwaitMarker(present: bool, firstSeen: Option<nat>) returns (found: bool, sleeps: nat)
    ensures found <==> MarkerSeen(present, firstSeen, MaxAttempts)
    ensures sleeps <= MaxAttempts - 1
    ensures sleeps == if present then 0 else if firstSeen.Some? && firstSeen.value < MaxAttempts - 1
                      then firstSeen.value else MaxAttempts - 1
  {
    var maxAttempts := MaxAttempts;
    var checks: nat := 0;
    sleeps := 0;
    while true
      invariant maxAttempts == MaxAttempts - sleeps && checks == sleeps <= MaxAttempts - 1
      invariant checks > 0 ==> !present && (firstSeen.None? || firstSeen.value >= checks)
      decreases maxAttempts
    {
      var seen := MarkerSeen(present, firstSeen, checks);
      checks := checks + 1;
      if seen {
        break;
      }
      maxAttempts := maxAttempts - 1;
      if maxAttempts <= 0 {
        break;
      }
      sleeps := sleeps + 1;
    }
    found := MarkerSeen(present, firstSeen, checks);
  }

  // ---------------------------------------------------------------- unpack

  /** What other processes do while this one unpacks: whether tryLock on the unpack lock
      succeeds, and from which `.exists` check on the marker another process created is visible. */
  datatype Race = Race(lockAcquired: bool, firstSeen: Option<nat>)

  /** unpack(archive, directory, lockFile, marker). The finally block runs whether or not
      the lock file could be opened. */
  function UnpackEffect(s: FsState, entries: seq<TarEntry>, dir: FilePath, race: Race): (out: (FsState, Outcome)) {
    var lockFile := Child(dir, LockFileName);
    var marker := Child(dir, MarkerName);
    var lockStream := OpenForWrite(s, lockFile);
    if lockStream.1.Fail? then (DeleteFile(s, lockFile), lockStream.1)  // finally, after the failed open
    else
      var body :=
        if race.lockAcquired then LockedUnpack(lockStream.0, entries, dir, marker)
        else AwaitUnpack(lockStream.0, marker, race.firstSeen);
      (DeleteFile(body.0, lockFile), body.1)  // finally: the lock file is removed
  }

  /** The lock holder's try block: an existing marker (IllegalStateException) and any failure
      of the extraction or of creating the marker are logged by the catch, so nothing escapes. */
  function LockedUnpack(s: FsState, entries: seq<TarEntry>, dir: Path, marker: Path): (out: (FsState, Outcome))
    ensures out.1 == Pass
  {
    if Exists(s, marker) then (s, Pass)
    else
      var extracted := Extract(s, dir, entries);
      if extracted.1.Fail? then (extracted.0, Pass)
      else (CreateNewFile(extracted.0, marker).0, Pass)
  }

  /** The waiting branch: success exactly when the marker the other process creates is seen by
      the last check, otherwise IllegalStateException. */
  function AwaitUnpack(s: FsState, marker: Path, firstSeen: Option<nat>): (out: (FsState, Outcome))
    ensures out.1.Pass? <==> MarkerSeen(Exists(s, marker), firstSeen, MaxAttempts)
    ensures out.1.Pass? ==> Exists(out.0, marker)
    ensures out.1.Fail? ==> out == (s, Fail(IllegalState("Waited 60 seconds for postgres to be unpacked but it never finished!")))
  {
    if MarkerSeen(Exists(s, marker), firstSeen, MaxAttempts) then
      (CreateNewFile(s, marker).0, Pass)  // the other process's marker
    else
      (s, Fail(IllegalState("Waited 60 seconds for postgres to be unpacked but it never finished!")))
  }

  /** The lock file and the marker are two different entries directly inside the unpack
      directory. */
  lemma UnpackPaths(dir: FilePath)
    requires dir != ""
    ensures Child(dir, MarkerName) != Child(dir, LockFileName)
    ensures Parent(Child(dir, LockFileName)) == Some(dir) && Parent(Child(dir, MarkerName)) == Some(dir)
    ensures Child(dir, LockFileName) != dir && Child(dir, MarkerName) != dir
  {
    ChildInjective(dir, MarkerName, LockFileName);
    ChildOfSimple(dir, LockFileName);
    ChildOfSimple(dir, MarkerName);
    BaseOfFilePath(dir);
  }

  /** With the unpack lock held, unpack never fails once the lock file is open: an existing
      marker and every extraction failure are logged and swallowed; a successful extraction
      leaves every entry placed and the marker created. The lock file is always removed. */
  lemma UnpackWithLock(s: FsState, entries: seq<TarEntry>, dir: FilePath, race: Race)
    requires race.lockAcquired && dir != "" && dir in s.dirs
    requires Child(dir, LockFileName) !in s.dirs && Child(dir, LockFileName) !in s.links
    ensures UnpackEffect(s, entries, dir, race).1 == Pass
    ensures Child(dir, LockFileName) !in UnpackEffect(s, entries, dir, race).0.files
    ensures var s1 := OpenForWrite(s, Child(dir, LockFileName)).0;
      !Exists(s, Child(dir, MarkerName)) && Extract(s1, dir, entries).1.Pass? ==>
        Exists(UnpackEffect(s, entries, dir, race).0, Child(dir, MarkerName))
    ensures var s1 := OpenForWrite(s, Child(dir, LockFileName)).0;
      !Exists(s, Child(dir, MarkerName)) && Extract(s1, dir, entries).1.Pass? ==>
        forall i :: 0 <= i < |entries| ==> Placed(UnpackEffect(s, entries, dir, race).0, dir, entries[i])
  {
    UnpackPaths(dir);
    UnpackWithLockPasses(s, entries, dir, race);
    UnpackWithLockMarks(s, entries, dir, race);
    UnpackWithLockPlaces(s, entries, dir, race);
  }

  lemma UnpackWithLockPlaces(s: FsState, entries: seq<TarEntry>, dir: FilePath, race: Race)
    requires race.lockAcquired && Parent(Child(dir, LockFileName)) == Some(dir) && dir in s.dirs
    requires Child(dir, LockFileName) !in s.dirs && Child(dir, LockFileName) !in s.links
    requires Child(dir, MarkerName) != Child(dir, LockFileName)
    ensures var s1 := OpenForWrite(s, Child(dir, LockFileName)).0;
      !Exists(s, Child(dir, MarkerName)) && Extract(s1, dir, entries).1.Pass? ==>
        forall i :: 0 <= i < |entries| ==> Placed(UnpackEffect(s, entries, dir, race).0, dir, entries[i])
  {
    var lockFile := Child(dir, LockFileName);
    var marker := Child(dir, MarkerName);
    var s1 := OpenForWrite(s, lockFile).0;
    if !Exists(s, marker) && Extract(s1, dir, entries).1.Pass? {
      assert !Exists(s1, marker);
      LockedUnpackPlaces(s1, entries, dir, marker);
      ExtractAvoidsFile(s1, dir, entries, lockFile);
      var body := LockedUnpack(s1, entries, dir, marker).0;
      assert UnpackEffect(s, entries, dir, race).0 == DeleteFile(body, lockFile);
      forall i | 0 <= i < |entries|
        ensures Placed(DeleteFile(body, lockFile), dir, entries[i])
      {
        PlacedAfterDelete(body, lockFile, dir, entries[i]);
      }
    }
  }

  /** The lock holder's extraction and marker leave every entry of a successful extraction
      in place. */
  lemma LockedUnpackPlaces(s: FsState, entries: seq<TarEntry>, dir: Path, marker: Path)
    requires !Exists(s, marker) && Extract(s, dir, entries).1.Pass?
    ensures forall i :: 0 <= i < |entries| ==> Placed(LockedUnpack(s, entries, dir, marker).0, dir, entries[i])
  {
    var extracted := Extract(s, dir, entries).0;
    ExtractPlacesAll(s, dir, entries);
    var t := CreateNewFile(extracted, marker).0;
    assert Grows(extracted, t);
    forall i | 0 <= i < |entries|
      ensures Placed(t, dir, entries[i])
    {
      PlacedStable(extracted, t, dir, entries[i]);
    }
  }

  /** Deleting another path keeps an entry in place. */
  lemma PlacedAfterDelete(t: FsState, p: Path, targetDir: Path, e: TarEntry)
    requires Placed(t, targetDir, e) && EntryPath(targetDir, e.name) != p
    ensures Placed(DeleteFile(t, p), targetDir, e)
  {
  }

  lemma UnpackWithLockPasses(s: FsState, entries: seq<TarEntry>, dir: FilePath, race: Race)
    requires race.lockAcquired && Parent(Child(dir, LockFileName)) == Some(dir) && dir in s.dirs
    requires Child(dir, LockFileName) !in s.dirs && Child(dir, LockFileName) !in s.links
    ensures UnpackEffect(s, entries, dir, race).1 == Pass
  {
    assert OpenForWrite(s, Child(dir, LockFileName)).1.Pass?;
  }

  lemma UnpackWithLockMarks(s: FsState, entries: seq<TarEntry>, dir: FilePath, race: Race)
    requires race.lockAcquired && Parent(Child(dir, LockFileName)) == Some(dir) && dir in s.dirs
    requires Child(dir, LockFileName) !in s.dirs && Child(dir, LockFileName) !in s.links
    requires Child(dir, MarkerName) != Child(dir, LockFileName)
    ensures var s1 := OpenForWrite(s, Child(dir, LockFileName)).0;
      !Exists(s, Child(dir, MarkerName)) && Extract(s1, dir, entries).1.Pass? ==>
        Exists(UnpackEffect(s, entries, dir, race).0, Child(dir, MarkerName))
  {
    var lockFile := Child(dir, LockFileName);
    var marker := Child(dir, MarkerName);
    var s1 := OpenForWrite(s, lockFile).0;
    assert Exists(s1, marker) == Exists(s, marker);
  }

  /** With the marker already present, unpack under the lock extracts nothing: only the
      lock file comes and goes. */
  lemma UnpackSkipsWhenMarked(s: FsState, entries: seq<TarEntry>, dir: FilePath, race: Race)
    requires race.lockAcquired && Exists(s, Child(dir, MarkerName)) && dir != "" && dir in s.dirs
    requires Child(dir, LockFileName) !in s.dirs && Child(dir, LockFileName) !in s.links
    ensures UnpackEffect(s, entries, dir, race) == (DeleteFile(OpenForWrite(s, Child(dir, LockFileName)).0, Child(dir, LockFileName)), Pass)
  {
    UnpackPaths(dir);
  }

  /** Without the lock, unpack succeeds exactly when the marker is there by the last check,
      and then the marker is present; otherwise it throws IllegalStateException. */
  lemma UnpackWithoutLock(s: FsState, entries: seq<TarEntry>, dir: FilePath, race: Race)
    requires !race.lockAcquired && dir != "" && dir in s.dirs
    requires Child(dir, LockFileName) !in s.dirs && Child(dir, LockFileName) !in s.links
    ensures UnpackEffect(s, entries, dir, race).1.Pass? <==>
      MarkerSeen(Exists(s, Child(dir, MarkerName)), race.firstSeen, MaxAttempts)
    ensures UnpackEffect(s, entries, dir, race).1.Pass? ==>
      Exists(UnpackEffect(s, entries, dir, race).0, Child(dir, MarkerName))
    ensures UnpackEffect(s, entries, dir, race).1.Fail? ==>
      UnpackEffect(s, entries, dir, race).1.error.IllegalState?
  {
    UnpackPaths(dir);
    var s1 := OpenForWrite(s, Child(dir, LockFileName)).0;
    assert Exists(s1, Child(dir, MarkerName)) == Exists(s, Child(dir, MarkerName));
  }

  /** Unpack removes no directory other than one at the lock file's path. */
  lemma UnpackKeepsDirectories(s: FsState, entries: seq<TarEntry>, dir: FilePath, race: Race)
    ensures s.dirs - {Child(dir, LockFileName)} <= UnpackEffect(s, entries, dir, race).0.dirs
  {
    var lockStream := OpenForWrite(s, Child(dir, LockFileName));
    if lockStream.1.Pass? && race.lockAcquired {
      LockedUnpackKeepsDirectories(lockStream.0, entries, dir, Child(dir, MarkerName));
    }
  }

  lemma LockedUnpackKeepsDirectories(s: FsState, entries: seq<TarEntry>, dir: Path, marker: Path)
    ensures s.dirs <= LockedUnpack(s, entries, dir, marker).0.dirs
  {
    if !Exists(s, marker) {
      ExtractGrows(s, dir, entries);
    }
  }

  /** When the lock file cannot be opened (something that is not a regular file is at its
      path, or the directory is missing), unpack throws that IOException, and the finally
      block has still removed whatever was at the path unless it is a directory that holds
      something. Nothing else changes. */
  lemma UnpackLockFileUnopenable(s: FsState, entries: seq<TarEntry>, dir: FilePath, race: Race)
    requires dir != ""
    requires Child(dir, LockFileName) in s.dirs || Child(dir, LockFileName) in s.links || dir !in s.dirs
    ensures UnpackEffect(s, entries, dir, race).1.Fail?
    ensures UnpackEffect(s, entries, dir, race).1.error.IOFailure?
    ensures var lockFile := Child(dir, LockFileName);
      var t := UnpackEffect(s, entries, dir, race).0;
      && (Exists(t, lockFile) <==> lockFile in s.dirs && Occupied(s, lockFile))
      && (forall q :: q != lockFile ==> (Exists(t, q) <==> Exists(s, q)))
  {
    UnpackPaths(dir);
  }

  method Unpack(fs: FileSystem, entries: seq<TarEntry>, dir: FilePath, race: Race) returns (o: Outcome)
    modifies fs
    ensures (fs.State(), o) == UnpackEffect(old(fs.State()), entries, dir, race)
  {
    var lockFile := Child(dir, LockFileName);
    var marker := Child(dir, MarkerName);
    o := fs.OpenOutputStream(lockFile);
    if o.Fail? {
      fs.Delete(lockFile);
      return;
    }
    var present := fs.IsPresent(marker);
    if race.lockAcquired {
      if !present {
        var extracted := ExtractTxz(fs, dir, entries);
        if extracted.Pass? {
          var created := fs.CreateNew(marker);
        }
      }
      o := Pass;
    } else {
      var found, sleeps := AwaitMarker(present, race.firstSeen);
      if found {
        var created := fs.CreateNew(marker);
        o := Pass;
      } else {
        o := Fail(IllegalState("Waited 60 seconds for postgres to be unpacked but it never finished!"));
      }
    }
    fs.Delete(lockFile);
  }

  // ---------------------------------------------------------------- prepare

  /** The JVM and its class path, as the preparer sees them. */
  datatype Host = Host(platform: Platform, props: map<string, string>, classpath: map<string, Archive>)

  /** A checked exception escaping unpack becomes ExceptionInInitializerError; an unchecked one
      passes through. */
  function Escalate(e: Failure): Failure {
    if e.IOFailure? then InitializerError(e) else e
  }

  /** The working directory: the override when present, getWorkingDirectory() otherwise. */
  function WorkingDirectory(overridden: Option<FilePath>, props: map<string, string>): FilePath {
    if overridden.Some? then overridden.value else GetWorkingDirectory(props)
  }

  /** prepare(resolver, overriddenWorkingDirectory): the answer, the new cache, the new filesystem. */
  function PrepareEffect(cache: map<CacheKey, Path>, s: FsState, resolver: Resolver, overridden: Option<FilePath>,
                         host: Host, md5Hex: seq<bv8> -> HexString, race: Race)
    : (out: (Result<Path>, map<CacheKey, Path>, FsState))
  {
    var key := KeyOf(resolver);
    if key in cache then (Ok(cache[key]), cache, s)
    else
      var system := GetOS(host.platform);
      if system.Err? then (Err(system.error), cache, s)
      else
        var machineHardware := GetArchitecture(host.platform.osArch);
        match GetPostgresBinary(resolver, host.classpath, system.value, machineHardware)
        case ReadError(message) => (Err(InitializerError(IOFailure(message, None))), cache, s)
        case NoStream =>
          (Err(IllegalState("No POSTGRES binary found for " + system.value + " / " + machineHardware)), cache, s)
        case Stream(archive) =>
          var dir := ExtractionDirectory(WorkingDirectory(overridden, host.props), md5Hex(archive.bytes));
          var installed := Install(s, dir, archive.entries, race);
          if installed.1.Fail? then (Err(installed.1.error), cache, installed.0)
          else (Ok(dir), cache[key := dir], installed.0)
  }

  /** The part of prepare that works on the extraction directory: mkdirs, then unpack unless
      the `.exists` marker is already there. A checked exception from unpack is escalated;
      the mkdirs failure is an IllegalStateException and passes through. */
  function Install(s: FsState, dir: FilePath, entries: seq<TarEntry>, race: Race): (out: (FsState, Outcome))
    ensures out.1.Fail? ==> !out.1.error.IOFailure?
  {
    var made := MkdirsEffect(s, dir);
    if made.1.Fail? then made
    else if Exists(made.0, Child(dir, MarkerName)) then (made.0, Pass)
    else
      var unpacked := UnpackEffect(made.0, entries, dir, race);
      if unpacked.1.Fail? then (unpacked.0, Fail(Escalate(unpacked.1.error))) else unpacked
  }

  /** A successful install leaves the extraction directory in place. */
  lemma InstallKeepsDirectory(s: FsState, dir: FilePath, entries: seq<TarEntry>, race: Race)
    ensures Install(s, dir, entries, race).1.Pass? ==> dir in Install(s, dir, entries, race).0.dirs
  {
    if dir != "" {
      UnpackPaths(dir);
    }
    UnpackKeepsDirectories(MkdirsEffect(s, dir).0, entries, dir, race);
  }

  /** A resolver already in the cache gets its recorded directory and nothing changes. */
  lemma PrepareCachedFastPath(cache: map<CacheKey, Path>, s: FsState, resolver: Resolver, overridden: Option<FilePath>,
                              host: Host, md5Hex: seq<bv8> -> HexString, race: Race)
    requires KeyOf(resolver) in cache
    ensures PrepareEffect(cache, s, resolver, overridden, host, md5Hex, race) == (Ok(cache[KeyOf(resolver)]), cache, s)
  {
  }

  /** After a successful prepare the cache sends the resolver (and every resolver equal to
      it) to the returned directory, so a repeated call, whatever the rest of its inputs,
      returns the identical path and touches nothing. A failed prepare leaves the cache
      as it was. */
  lemma PrepareIdempotent(cache: map<CacheKey, Path>, s: FsState, resolver: Resolver, overridden: Option<FilePath>,
                          host: Host, md5Hex: seq<bv8> -> HexString, race: Race,
                          again: Resolver, overridden': Option<FilePath>, host': Host, race': Race)
    requires ResolverEquals(resolver, again)
    ensures var out := PrepareEffect(cache, s, resolver, overridden, host, md5Hex, race);
      out.0.Ok? ==> out.1 == cache[KeyOf(resolver) := out.0.value] &&
                    PrepareEffect(out.1, out.2, again, overridden', host', md5Hex, race') == out
    ensures var out := PrepareEffect(cache, s, resolver, overridden, host, md5Hex, race);
      out.0.Err? ==> out.1 == cache
  {
    CacheKeyMatchesEquals(resolver, again);
    PrepareRecords(cache, s, resolver, overridden, host, md5Hex, race);
    var out := PrepareEffect(cache, s, resolver, overridden, host, md5Hex, race);
    if out.0.Ok? {
      PrepareCachedFastPath(out.1, out.2, again, overridden', host', md5Hex, race');
    }
  }

  /** Prepare records exactly its successful answer in the cache. */
  lemma PrepareRecords(cache: map<CacheKey, Path>, s: FsState, resolver: Resolver, overridden: Option<FilePath>,
                       host: Host, md5Hex: seq<bv8> -> HexString, race: Race)
    ensures var out := PrepareEffect(cache, s, resolver, overridden, host, md5Hex, race);
      out.0.Ok? ==> out.1 == cache[KeyOf(resolver) := out.0.value]
    ensures var out := PrepareEffect(cache, s, resolver, overridden, host, md5Hex, race);
      out.0.Err? ==> out.1 == cache
  {
    if KeyOf(resolver) in cache {
      assert cache[KeyOf(resolver) := cache[KeyOf(resolver)]] == cache;
    }
  }

  /** A resolver with no binary for the platform fails with IllegalStateException and
      leaves the cache and the filesystem as they were. */
  lemma PrepareWithoutBinary(cache: map<CacheKey, Path>, s: FsState, resolver: Resolver, overridden: Option<FilePath>,
                             host: Host, md5Hex: seq<bv8> -> HexString, race: Race)
    requires KeyOf(resolver) !in cache && GetOS(host.platform).Ok?
    requires GetPostgresBinary(resolver, host.classpath, GetOS(host.platform).value,
                               GetArchitecture(host.platform.osArch)).NoStream?
    ensures PrepareEffect(cache, s, resolver, overridden, host, md5Hex, race) ==
      (Err(IllegalState("No POSTGRES binary found for " + GetOS(host.platform).value + " / " +
                        GetArchitecture(host.platform.osArch))), cache, s)
  {
  }

  /** A fresh successful prepare returns `<workingDir>/PG-<hex digest of the archive>`, which
      then exists as a directory. */
  lemma PrepareContentAddressed(cache: map<CacheKey, Path>, s: FsState, resolver: Resolver, overridden: Option<FilePath>,
                                host: Host, md5Hex: seq<bv8> -> HexString, race: Race)
    requires KeyOf(resolver) !in cache
    requires PrepareEffect(cache, s, resolver, overridden, host, md5Hex, race).0.Ok?
    ensures exists archive: Archive ::
      && GetPostgresBinary(resolver, host.classpath, GetOS(host.platform).value,
                           GetArchitecture(host.platform.osArch)) == Stream(archive)
      && PrepareEffect(cache, s, resolver, overridden, host, md5Hex, race).0.value ==
           ExtractionDirectory(WorkingDirectory(overridden, host.props), md5Hex(archive.bytes))
    ensures var out := PrepareEffect(cache, s, resolver, overridden, host, md5Hex, race);
      out.0.value in out.2.dirs
  {
    var answer := GetPostgresBinary(resolver, host.classpath, GetOS(host.platform).value,
                                    GetArchitecture(host.platform.osArch));
    var archive := answer.archive;
    var dir := ExtractionDirectory(WorkingDirectory(overridden, host.props), md5Hex(archive.bytes));
    InstallKeepsDirectory(s, dir, archive.entries, race);
  }

  /** The marker decides whether unpack runs: when the extraction directory already exists
      and holds `.exists`, a fresh prepare succeeds without changing the filesystem. */
  lemma PrepareSkipsUnpackWhenMarked(cache: map<CacheKey, Path>, s: FsState, resolver: Resolver, overridden: Option<FilePath>,
                                     host: Host, md5Hex: seq<bv8> -> HexString, race: Race, archive: Archive)
    requires KeyOf(resolver) !in cache && GetOS(host.platform).Ok?
    requires GetPostgresBinary(resolver, host.classpath, GetOS(host.platform).value,
                               GetArchitecture(host.platform.osArch)) == Stream(archive)
    requires var dir := ExtractionDirectory(WorkingDirectory(overridden, host.props), md5Hex(archive.bytes));
      dir in s.dirs && Exists(s, Child(dir, MarkerName))
    ensures var dir := ExtractionDirectory(WorkingDirectory(overridden, host.props), md5Hex(archive.bytes));
      PrepareEffect(cache, s, resolver, overridden, host, md5Hex, race) == (Ok(dir), cache[KeyOf(resolver) := dir], s)
  {
    var dir := ExtractionDirectory(WorkingDirectory(overridden, host.props), md5Hex(archive.bytes));
    InstallSkipsWhenMarked(s, dir, archive.entries, race);
  }

  lemma InstallSkipsWhenMarked(s: FsState, dir: FilePath, entries: seq<TarEntry>, race: Race)
    requires dir in s.dirs && Exists(s, Child(dir, MarkerName))
    ensures Install(s, dir, entries, race) == (s, Pass)
  {
    assert s.(dirs := s.dirs + {dir}) == s by {
      assert s.dirs + {dir} == s.dirs;
    }
  }

  /** The unpack-lock holder's extraction failures do not reach the caller: although the
      extraction stopped at an unsupported entry and no `.exists` marker was created, prepare
      answers with the directory and records it in the cache. */
  lemma PrepareSwallowsExtractionFailure(cache: map<CacheKey, Path>, s: FsState, resolver: Resolver, overridden: Option<FilePath>,
                                         host: Host, md5Hex: seq<bv8> -> HexString, race: Race, archive: Archive)
    requires KeyOf(resolver) !in cache && GetOS(host.platform).Ok? && race.lockAcquired
    requires GetPostgresBinary(resolver, host.classpath, GetOS(host.platform).value,
                               GetArchitecture(host.platform.osArch)) == Stream(archive)
    requires var dir := ExtractionDirectory(WorkingDirectory(overridden, host.props), md5Hex(archive.bytes));
      && dir !in s.files && dir !in s.links && !AncestorBlocked(s, dir) && !Exists(s, Child(dir, MarkerName))
      && Child(dir, LockFileName) !in s.dirs && Child(dir, LockFileName) !in s.links
    requires exists k :: 0 <= k < |archive.entries| && archive.entries[k].kind.Other?
    ensures var dir := ExtractionDirectory(WorkingDirectory(overridden, host.props), md5Hex(archive.bytes));
      var lockFile := Child(dir, LockFileName);
      var s1 := OpenForWrite(MkdirsEffect(s, dir).0, lockFile).0;
      var out := PrepareEffect(cache, s, resolver, overridden, host, md5Hex, race);
      && Extract(s1, dir, archive.entries).1.Fail?
      && out == (Ok(dir), cache[KeyOf(resolver) := dir], DeleteFile(Extract(s1, dir, archive.entries).0, lockFile))
  {
    var dir := ExtractionDirectory(WorkingDirectory(overridden, host.props), md5Hex(archive.bytes));
    InstallSwallowsExtractionFailure(s, dir, archive.entries, race);
  }

  lemma InstallSwallowsExtractionFailure(s: FsState, dir: FilePath, entries: seq<TarEntry>, race: Race)
    requires race.lockAcquired && dir != ""
    requires && dir !in s.files && dir !in s.links && !AncestorBlocked(s, dir) && !Exists(s, Child(dir, MarkerName))
             && Child(dir, LockFileName) !in s.dirs && Child(dir, LockFileName) !in s.links
    requires exists k :: 0 <= k < |entries| && entries[k].kind.Other?
    ensures var lockFile := Child(dir, LockFileName);
      var s1 := OpenForWrite(MkdirsEffect(s, dir).0, lockFile).0;
      && Extract(s1, dir, entries).1.Fail?
      && Install(s, dir, entries, race) == (DeleteFile(Extract(s1, dir, entries).0, lockFile), Pass)
  {
    UnpackPaths(dir);
    MkdirsForUnpack(s, dir, Child(dir, MarkerName), Child(dir, LockFileName));
    InstallReachesUnpack(s, dir, entries, race);
    UnpackSwallowsExtractionFailure(MkdirsEffect(s, dir).0, entries, dir, race);
  }

  /** Without a marker, install creates the directory and runs unpack there. */
  lemma InstallReachesUnpack(s: FsState, dir: FilePath, entries: seq<TarEntry>, race: Race)
    requires MkdirsEffect(s, dir).1.Pass? && !Exists(MkdirsEffect(s, dir).0, Child(dir, MarkerName))
    ensures var made := MkdirsEffect(s, dir).0;
      UnpackEffect(made, entries, dir, race).1.Pass? ==> Install(s, dir, entries, race) == UnpackEffect(made, entries, dir, race)
  {
  }

  /** Creating the unpack directory adds nothing at another path: neither the marker nor the
      lock file appears. */
  lemma MkdirsForUnpack(s: FsState, dir: Path, marker: Path, lockFile: Path)
    requires marker != dir && lockFile != dir
    requires dir !in s.files && dir !in s.links && !AncestorBlocked(s, dir) && !Exists(s, marker)
    ensures var made := MkdirsEffect(s, dir);
      && made.1.Pass? && dir in made.0.dirs && !Exists(made.0, marker)
      && (lockFile in made.0.dirs <==> lockFile in s.dirs) && made.0.links == s.links
  {
  }

  /** With the unpack lock held, an extraction that stops at an unsupported entry still
      lets unpack pass; only the lock file is cleaned up afterwards. */
  lemma UnpackSwallowsExtractionFailure(s: FsState, entries: seq<TarEntry>, dir: FilePath, race: Race)
    requires race.lockAcquired && dir != "" && dir in s.dirs && !Exists(s, Child(dir, MarkerName))
    requires Child(dir, LockFileName) !in s.dirs && Child(dir, LockFileName) !in s.links
    requires exists k :: 0 <= k < |entries| && entries[k].kind.Other?
    ensures var s1 := OpenForWrite(s, Child(dir, LockFileName)).0;
      && Extract(s1, dir, entries).1.Fail?
      && UnpackEffect(s, entries, dir, race) == (DeleteFile(Extract(s1, dir, entries).0, Child(dir, LockFileName)), Pass)
  {
    var lockFile := Child(dir, LockFileName);
    UnpackPaths(dir);
    var s1 := OpenForWrite(s, lockFile).0;
    assert !Exists(s1, Child(dir, MarkerName));
    var k :| 0 <= k < |entries| && entries[k].kind.Other?;
    ExtractRejectsUnsupported(s1, dir, entries, k);
  }

  /** The process-wide cache of prepared binaries (PREPARED_BINARIES), shared by every server
      of the process; the preparation lock makes each call one atomic step. */
  class BinaryCache {
    var prepared: map<CacheKey, Path>

    constructor ()
      ensures prepared == map[]
    {
      prepared := map[];
    }

    method Prepare(fs: FileSystem, resolver: Resolver, overridden: Option<FilePath>, host: Host,
                   md5Hex: seq<bv8> -> HexString, race: Race) returns (r: Result<Path>)
      modifies this, fs
      ensures (r, prepared, fs.State()) ==
        PrepareEffect(old(prepared), old(fs.State()), resolver, overridden, host, md5Hex, race)
    {
      var key := KeyOf(resolver);
      if key in prepared {
        return Ok(prepared[key]);
      }
      var system := GetOS(host.platform);
      if system.Err? {
        return Err(system.error);
      }
      var machineHardware := GetArchitecture(host.platform.osArch);
      var answer := GetPostgresBinary(resolver, host.classpath, system.value, machineHardware);
      match answer {
        case ReadError(message) =>
          return Err(InitializerError(IOFailure(message, None)));
        case NoStream =>
          return Err(IllegalState("No POSTGRES binary found for " + system.value + " / " + machineHardware));
        case Stream(archive) =>
          var dir := ExtractionDirectory(WorkingDirectory(overridden, host.props), md5Hex(archive.bytes));
          var made := Mkdirs(fs, dir);
          if made.Fail? {
            return Err(made.error);
          }
          var present := fs.IsPresent(Child(dir, MarkerName));
          if !present {
            var unpacked := Unpack(fs, archive.entries, dir, race);
            if unpacked.Fail? {
              return Err(Escalate(unpacked.error));
            }
          }
          prepared := prepared[key := dir];
          r := Ok(dir);
      }
    }
  }
}
