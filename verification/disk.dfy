/** The local filesystem as the core sees it through java.io.File and java.nio.file:
    directories, regular files with their bytes, symbolic links, the executable bit,
    and the file locks this JVM holds. */
module Disk {
  import opened Outcomes
  import opened Text

  type Path = string

  /** A separator at `i` directly followed by another. */
  predicate Doubled(p: Path, i: int)
    requires 0 <= i < |p| - 1
  {
    p[i] == '/' && p[i + 1] == '/'
  }

  /** The normal form of java.io.File on a Unix-like system: no separator directly follows
      another, and only the root itself ends with a separator. */
  predicate Normal(p: Path) {
    && (forall i :: 0 <= i < |p| - 1 ==> !Doubled(p, i))
    && (|p| > 1 ==> p[|p| - 1] != '/')
  }

  /** What File.getPath() can answer: a path string in normal form. */
  type FilePath = p: Path | Normal(p) witness ""

  /** One path component: a non-empty name without a separator. */
  predicate SimpleName(name: string) {
    name != "" && '/' !in name
  }

  /** The path with every run of separators collapsed to one. */
  function Collapse(s: string): (c: string)
    ensures |c| <= |s|
    decreases |s|
  {
    if |s| < 2 then s
    else if s[|s| - 1] == '/' && s[|s| - 2] == '/' then Collapse(s[..|s| - 1])
    else Collapse(s[..|s| - 1]) + [s[|s| - 1]]
  }

  /** Collapsing leaves no repeated separator, keeps the last character, and changes nothing
      in a string that has no repeated separator. */
  lemma {:induction false} CollapseFacts(s: string)
    ensures forall i :: 0 <= i < |Collapse(s)| - 1 ==> !Doubled(Collapse(s), i)
    ensures |s| > 0 ==> |Collapse(s)| > 0 && Collapse(s)[|Collapse(s)| - 1] == s[|s| - 1]
    ensures (forall i :: 0 <= i < |s| - 1 ==> !Doubled(s, i)) ==> Collapse(s) == s
    decreases |s|
  {
    if |s| >= 2 {
      var front := s[..|s| - 1];
      CollapseFacts(front);
      var cf := Collapse(front);
      assert s == front + [s[|s| - 1]];
      if s[|s| - 1] == '/' && s[|s| - 2] == '/' {
        assert Doubled(s, |s| - 2);
      } else {
        var c := cf + [s[|s| - 1]];
        forall i | 0 <= i < |c| - 1
          ensures !Doubled(c, i)
        {
          if i < |c| - 2 {
            assert !Doubled(cf, i);
          } else {
            assert c[i] == s[|s| - 2];
          }
        }
        if forall i :: 0 <= i < |s| - 1 ==> !Doubled(s, i) {
          forall i | 0 <= i < |front| - 1
            ensures !Doubled(front, i)
          {
            assert !Doubled(s, i);
          }
        }
      }
    }
  }

  /** UnixFileSystem.normalize: repeated separators collapsed and a trailing separator removed. */
  function Normalize(s: string): Path {
    var c := Collapse(s);
    if |c| > 1 && c[|c| - 1] == '/' then c[..|c| - 1] else c
  }

  /** Normalising gives a normal path, empty only for the empty string, and leaves a normal
      path as it is. */
  lemma NormalizeFacts(s: string)
    ensures Normal(Normalize(s))
    ensures Normalize(s) == "" <==> s == ""
    ensures Normal(s) ==> Normalize(s) == s
  {
    CollapseFacts(s);
    var c := Collapse(s);
    if |c| > 1 && c[|c| - 1] == '/' {
      assert !Doubled(c, |c| - 2);
      var r := c[..|c| - 1];
      forall i | 0 <= i < |r| - 1
        ensures !Doubled(r, i)
      {
        assert !Doubled(c, i);
      }
    }
    if Normal(s) {
      assert Collapse(s) == s;
    }
  }

  /** The directory that `parent` stands for in new File(parent, child): the root for the
      empty string, otherwise the parent in normal form. */
  function Base(parent: Path): (b: Path)
    ensures Normal(b) && b != ""
  {
    NormalizeFacts(parent);
    if parent == "" then "/" else Normalize(parent)
  }

  /** The separator UnixFileSystem.resolve puts between a directory and a relative name:
      none after the root. */
  function Joint(base: Path): string {
    if base == "/" then "" else "/"
  }

  /** new File(parent, child).getPath() on a Unix-like system: both strings normalised, an
      empty parent read as the root, and the two joined by UnixFileSystem.resolve. */
  function Child(parent: Path, child: string): (p: Path)
    ensures Normal(child) && child != "" && child[0] != '/' ==> p == Base(parent) + Joint(Base(parent)) + child
  {
    NormalizeFacts(child);
    var c := Normalize(child);
    var base := Base(parent);
    if c == "" then base
    else if c[0] == '/' then (if base == "/" then c else base + c)
    else base + Joint(base) + c
  }

  /** A normal, non-empty directory joined to a simple name is normal. */
  lemma JoinNormal(b: Path, name: string)
    requires Normal(b) && b != "" && SimpleName(name)
    ensures Normal(b + Joint(b) + name)
  {
    var p := b + Joint(b) + name;
    var n := |b| + |Joint(b)|;
    assert b != "/" ==> b[|b| - 1] != '/' by {
      if b != "/" && |b| == 1 { assert b == [b[0]]; }
    }
    forall i | 0 <= i < |p| - 1
      ensures !Doubled(p, i)
    {
      if i + 1 >= n {
        assert p[i + 1] == name[i + 1 - n];
      } else if i + 1 < |b| {
        assert !Doubled(b, i);
      } else {
        assert p[i] == b[|b| - 1];
      }
    }
    assert p[|p| - 1] == name[|name| - 1];
  }

  /** The parent of a non-empty directory joined to a simple name is that directory. */
  lemma JoinParent(b: Path, name: string)
    requires b != "" && SimpleName(name)
    ensures Parent(b + Joint(b) + name) == Some(b)
  {
    var p := b + Joint(b) + name;
    var k := |b| + |Joint(b)| - 1;
    assert p[k] == '/';
    assert p[k + 1..] == name;
    assert LastSeparator(p) == Some(k);
    if b == "/" {
      assert p[..1] == b;
    } else {
      assert p[..k] == b;
    }
  }

  /** A simple name resolved against any parent: the parent's normal form, one separator
      (none after the root) and the name; the result is normal and its parent is that
      directory. */
  lemma ChildOfSimple(parent: Path, name: string)
    requires SimpleName(name)
    ensures Child(parent, name) == Base(parent) + Joint(Base(parent)) + name
    ensures Normal(Child(parent, name))
    ensures |Child(parent, name)| > |Base(parent)|
    ensures Parent(Child(parent, name)) == Some(Base(parent))
  {
    assert Normal(name);
    JoinNormal(Base(parent), name);
    JoinParent(Base(parent), name);
  }

  /** Two simple names resolved against one parent give the same path exactly when the names
      agree. */
  lemma ChildInjective(parent: Path, a: string, b: string)
    requires SimpleName(a) && SimpleName(b)
    ensures Child(parent, a) == Child(parent, b) <==> a == b
  {
    ChildOfSimple(parent, a);
    ChildOfSimple(parent, b);
    var n := |Base(parent) + Joint(Base(parent))|;
    if Child(parent, a) == Child(parent, b) {
      assert a == Child(parent, a)[n..];
    }
  }

  /** A non-empty path that File.getPath() answers is its own base directory. */
  lemma BaseOfFilePath(p: FilePath)
    requires p != ""
    ensures Base(p) == p
  {
    NormalizeFacts(p);
  }

  /** String.lastIndexOf('/'). */
  function LastSeparator(p: Path): (k: Option<nat>)
    ensures k.Some? ==> k.value < |p| && p[k.value] == '/' && '/' !in p[k.value + 1..]
    ensures k.None? ==> '/' !in p
    decreases |p|
  {
    if |p| == 0 then None
    else if p[|p| - 1] == '/' then Some(|p| - 1)
    else
      var k := LastSeparator(p[..|p| - 1]);
      assert k.Some? ==> p[k.value + 1..] == p[..|p| - 1][k.value + 1..] + [p[|p| - 1]];
      assert k.None? ==> p == p[..|p| - 1] + [p[|p| - 1]];
      k
  }

  /** File.getParent(): everything before the last separator; the root for a path directly
      under it; null (None) for a name without a separator. */
  function Parent(p: Path): (r: Option<Path>)
    ensures r.Some? ==> |r.value| < |p| && StartsWith(p, r.value)
    ensures r.None? <==> '/' !in p || p == "/"
  {
    var prefix := if |p| > 0 && p[0] == '/' then 1 else 0;
    match LastSeparator(p)
    case None => None
    case Some(i) =>
      if i < prefix then (if |p| > prefix then Some(p[..prefix]) else None)
      else Some(p[..i])
  }

  /** A snapshot of the filesystem. */
  datatype FsState = FsState(
    dirs: set<Path>,                // directories
    files: map<Path, seq<bv8>>,     // regular files and their contents
    links: map<Path, Path>,         // symbolic links and their targets
    executable: set<Path>,          // entries whose executable bit has been set
    jvmLocks: set<Path>)            // files on which this JVM holds a FileLock

  /** File.exists(): something, of any kind, is at `p`. */
  predicate Exists(s: FsState, p: Path) {
    p in s.dirs || p in s.files || p in s.links
  }

  /** Nothing that was in `s` is gone or rewritten in `t`, and the lock table is the same. */
  predicate Grows(s: FsState, t: FsState) {
    && s.dirs <= t.dirs
    && (forall p :: p in s.files ==> p in t.files && t.files[p] == s.files[p])
    && (forall p :: p in s.links ==> p in t.links && t.links[p] == s.links[p])
    && s.executable <= t.executable
    && s.jvmLocks == t.jvmLocks
  }

  lemma GrowsTransitive(s: FsState, t: FsState, u: FsState)
    requires Grows(s, t) && Grows(t, u)
    ensures Grows(s, u)
  {
  }

  /** `p` is `root` or lies below it; nothing lies under the empty path, which names no file. */
  predicate Under(root: Path, p: Path) {
    root != "" && (p == root || StartsWith(p, root + Joint(root)))
  }

  /** Something exists strictly below `p`: a directory holding it is not empty. */
  predicate Occupied(s: FsState, p: Path) {
    || (exists q | q in s.dirs :: StartsWith(q, p + "/"))
    || (exists q | q in s.files :: StartsWith(q, p + "/"))
    || (exists q | q in s.links :: StartsWith(q, p + "/"))
  }

  /** File.mkdirs() cannot create `p`: walking up from `p` to its nearest existing directory,
      it meets a regular file or a link (links are not followed). */
  predicate AncestorBlocked(s: FsState, p: Path)
    decreases |p|
  {
    match Parent(p)
    case None => false
    case Some(q) => q !in s.dirs && (q in s.files || q in s.links || AncestorBlocked(s, q))
  }

  /** The directory `p` would be created in exists (a name without a separator lies in the
      current directory). */
  predicate ParentPresent(s: FsState, p: Path) {
    Parent(p).None? || Parent(p).value in s.dirs
  }

  /** new FileOutputStream(p): creates the file or truncates it; a directory (or a link,
      which this model does not follow) cannot be opened for writing, and neither can a
      path whose parent directory is missing (FileNotFoundException). */
  function OpenForWrite(s: FsState, p: Path): (out: (FsState, Outcome))
    ensures out.1.Pass? <==> p !in s.dirs && p !in s.links && ParentPresent(s, p)
    ensures out.1.Pass? ==> out.0 == s.(files := s.files[p := []])
    ensures out.1.Fail? ==> out.0 == s && out.1.error.IOFailure?
  {
    if p in s.dirs || p in s.links then (s, Fail(IOFailure(p + " (Is a directory)", None)))
    else if !ParentPresent(s, p) then (s, Fail(IOFailure(p + " (No such file or directory)", None)))
    else (s.(files := s.files[p := []]), Pass)
  }

  /** File.createNewFile(): creates an empty file and answers true, unless something exists. */
  function CreateNewFile(s: FsState, p: Path): (out: (FsState, bool))
    ensures out.1 <==> !Exists(s, p)
    ensures out.1 ==> out.0 == s.(files := s.files[p := []])
    ensures !out.1 ==> out.0 == s
  {
    if Exists(s, p) then (s, false) else (s.(files := s.files[p := []]), true)
  }

  /** File.delete(): a regular file or a link is removed, and so is a directory with nothing
      below it; a directory that still holds something stays, and so does its executable bit. */
  function DeleteFile(s: FsState, p: Path): (t: FsState)
    ensures t.files == s.files - {p} && t.links == s.links - {p}
    ensures s.dirs - {p} <= t.dirs <= s.dirs
    ensures t.executable - {p} == s.executable - {p}
    ensures Exists(t, p) <==> p in s.dirs && Occupied(s, p)
    ensures forall q :: q != p ==> (Exists(t, q) <==> Exists(s, q))
    ensures p in t.executable <==> p in s.executable && Exists(t, p)
    ensures t.jvmLocks == s.jvmLocks
  {
    var t := s.(files := s.files - {p}, links := s.links - {p});
    if p in s.dirs && Occupied(s, p) then t
    else t.(dirs := s.dirs - {p}, executable := s.executable - {p})
  }

  /** FileUtils.deleteDirectory(root): removes root and everything below it; the empty path
      names no file, so for it nothing is deleted. */
  function DeleteTree(s: FsState, root: Path): (t: FsState)
    ensures forall p :: Under(root, p) ==> !Exists(t, p)
    ensures forall p :: !Under(root, p) ==> (Exists(t, p) <==> Exists(s, p))
    ensures t.jvmLocks == s.jvmLocks
    ensures root == "" ==> t == s
  {
    if root == "" then s  // new File("").exists() is false: nothing is deleted
    else FsState(
      (set p | p in s.dirs && !Under(root, p)),
      (map p | p in s.files && !Under(root, p) :: s.files[p]),
      (map p | p in s.links && !Under(root, p) :: s.links[p]),
      (set p | p in s.executable && !Under(root, p)),
      s.jvmLocks)
  }

  /** A regular file, neither a directory nor a link, is at `p`. */
  predicate PlainFile(s: FsState, p: Path) {
    p in s.files && p !in s.dirs && p !in s.links
  }

  /** FileUtils.deleteDirectory(root): a missing root is left alone and a link is deleted
      without being followed; a directory is deleted with everything below it; for a regular
      file the cleaning step throws IllegalArgumentException before anything is deleted. */
  function DeleteDirectoryEffect(s: FsState, root: Path): (out: (FsState, Outcome))
    ensures out.1.Fail? <==> root != "" && PlainFile(s, root)
    ensures out.1.Fail? ==> out.0 == s && out.1.error == IllegalArgument(root + " is not a directory")
    ensures out.1.Pass? ==> forall p :: Under(root, p) ==> !Exists(out.0, p)
    ensures forall p :: !Under(root, p) ==> (Exists(out.0, p) <==> Exists(s, p))
    ensures out.1.Pass? ==> out.0 == DeleteTree(s, root)
  {
    if root != "" && PlainFile(s, root) then (s, Fail(IllegalArgument(root + " is not a directory")))
    else (DeleteTree(s, root), Pass)
  }

  /** Files.createSymbolicLink(p, target): fails when anything exists at p. */
  function CreateSymbolicLink(s: FsState, p: Path, target: Path): (out: (FsState, Outcome))
    ensures out.1.Pass? <==> !Exists(s, p)
    ensures out.1.Pass? ==> out.0 == s.(links := s.links[p := target])
    ensures out.1.Fail? ==> out.0 == s
  {
    if Exists(s, p) then (s, Fail(IOFailure("FileAlreadyExistsException: " + p, None)))
    else (s.(links := s.links[p := target]), Pass)
  }

  /** AsynchronousFileChannel.open(p, CREATE_NEW, WRITE) followed by a write of `content`,
      taken here as completed before the call returns. */
  function WriteNew(s: FsState, p: Path, content: seq<bv8>): (out: (FsState, Outcome))
    ensures out.1.Pass? <==> !Exists(s, p)
    ensures out.1.Pass? ==> out.0 == s.(files := s.files[p := content])
    ensures out.1.Fail? ==> out.0 == s
  {
    if Exists(s, p) then (s, Fail(IOFailure("FileAlreadyExistsException: " + p, None)))
    else (s.(files := s.files[p := content]), Pass)
  }

  /** File.setExecutable(true): answers false when nothing is at p. */
  function SetExecutable(s: FsState, p: Path): (out: (FsState, bool))
    ensures out.1 <==> Exists(s, p)
    ensures out.0 == if out.1 then s.(executable := s.executable + {p}) else s
  {
    if Exists(s, p) then (s.(executable := s.executable + {p}), true) else (s, false)
  }

  /** FileChannel.tryLock() on `p`: an overlapping lock already held by this JVM throws;
      a lock held by another process gives null (Ok(false)); otherwise the lock is taken. */
  function TryLock(s: FsState, p: Path, otherProcessHolds: bool): (out: (FsState, Result<bool>))
    ensures out.1 == Err(OverlappingLock) <==> p in s.jvmLocks
    ensures out.1 == Ok(true) <==> p !in s.jvmLocks && !otherProcessHolds
    ensures out.1 == Ok(true) ==> out.0 == s.(jvmLocks := s.jvmLocks + {p})
    ensures out.1 != Ok(true) ==> out.0 == s
  {
    if p in s.jvmLocks then (s, Err(OverlappingLock))
    else if otherProcessHolds then (s, Ok(false))
    else (s.(jvmLocks := s.jvmLocks + {p}), Ok(true))
  }

  /** The live filesystem. Every method performs one system call by applying the function
      above that describes that call to the current snapshot. */
  class FileSystem {
    var dirs: set<Path>
    var files: map<Path, seq<bv8>>
    var links: map<Path, Path>
    var executable: set<Path>
    var jvmLocks: set<Path>

    function State(): FsState
      reads this
    {
      FsState(dirs, files, links, executable, jvmLocks)
    }

    constructor (initial: FsState)
      ensures State() == initial
    {
      dirs, files, links := initial.dirs, initial.files, initial.links;
      executable, jvmLocks := initial.executable, initial.jvmLocks;
    }

    method Become(t: FsState)
      modifies this
      ensures State() == t
    {
      dirs, files, links, executable, jvmLocks := t.dirs, t.files, t.links, t.executable, t.jvmLocks;
    }

    method IsPresent(p: Path) returns (present: bool)
      ensures present == Exists(State(), p)
    {
      present := p in dirs || p in files || p in links;
    }

    method OpenOutputStream(p: Path) returns (o: Outcome)
      modifies this
      ensures (State(), o) == OpenForWrite(old(State()), p)
    {
      var out := OpenForWrite(State(), p);
      Become(out.0);
      o := out.1;
    }

    method CreateNew(p: Path) returns (created: bool)
      modifies this
      ensures (State(), created) == CreateNewFile(old(State()), p)
    {
      var out := CreateNewFile(State(), p);
      Become(out.0);
      created := out.1;
    }

    method Delete(p: Path)
      modifies this
      ensures State() == DeleteFile(old(State()), p)
    {
      Become(DeleteFile(State(), p));
    }

    method DeleteDirectory(root: Path) returns (o: Outcome)
      modifies this
      ensures (State(), o) == DeleteDirectoryEffect(old(State()), root)
    {
      var out := DeleteDirectoryEffect(State(), root);
      Become(out.0);
      o := out.1;
    }

    method Symlink(p: Path, target: Path) returns (o: Outcome)
      modifies this
      ensures (State(), o) == CreateSymbolicLink(old(State()), p, target)
    {
      var out := CreateSymbolicLink(State(), p, target);
      Become(out.0);
      o := out.1;
    }

    method Write(p: Path, content: seq<bv8>) returns (o: Outcome)
      modifies this
      ensures (State(), o) == WriteNew(old(State()), p, content)
    {
      var out := WriteNew(State(), p, content);
      Become(out.0);
      o := out.1;
    }

    method MakeExecutable(p: Path) returns (success: bool)
      modifies this
      ensures (State(), success) == SetExecutable(old(State()), p)
    {
      var out := SetExecutable(State(), p);
      Become(out.0);
      success := out.1;
    }

    method Lock(p: Path, otherProcessHolds: bool) returns (r: Result<bool>)
      modifies this
      ensures (State(), r) == TryLock(old(State()), p, otherProcessHolds)
    {
      var out := TryLock(State(), p, otherProcessHolds);
      Become(out.0);
      r := out.1;
    }

    /** FileLock.release(). */
    method Release(p: Path)
      modifies this
      ensures State() == old(State()).(jvmLocks := old(jvmLocks) - {p})
    {
      jvmLocks := jvmLocks - {p};
    }
  }
}
