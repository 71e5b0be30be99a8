/** The two filesystem helpers every component mixes in: where the working directory is,
    and creating a directory that may already exist. */
module FileSystemAware {
  import opened Outcomes
  import opened Disk

  const WorkingDirProperty := "pmp.working-dir"
  const TmpDirProperty := "java.io.tmpdir"

  /** getWorkingDirectory(), with the JVM's system properties given as a map: the
      `pmp.working-dir` property when set, otherwise `embedded-pg` under the temporary
      directory (a relative `embedded-pg` when even `java.io.tmpdir` is unset), always in
      the normal form java.io.File gives it. */
  function GetWorkingDirectory(props: map<string, string>): (dir: FilePath)
    ensures WorkingDirProperty in props ==> dir == Normalize(props[WorkingDirProperty])
    ensures WorkingDirProperty !in props && TmpDirProperty in props ==>
      var tmp := Base(props[TmpDirProperty]);
      && dir == tmp + Joint(tmp) + "embedded-pg"
      && Parent(dir) == Some(tmp)
    ensures WorkingDirProperty !in props && TmpDirProperty !in props ==> dir == "embedded-pg"
  {
    var temporary := if TmpDirProperty in props then Child(props[TmpDirProperty], "embedded-pg") else "embedded-pg";
    var chosen := if WorkingDirProperty in props then props[WorkingDirProperty] else temporary;
    NormalizeFacts(chosen);
    TemporaryDirectoryFacts(props);
    Normalize(chosen)
  }

  /** The default location, `embedded-pg` resolved against `java.io.tmpdir`, is normal and
      lies directly in the temporary directory. */
  lemma TemporaryDirectoryFacts(props: map<string, string>)
    ensures Normal("embedded-pg")
    ensures TmpDirProperty in props ==>
      var tmp := Base(props[TmpDirProperty]);
      && Child(props[TmpDirProperty], "embedded-pg") == tmp + Joint(tmp) + "embedded-pg"
      && Normal(Child(props[TmpDirProperty], "embedded-pg"))
      && Parent(Child(props[TmpDirProperty], "embedded-pg")) == Some(tmp)
  {
    if TmpDirProperty in props {
      ChildOfSimple(props[TmpDirProperty], "embedded-pg");
    }
  }

  /** Only the normal form of each property matters: two property maps that set the same
      properties to values with the same normal form give the same working directory. */
  lemma WorkingDirectorySeesNormalForm(props: map<string, string>, other: map<string, string>)
    requires WorkingDirProperty in props <==> WorkingDirProperty in other
    requires WorkingDirProperty in props ==>
      Normalize(props[WorkingDirProperty]) == Normalize(other[WorkingDirProperty])
    requires TmpDirProperty in props <==> TmpDirProperty in other
    requires TmpDirProperty in props ==>
      Normalize(props[TmpDirProperty]) == Normalize(other[TmpDirProperty])
    ensures GetWorkingDirectory(props) == GetWorkingDirectory(other)
  {
    if WorkingDirProperty !in props && TmpDirProperty in props {
      NormalizeFacts(props[TmpDirProperty]);
      NormalizeFacts(other[TmpDirProperty]);
      assert Base(props[TmpDirProperty]) == Base(other[TmpDirProperty]);
    }
  }

  /** A temporary directory given with a trailing separator (`/tmp/`) yields the same
      working directory as without it (`/tmp/embedded-pg`). */
  lemma WorkingDirectoryIgnoresTrailingSeparator(props: map<string, string>, tmp: FilePath)
    requires WorkingDirProperty !in props && TmpDirProperty in props
    requires props[TmpDirProperty] == tmp + "/" && |tmp| > 1
    ensures GetWorkingDirectory(props) == tmp + "/" + "embedded-pg"
  {
    var s := tmp + "/";
    forall i | 0 <= i < |s| - 1
      ensures !Doubled(s, i)
    {
      if i + 1 < |tmp| {
        assert !Doubled(tmp, i);
      } else {
        assert s[i] == tmp[|tmp| - 1];
      }
    }
    CollapseFacts(s);
    assert s[..|s| - 1] == tmp;
    assert Base(s) == tmp;
    assert Joint(tmp) == "/";
  }

  /** The effect of mkdirs(directory): `File.mkdirs()` creates the directory when nothing is
      there and no file or link stands between it and its nearest existing ancestor
      directory; when it answers false the call still succeeds if a directory is already
      there, and otherwise throws IllegalStateException. */
  function MkdirsEffect(s: FsState, directory: Path): (out: (FsState, Outcome))
    ensures out.1.Pass? <==>
      directory in s.dirs || (directory !in s.files && directory !in s.links && !AncestorBlocked(s, directory))
    ensures out.1.Pass? ==> out.0 == s.(dirs := s.dirs + {directory})
    ensures out.1.Fail? ==> out.0 == s && out.1.error == IllegalState("Could not create " + directory)
  {
    if directory in s.dirs then (s, Pass)
    else if directory in s.files || directory in s.links || AncestorBlocked(s, directory) then
      (s, Fail(IllegalState("Could not create " + directory)))
    else (s.(dirs := s.dirs + {directory}), Pass)
  }

  /** mkdirs is idempotent: once it has succeeded, calling it again on the same path
      succeeds and changes nothing. */
  lemma MkdirsIdempotent(s: FsState, directory: Path)
    requires MkdirsEffect(s, directory).1.Pass?
    ensures var t := MkdirsEffect(s, directory).0;
      directory in t.dirs && MkdirsEffect(t, directory) == (t, Pass)
  {
    var t := MkdirsEffect(s, directory).0;
    assert t.dirs + {directory} == t.dirs;
  }

  /** A failed mkdirs leaves the filesystem alone, so it keeps failing the same way. */
  lemma MkdirsFailureStable(s: FsState, directory: Path)
    requires MkdirsEffect(s, directory).1.Fail?
    ensures MkdirsEffect(MkdirsEffect(s, directory).0, directory) == MkdirsEffect(s, directory)
  {
  }

  /** Below a regular file nothing can be created: mkdirs of a path whose parent is a file
      throws, and so does mkdirs of anything further below. */
  lemma MkdirsBelowFileFails(s: FsState, file: Path, directory: Path)
    requires file in s.files && file !in s.dirs
    requires Parent(directory) == Some(file) && directory !in s.dirs
    ensures MkdirsEffect(s, directory).1 == Fail(IllegalState("Could not create " + directory))
    ensures forall name ::
      (SimpleName(name) && Child(directory, name) !in s.dirs && Parent(Child(directory, name)) == Some(directory))
        ==> MkdirsEffect(s, Child(directory, name)).1.Fail?
  {
  }

  method Mkdirs(fs: FileSystem, directory: Path) returns (o: Outcome)
    modifies fs
    ensures (fs.State(), o) == MkdirsEffect(old(fs.State()), directory)
  {
    var out := MkdirsEffect(fs.State(), directory);
    fs.Become(out.0);
    o := out.1;
  }
}
