/** Directory work on the replica outside the batch operations: deleting and
    creating lists of directories given relative to the replica root. A
    directory that is already gone (or already there) is skipped without a
    word; the first file system error ends the whole call, and the work done
    before it stays done. */
module DirectorySynchronizerService {
  import opened Wrappers
  import opened Text
  import opened Paths
  import opened Models
  import opened FileSystem

  const DeletePrefix := "Error while deleting directories: "
  const CreatePrefix := "Error while creating directories: "

  /** The message of `ArgumentNullException(paramName)`. */
  function NullArgumentMessage(paramName: string): string {
    "Value cannot be null. (Parameter '" + paramName + "')"
  }

  /** Deleting the directories in order, skipping those that do not exist,
      and stopping at the first call that throws: the state reached and the
      message of that exception, if any. */
  function DeleteEach(s: FsState, replicaPath: Path, paths: seq<Path>): (r: (FsState, Option<string>))
    decreases |paths|
  {
    if paths == [] then (s, None)
    else
      var fullPath := Combine(replicaPath, paths[0]);
      if fullPath !in s.dirs then DeleteEach(s, replicaPath, paths[1..])
      else
        var (next, error) := DeleteDirectoryRecursive(s, fullPath);
        if error.Some? then (next, error) else DeleteEach(next, replicaPath, paths[1..])
  }

  /** Creating the directories in order, skipping those that exist, and
      stopping at the first call that throws. */
  function CreateEach(s: FsState, replicaPath: Path, paths: seq<Path>): (r: (FsState, Option<string>))
    decreases |paths|
  {
    if paths == [] then (s, None)
    else
      var fullPath := Combine(replicaPath, paths[0]);
      if fullPath in s.dirs then CreateEach(s, replicaPath, paths[1..])
      else
        var (next, error) := CreateDirectory(s, fullPath);
        if error.Some? then (next, error) else CreateEach(next, replicaPath, paths[1..])
  }

  /** What `DeleteDirectories` does to the file system and returns. A null
      list and a blank replica root are argument errors, raised before any
      directory is touched; every error comes back as a failed `Result` with
      the operation's prefix. */
  function DeleteDirectoriesOutcome(s: FsState, replicaPath: string, directoriesToDelete: Option<seq<Path>>)
    : (r: (FsState, Status))
    ensures directoriesToDelete.None? ==> r == (s, Err(DeletePrefix + NullArgumentMessage("directoriesToDelete")))
    ensures directoriesToDelete.Some? && IsNullOrWhiteSpace(replicaPath) ==>
              r == (s, Err(DeletePrefix + NullArgumentMessage("_replicaPath")))
    ensures r.1.Ok? <==>
              directoriesToDelete.Some? && !IsNullOrWhiteSpace(replicaPath)
              && DeleteEach(s, replicaPath, directoriesToDelete.value).1.None?
    ensures r.1.Err? ==> StartsWith(r.1.message, DeletePrefix)
  {
    if directoriesToDelete.None? then (s, Err(DeletePrefix + NullArgumentMessage("directoriesToDelete")))
    else if IsNullOrWhiteSpace(replicaPath) then (s, Err(DeletePrefix + NullArgumentMessage("_replicaPath")))
    else
      var (next, error) := DeleteEach(s, replicaPath, directoriesToDelete.value);
      if error.Some? then (next, Err(DeletePrefix + error.value)) else (next, Ok)
  }

  /** What `CreateDirectories` does to the file system and returns. */
  function CreateDirectoriesOutcome(s: FsState, replicaPath: string, directoriesToCreate: Option<seq<Path>>)
    : (r: (FsState, Status))
    ensures directoriesToCreate.None? ==> r == (s, Err(CreatePrefix + NullArgumentMessage("directoriesToCreate")))
    ensures directoriesToCreate.Some? && IsNullOrWhiteSpace(replicaPath) ==>
              r == (s, Err(CreatePrefix + NullArgumentMessage("_replicaPath")))
    ensures r.1.Ok? <==>
              directoriesToCreate.Some? && !IsNullOrWhiteSpace(replicaPath)
              && CreateEach(s, replicaPath, directoriesToCreate.value).1.None?
    ensures r.1.Err? ==> StartsWith(r.1.message, CreatePrefix)
  {
    if directoriesToCreate.None? then (s, Err(CreatePrefix + NullArgumentMessage("directoriesToCreate")))
    else if IsNullOrWhiteSpace(replicaPath) then (s, Err(CreatePrefix + NullArgumentMessage("_replicaPath")))
    else
      var (next, error) := CreateEach(s, replicaPath, directoriesToCreate.value);
      if error.Some? then (next, Err(CreatePrefix + error.value)) else (next, Ok)
  }

  /** The service: the replica root from the configuration and the file
      system it works on. */
  class DirectorySynchronizer {
    const replicaPath: string
    const fs: FileSystem

    constructor (appConfig: AppConfig, fs: FileSystem)
      ensures replicaPath == appConfig.replicaPath && this.fs == fs
    {
      replicaPath := appConfig.replicaPath;
      this.fs := fs;
    }

    /** `DeleteDirectories`. */
    method DeleteDirectories(directoriesToDelete: Option<seq<Path>>) returns (r: Status)
      modifies fs
      ensures (fs.State(), r) == DeleteDirectoriesOutcome(old(fs.State()), replicaPath, directoriesToDelete)
    {
      if directoriesToDelete.None? {
        return Err(DeletePrefix + NullArgumentMessage("directoriesToDelete"));
      }
      if IsNullOrWhiteSpace(replicaPath) {
        return Err(DeletePrefix + NullArgumentMessage("_replicaPath"));
      }
      var paths := directoriesToDelete.value;
      ghost var outcome := DeleteEach(fs.State(), replicaPath, paths);
      for i := 0 to |paths|
        invariant DeleteEach(fs.State(), replicaPath, paths[i..]) == outcome
      {
        assert paths[i..][1..] == paths[i + 1..];
        var fullPathToDelete := Combine(replicaPath, paths[i]);
        var present := fs.DirectoryExists(Some(fullPathToDelete));
        if present {
          var error := fs.DeleteDirectory(fullPathToDelete);
          if error.Some? {
            return Err(DeletePrefix + error.value);
          }
        }
      }
      return Ok;
    }

    /** `CreateDirectories`. */
    method CreateDirectories(directoriesToCreate: Option<seq<Path>>) returns (r: Status)
      modifies fs
      ensures (fs.State(), r) == CreateDirectoriesOutcome(old(fs.State()), replicaPath, directoriesToCreate)
    {
      if directoriesToCreate.None? {
        return Err(CreatePrefix + NullArgumentMessage("directoriesToCreate"));
      }
      if IsNullOrWhiteSpace(replicaPath) {
        return Err(CreatePrefix + NullArgumentMessage("_replicaPath"));
      }
      var paths := directoriesToCreate.value;
      ghost var outcome := CreateEach(fs.State(), replicaPath, paths);
      for i := 0 to |paths|
        invariant CreateEach(fs.State(), replicaPath, paths[i..]) == outcome
      {
        assert paths[i..][1..] == paths[i + 1..];
        var fullPathToCreate := Combine(replicaPath, paths[i]);
        var present := fs.DirectoryExists(Some(fullPathToCreate));
        if !present {
          var error := fs.MakeDirectory(fullPathToCreate);
          if error.Some? {
            return Err(CreatePrefix + error.value);
          }
        }
      }
      return Ok;
    }
  }

  /** Deleting only removes: no file or directory appears, and the locked
      paths stay as they were. */
  lemma {:induction false} DeleteEachOnlyRemoves(s: FsState, replicaPath: Path, paths: seq<Path>)
    ensures var after := DeleteEach(s, replicaPath, paths).0;
            after.files.Keys <= s.files.Keys && after.dirs <= s.dirs && after.locked == s.locked
    decreases |paths|
  {
    if paths != [] {
      var fullPath := Combine(replicaPath, paths[0]);
      var next := if fullPath !in s.dirs then s else DeleteDirectoryRecursive(s, fullPath).0;
      DeleteEachOnlyRemoves(next, replicaPath, paths[1..]);
    }
  }

  /** When no call throws, none of the listed directories is left. */
  lemma {:induction false} DeleteEachRemovesEveryDirectory(s: FsState, replicaPath: Path, paths: seq<Path>)
    ensures var (after, error) := DeleteEach(s, replicaPath, paths);
            error.None? ==> forall i :: 0 <= i < |paths| ==> Combine(replicaPath, paths[i]) !in after.dirs
    decreases |paths|
  {
    if paths != [] {
      var fullPath := Combine(replicaPath, paths[0]);
      var next := if fullPath !in s.dirs then s else DeleteDirectoryRecursive(s, fullPath).0;
      DeleteEachRemovesEveryDirectory(next, replicaPath, paths[1..]);
      DeleteEachOnlyRemoves(next, replicaPath, paths[1..]);
      var (after, error) := DeleteEach(s, replicaPath, paths);
      if error.None? {
        assert Beneath(fullPath, fullPath);
        assert fullPath !in next.dirs;
        forall i | 0 <= i < |paths|
          ensures Combine(replicaPath, paths[i]) !in after.dirs
        {
          if i > 0 {
            assert paths[i] == paths[1..][i - 1];
          }
        }
      }
    }
  }

  /** Creating only adds directories and never touches files. When no call
      throws, every listed directory exists. */
  lemma {:induction false} CreateEachCreatesEveryDirectory(s: FsState, replicaPath: Path, paths: seq<Path>)
    ensures var (after, error) := CreateEach(s, replicaPath, paths);
            s.dirs <= after.dirs && after.files == s.files && after.locked == s.locked
            && (error.None? ==> forall i :: 0 <= i < |paths| ==> Combine(replicaPath, paths[i]) in after.dirs)
    decreases |paths|
  {
    if paths != [] {
      var fullPath := Combine(replicaPath, paths[0]);
      var next := if fullPath in s.dirs then s else CreateDirectory(s, fullPath).0;
      CreateEachCreatesEveryDirectory(next, replicaPath, paths[1..]);
      var (after, error) := CreateEach(s, replicaPath, paths);
      if error.None? {
        forall i | 0 <= i < |paths|
          ensures Combine(replicaPath, paths[i]) in after.dirs
        {
          if i > 0 {
            assert paths[i] == paths[1..][i - 1];
          }
        }
      }
    }
  }

  /** A list whose directories all exist is skipped entirely by creation. */
  lemma {:induction false} CreateEachSkipsExisting(s: FsState, replicaPath: Path, paths: seq<Path>)
    requires forall i :: 0 <= i < |paths| ==> Combine(replicaPath, paths[i]) in s.dirs
    ensures CreateEach(s, replicaPath, paths) == (s, None)
    decreases |paths|
  {
    if paths != [] {
      assert forall i :: 0 <= i < |paths[1..]| ==> paths[1..][i] == paths[i + 1];
      CreateEachSkipsExisting(s, replicaPath, paths[1..]);
    }
  }

  /** A list none of whose directories exists is skipped entirely by deletion. */
  lemma {:induction false} DeleteEachSkipsMissing(s: FsState, replicaPath: Path, paths: seq<Path>)
    requires forall i :: 0 <= i < |paths| ==> Combine(replicaPath, paths[i]) !in s.dirs
    ensures DeleteEach(s, replicaPath, paths) == (s, None)
    decreases |paths|
  {
    if paths != [] {
      assert forall i :: 0 <= i < |paths[1..]| ==> paths[1..][i] == paths[i + 1];
      DeleteEachSkipsMissing(s, replicaPath, paths[1..]);
    }
  }

  /** Creating the same directories again after a successful call succeeds
      and changes nothing. */
  lemma CreateDirectoriesIsIdempotent(s: FsState, replicaPath: string, paths: seq<Path>)
    requires CreateDirectoriesOutcome(s, replicaPath, Some(paths)).1.Ok?
    ensures var after := CreateDirectoriesOutcome(s, replicaPath, Some(paths)).0;
            CreateDirectoriesOutcome(after, replicaPath, Some(paths)) == (after, Ok)
  {
    CreateEachCreatesEveryDirectory(s, replicaPath, paths);
    CreateEachSkipsExisting(CreateEach(s, replicaPath, paths).0, replicaPath, paths);
  }

  /** Deleting the same directories again after a successful call succeeds
      and changes nothing. */
  lemma DeleteDirectoriesIsIdempotent(s: FsState, replicaPath: string, paths: seq<Path>)
    requires DeleteDirectoriesOutcome(s, replicaPath, Some(paths)).1.Ok?
    ensures var after := DeleteDirectoriesOutcome(s, replicaPath, Some(paths)).0;
            DeleteDirectoriesOutcome(after, replicaPath, Some(paths)) == (after, Ok)
  {
    DeleteEachRemovesEveryDirectory(s, replicaPath, paths);
    DeleteEachSkipsMissing(DeleteEach(s, replicaPath, paths).0, replicaPath, paths);
  }

  /** The deletion of the listed directories stopped at item `i`: every earlier
      item was handled without error, the call for item `i` threw, that error
      is the one reported, and nothing after `i` was touched, so the final
      state is the one reached just before `i`. */
  predicate DeleteStopsAt(s: FsState, replicaPath: Path, paths: seq<Path>, i: nat)
    requires i < |paths|
  {
    var before := DeleteEach(s, replicaPath, paths[..i]);
    before.1.None?
    && DeleteDirectoryRecursive(before.0, Combine(replicaPath, paths[i])).1.Some?
    && DeleteEach(s, replicaPath, paths) == (before.0, Some(IoErrorMessage(Combine(replicaPath, paths[i]))))
  }

  /** A stop at item `j` of the tail is a stop at item `j + 1` of the whole
      list when the first item raised no error. */
  lemma DeleteStopsAtShift(s: FsState, replicaPath: Path, paths: seq<Path>, j: nat)
    requires 0 < |paths| && j < |paths| - 1
    requires var fullPath := Combine(replicaPath, paths[0]);
             fullPath !in s.dirs || DeleteDirectoryRecursive(s, fullPath).1.None?
    requires var fullPath := Combine(replicaPath, paths[0]);
             var next := if fullPath !in s.dirs then s else DeleteDirectoryRecursive(s, fullPath).0;
             DeleteStopsAt(next, replicaPath, paths[1..], j)
    ensures DeleteStopsAt(s, replicaPath, paths, j + 1)
  {
    var fullPath := Combine(replicaPath, paths[0]);
    var next := if fullPath !in s.dirs then s else DeleteDirectoryRecursive(s, fullPath).0;
    var prefix := paths[..j + 1];
    assert prefix[0] == paths[0] && prefix[1..] == paths[1..][..j];
    assert DeleteEach(s, replicaPath, prefix) == DeleteEach(next, replicaPath, paths[1..][..j]);
    assert DeleteEach(s, replicaPath, paths) == DeleteEach(next, replicaPath, paths[1..]);
    assert paths[1..][j] == paths[j + 1];
  }

  /** A failed deletion stops at the first directory whose deletion throws. */
  lemma {:induction false} DeleteFailureNamesDirectory(s: FsState, replicaPath: Path, paths: seq<Path>)
    ensures DeleteEach(s, replicaPath, paths).1.Some? ==>
              exists i :: 0 <= i < |paths| && DeleteStopsAt(s, replicaPath, paths, i)
    decreases |paths|
  {
    if paths != [] && DeleteEach(s, replicaPath, paths).1.Some? {
      var fullPath := Combine(replicaPath, paths[0]);
      var step := DeleteDirectoryRecursive(s, fullPath);
      if fullPath in s.dirs && step.1.Some? {
        assert paths[..0] == [];
        assert DeleteStopsAt(s, replicaPath, paths, 0);
      } else {
        var next := if fullPath !in s.dirs then s else step.0;
        DeleteFailureNamesDirectory(next, replicaPath, paths[1..]);
        var j :| 0 <= j < |paths[1..]| && DeleteStopsAt(next, replicaPath, paths[1..], j);
        DeleteStopsAtShift(s, replicaPath, paths, j);
      }
    }
  }

  /** The creation of the listed directories stopped at item `i`: every earlier
      item was handled without error, the call for item `i` threw, that error
      is the one reported, and nothing after `i` was touched, so the final
      state is the one reached just before `i`. */
  predicate CreateStopsAt(s: FsState, replicaPath: Path, paths: seq<Path>, i: nat)
    requires i < |paths|
  {
    var before := CreateEach(s, replicaPath, paths[..i]);
    before.1.None?
    && CreateDirectory(before.0, Combine(replicaPath, paths[i])).1.Some?
    && CreateEach(s, replicaPath, paths) == (before.0, Some(IoErrorMessage(Combine(replicaPath, paths[i]))))
  }

  /** A stop at item `j` of the tail is a stop at item `j + 1` of the whole
      list when the first item raised no error. */
  lemma CreateStopsAtShift(s: FsState, replicaPath: Path, paths: seq<Path>, j: nat)
    requires 0 < |paths| && j < |paths| - 1
    requires var fullPath := Combine(replicaPath, paths[0]);
             fullPath in s.dirs || CreateDirectory(s, fullPath).1.None?
    requires var fullPath := Combine(replicaPath, paths[0]);
             var next := if fullPath in s.dirs then s else CreateDirectory(s, fullPath).0;
             CreateStopsAt(next, replicaPath, paths[1..], j)
    ensures CreateStopsAt(s, replicaPath, paths, j + 1)
  {
    var fullPath := Combine(replicaPath, paths[0]);
    var next := if fullPath in s.dirs then s else CreateDirectory(s, fullPath).0;
    var prefix := paths[..j + 1];
    assert prefix[0] == paths[0] && prefix[1..] == paths[1..][..j];
    assert CreateEach(s, replicaPath, prefix) == CreateEach(next, replicaPath, paths[1..][..j]);
    assert CreateEach(s, replicaPath, paths) == CreateEach(next, replicaPath, paths[1..]);
    assert paths[1..][j] == paths[j + 1];
  }

  /** A failed creation stops at the first directory whose creation throws. */
  lemma {:induction false} CreateFailureNamesDirectory(s: FsState, replicaPath: Path, paths: seq<Path>)
    ensures CreateEach(s, replicaPath, paths).1.Some? ==>
              exists i :: 0 <= i < |paths| && CreateStopsAt(s, replicaPath, paths, i)
    decreases |paths|
  {
    if paths != [] && CreateEach(s, replicaPath, paths).1.Some? {
      var fullPath := Combine(replicaPath, paths[0]);
      var step := CreateDirectory(s, fullPath);
      if fullPath !in s.dirs && step.1.Some? {
        assert paths[..0] == [];
        assert CreateStopsAt(s, replicaPath, paths, 0);
      } else {
        var next := if fullPath in s.dirs then s else step.0;
        CreateFailureNamesDirectory(next, replicaPath, paths[1..]);
        var j :| 0 <= j < |paths[1..]| && CreateStopsAt(next, replicaPath, paths[1..], j);
        CreateStopsAtShift(s, replicaPath, paths, j);
      }
    }
  }
}
