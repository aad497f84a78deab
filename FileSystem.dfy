/** The file system the file operations act on, as far as `System.IO.File`
    and `System.IO.Directory` behave observably for the core: which files
    exist (with their content and read-only flag), which directories exist,
    and which paths an operation fails on for reasons outside the program
    (permissions, locks, a full disk). Each .NET call is a function from a
    state to the next state and, when the call throws, the exception's
    message; the class `FileSystem` performs those calls in place. */
module FileSystem {
  import opened Wrappers
  import opened Text
  import opened Paths

  datatype FileEntry = FileEntry(content: string, readOnly: bool)

  datatype FsState = FsState(files: map<Path, FileEntry>, dirs: set<Path>, locked: set<Path>) {
    /** No path is both a file and a directory. */
    predicate Valid() {
      files.Keys !! dirs
    }
  }

  /** The message of an exception thrown by a file system call on `path`.
      The wording .NET uses is not modelled; only that the message names the path. */
  function IoErrorMessage(path: Path): (m: string)
    ensures |path| < |m| && m[|m| - |path|..] == path
  {
    "I/O error on " + path
  }

  /** `Directory.Exists(path)`, where a null path (`None`) does not exist. */
  predicate IsDirectory(s: FsState, path: Option<Path>) {
    path.Some? && path.value in s.dirs
  }

  /** The directory a new file at `path` would be created in exists. */
  predicate ParentExists(s: FsState, path: Path) {
    IsDirectory(s, DirectoryName(path))
  }

  /** `new FileInfo(path)`, then `IsReadOnly = false` when it was set. */
  function ClearReadOnly(s: FsState, path: Path): (r: FsState)
    ensures r.dirs == s.dirs && r.locked == s.locked && r.files.Keys == s.files.Keys
    ensures path in s.files ==> r.files == s.files[path := FileEntry(s.files[path].content, false)]
    ensures path !in s.files ==> r == s
  {
    if path in s.files && s.files[path].readOnly then
      s.(files := s.files[path := s.files[path].(readOnly := false)])
    else s
  }

  /** `File.Move(source, destination)` without overwriting: the file changes
      its path and keeps its content and attributes. It throws when the
      source is missing, the destination is taken by a file or a directory,
      the destination's directory is missing, or either path is locked. */
  function MoveFile(s: FsState, source: Path, destination: Path): (r: (FsState, Option<string>))
    ensures r.1.None? <==>
              source in s.files && destination !in s.files && destination !in s.dirs
              && ParentExists(s, destination) && source !in s.locked && destination !in s.locked
    ensures r.1.Some? ==> r.0 == s
    ensures r.1.None? ==>
              r.0 == s.(files := s.files - {source} + map[destination := s.files[source]])
  {
    if source !in s.files then (s, Some(IoErrorMessage(source)))
    else if destination in s.files || destination in s.dirs || !ParentExists(s, destination) then
      (s, Some(IoErrorMessage(destination)))
    else if source in s.locked then (s, Some(IoErrorMessage(source)))
    else if destination in s.locked then (s, Some(IoErrorMessage(destination)))
    else (s.(files := s.files - {source} + map[destination := s.files[source]]), None)
  }

  /** `File.Copy(source, destination, overwrite: true)`: the destination gets
      the source's content and attributes, replacing an existing file. It
      throws when the source is missing, the destination is a directory or
      its directory is missing, or either path is locked. */
  function CopyFile(s: FsState, source: Path, destination: Path): (r: (FsState, Option<string>))
    ensures r.1.None? <==>
              source in s.files && destination !in s.dirs && ParentExists(s, destination)
              && source !in s.locked && destination !in s.locked
    ensures r.1.Some? ==> r.0 == s
    ensures r.1.None? ==> r.0 == s.(files := s.files[destination := s.files[source]])
  {
    if source !in s.files then (s, Some(IoErrorMessage(source)))
    else if destination in s.dirs || !ParentExists(s, destination) then (s, Some(IoErrorMessage(destination)))
    else if source in s.locked then (s, Some(IoErrorMessage(source)))
    else if destination in s.locked then (s, Some(IoErrorMessage(destination)))
    else (s.(files := s.files[destination := s.files[source]]), None)
  }

  /** `File.Delete(path)`: removes the file; a missing file is not an error.
      It throws when the path is a directory or is locked. */
  function DeleteFile(s: FsState, path: Path): (r: (FsState, Option<string>))
    ensures r.1.None? <==> path !in s.dirs && path !in s.locked
    ensures r.1.Some? ==> r.0 == s
    ensures r.1.None? ==> r.0 == s.(files := s.files - {path})
  {
    if path in s.dirs || path in s.locked then (s, Some(IoErrorMessage(path)))
    else (s.(files := s.files - {path}), None)
  }

  /** The locked paths inside directory `dir`, the directory included. */
  function LockedBeneath(s: FsState, dir: Path): set<Path> {
    set q | q in s.locked && Beneath(dir, q)
  }

  /** `Directory.Delete(path, recursive: true)`: removes the directory with
      every file and directory under it. It throws when the directory is
      missing or anything inside it is locked. */
  function DeleteDirectoryRecursive(s: FsState, path: Path): (r: (FsState, Option<string>))
    ensures r.1.None? <==> path in s.dirs && LockedBeneath(s, path) == {}
    ensures r.1.Some? ==> r.0 == s
    ensures r.1.None? ==>
              r.0.locked == s.locked
              && (forall q :: q in r.0.files <==> q in s.files && !Beneath(path, q))
              && (forall q :: q in r.0.files ==> r.0.files[q] == s.files[q])
              && (forall q :: q in r.0.dirs <==> q in s.dirs && !Beneath(path, q))
  {
    if path !in s.dirs || LockedBeneath(s, path) != {} then (s, Some(IoErrorMessage(path)))
    else
      var files := map q | q in s.files && !Beneath(path, q) :: s.files[q];
      var dirs := set q | q in s.dirs && !Beneath(path, q);
      (FsState(files, dirs, s.locked), None)
  }

  /** `Directory.CreateDirectory(path)`: creates the directory and every
      missing ancestor; an existing directory is left as it is. It throws for
      an empty path, when the path or one of its ancestors is a file, or when
      the path is locked. */
  function CreateDirectory(s: FsState, path: Path): (r: (FsState, Option<string>))
    ensures r.1.None? <==>
              path != "" && path !in s.files && Ancestors(path) !! s.files.Keys && path !in s.locked
    ensures r.1.Some? ==> r.0 == s
    ensures r.1.None? ==> r.0 == s.(dirs := s.dirs + {path} + Ancestors(path))
  {
    if path == "" || path in s.files || !(Ancestors(path) !! s.files.Keys) || path in s.locked then
      (s, Some(IoErrorMessage(path)))
    else (s.(dirs := s.dirs + {path} + Ancestors(path)), None)
  }

  /** No call ever makes a path both a file and a directory, and none changes
      which paths are locked. */
  lemma OperationsKeepValid(s: FsState, a: Path, b: Path)
    requires s.Valid()
    ensures ClearReadOnly(s, a).Valid()
    ensures MoveFile(s, a, b).0.Valid() && MoveFile(s, a, b).0.locked == s.locked
    ensures CopyFile(s, a, b).0.Valid() && CopyFile(s, a, b).0.locked == s.locked
    ensures DeleteFile(s, a).0.Valid() && DeleteFile(s, a).0.locked == s.locked
    ensures DeleteDirectoryRecursive(s, a).0.Valid() && DeleteDirectoryRecursive(s, a).0.locked == s.locked
    ensures CreateDirectory(s, a).0.Valid() && CreateDirectory(s, a).0.locked == s.locked
  {
    var c := CreateDirectory(s, a);
    if c.1.None? {
      forall q | q in c.0.dirs ensures q !in c.0.files {
        if q in Ancestors(a) {
          assert q !in s.files.Keys;
        }
      }
    }
  }

  /** The machine's file system, changed in place by the .NET calls. */
  class FileSystem {
    var files: map<Path, FileEntry>
    var dirs: set<Path>
    var locked: set<Path>

    function State(): FsState
      reads this
    {
      FsState(files, dirs, locked)
    }

    constructor (initial: FsState)
      ensures State() == initial
    {
      files := initial.files;
      dirs := initial.dirs;
      locked := initial.locked;
    }

    /** `File.Exists(path)`: true for files only, never for directories. */
    method FileExists(path: Path) returns (b: bool)
      ensures b <==> path in State().files
    {
      b := path in files;
    }

    /** `Directory.Exists(path)`: true for directories only; false for null. */
    method DirectoryExists(path: Option<Path>) returns (b: bool)
      ensures b <==> IsDirectory(State(), path)
    {
      b := path.Some? && path.value in dirs;
    }

    method SetFileAsWritable(path: Path)
      modifies this
      ensures State() == ClearReadOnly(old(State()), path)
    {
      if path in files && files[path].readOnly {
        files := files[path := files[path].(readOnly := false)];
      }
    }

    method Move(source: Path, destination: Path) returns (error: Option<string>)
      modifies this
      ensures (State(), error) == MoveFile(old(State()), source, destination)
    {
      var next := MoveFile(State(), source, destination);
      files, dirs, locked := next.0.files, next.0.dirs, next.0.locked;
      error := next.1;
    }

    method Copy(source: Path, destination: Path) returns (error: Option<string>)
      modifies this
      ensures (State(), error) == CopyFile(old(State()), source, destination)
    {
      var next := CopyFile(State(), source, destination);
      files, dirs, locked := next.0.files, next.0.dirs, next.0.locked;
      error := next.1;
    }

    method Delete(path: Path) returns (error: Option<string>)
      modifies this
      ensures (State(), error) == DeleteFile(old(State()), path)
    {
      var next := DeleteFile(State(), path);
      files, dirs, locked := next.0.files, next.0.dirs, next.0.locked;
      error := next.1;
    }

    method DeleteDirectory(path: Path) returns (error: Option<string>)
      modifies this
      ensures (State(), error) == DeleteDirectoryRecursive(old(State()), path)
    {
      var next := DeleteDirectoryRecursive(State(), path);
      files, dirs, locked := next.0.files, next.0.dirs, next.0.locked;
      error := next.1;
    }

    method MakeDirectory(path: Path) returns (error: Option<string>)
      modifies this
      ensures (State(), error) == CreateDirectory(old(State()), path)
    {
      var next := CreateDirectory(State(), path);
      files, dirs, locked := next.0.files, next.0.dirs, next.0.locked;
      error := next.1;
    }
  }
}
