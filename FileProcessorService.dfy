/** The five batch file operations. Each walks its list in order, checks the
    item's precondition, performs one file system call, and records the item
    as processed or as failed with a reason: a failed precondition is
    reported with a fixed message and skips the call, a call that throws is
    reported with the exception's message, and neither stops the batch. */
module FileProcessorService {
  import opened Wrappers
  import opened Paths
  import opened Models
  import opened FileSystem

  const SourceFileMissing := "Source file does not exist."
  const DestinationFileExists := "Destination file already exists."
  const DestinationDirectoryMissing := "Destination directory does not exist."
  const FileMissing := "File does not exist."
  const DirectoryMissing := "Directory does not exist."
  const DirectoryAlreadyExists := "Directory already exists."

  /** What `CheckFileConditions` answers: the source file must exist and,
      when a destination is given, no file may sit at it and its directory
      must exist; the first violated condition names the failure. */
  function FileConditions(s: FsState, sourcePath: Path, destinationPath: Option<Path>): (r: (bool, string))
    ensures r.0 <==>
              sourcePath in s.files
              && (destinationPath.Some? ==>
                    destinationPath.value !in s.files && ParentExists(s, destinationPath.value))
    ensures r.0 ==> r.1 == ""
    ensures sourcePath !in s.files ==> r.1 == SourceFileMissing
    ensures sourcePath in s.files && destinationPath.Some? && destinationPath.value in s.files ==>
              r.1 == DestinationFileExists
    ensures (sourcePath in s.files && destinationPath.Some? && destinationPath.value !in s.files
             && !ParentExists(s, destinationPath.value)) ==> r.1 == DestinationDirectoryMissing
  {
    if sourcePath !in s.files then (false, SourceFileMissing)
    else if destinationPath.Some? && destinationPath.value in s.files then (false, DestinationFileExists)
    else if destinationPath.Some? && !ParentExists(s, destinationPath.value) then (false, DestinationDirectoryMissing)
    else (true, "")
  }

  /** `CheckFileConditions`, asking the file system. */
  method CheckFileConditions(fs: FileSystem, sourcePath: Path, destinationPath: Option<Path>)
    returns (conditionMet: bool, errorMessage: string)
    ensures (conditionMet, errorMessage) == FileConditions(fs.State(), sourcePath, destinationPath)
  {
    var sourceExists := fs.FileExists(sourcePath);
    if !sourceExists {
      return false, SourceFileMissing;
    }
    if destinationPath.Some? {
      var destinationExists := fs.FileExists(destinationPath.value);
      if destinationExists {
        return false, DestinationFileExists;
      }
      var destinationDirectory := DirectoryName(destinationPath.value);
      var directoryExists := fs.DirectoryExists(destinationDirectory);
      if !directoryExists {
        return false, DestinationDirectoryMissing;
      }
    }
    return true, "";
  }

  /** How one item of a batch ended. */
  datatype Outcome = Done | Failed(reason: string)

  function OutcomeOf(error: Option<string>): Outcome {
    if error.None? then Done else Failed(error.value)
  }

  datatype PairOperation = Move | Copy
  datatype PathOperation = DeleteFileOperation | DeleteDirectoryOperation | CreateDirectoryOperation

  /** One (source, destination) item of `MoveFiles` or `CopyFiles`. A move
      clears the source's read-only flag before it moves the file. */
  function PairStep(op: PairOperation, s: FsState, source: Path, destination: Path): (r: (FsState, Outcome))
  {
    var (conditionMet, errorMessage) := FileConditions(s, source, Some(destination));
    if !conditionMet then (s, Failed(errorMessage))
    else
      match op
      case Move =>
        var (next, error) := MoveFile(ClearReadOnly(s, source), source, destination);
        (next, OutcomeOf(error))
      case Copy =>
        var (next, error) := CopyFile(s, source, destination);
        (next, OutcomeOf(error))
  }

  /** One path of `DeleteFiles`, `DeleteDirectories` or `CreateDirectories`. */
  function PathStep(op: PathOperation, s: FsState, path: Path): (r: (FsState, Outcome))
  {
    match op
    case DeleteFileOperation =>
      if path !in s.files then (s, Failed(FileMissing))
      else
        var (next, error) := DeleteFile(ClearReadOnly(s, path), path);
        (next, OutcomeOf(error))
    case DeleteDirectoryOperation =>
      if path !in s.dirs then (s, Failed(DirectoryMissing))
      else
        var (next, error) := DeleteDirectoryRecursive(s, path);
        (next, OutcomeOf(error))
    case CreateDirectoryOperation =>
      if path in s.dirs then (s, Failed(DirectoryAlreadyExists))
      else
        var (next, error) := CreateDirectory(s, path);
        (next, OutcomeOf(error))
  }

  function RecordPair(result: FileProcessorResult, source: Path, destination: Path, outcome: Outcome): FileProcessorResult {
    match outcome
    case Done => result.(successfullyProcessedTuples := result.successfullyProcessedTuples + [(source, destination)])
    case Failed(reason) => result.(failedToProcessTuples := result.failedToProcessTuples + [(source, destination, reason)])
  }

  function RecordPath(result: FileProcessorResult, path: Path, outcome: Outcome): FileProcessorResult {
    match outcome
    case Done => result.(successfullyProcessed := result.successfullyProcessed + [path])
    case Failed(reason) => result.(failedToProcess := result.failedToProcess + [(path, reason)])
  }

  /** A whole pair batch: the state after the last item and the report. */
  function PairBatch(op: PairOperation, s: FsState, pairs: seq<(Path, Path)>): (r: (FsState, FileProcessorResult))
    decreases |pairs|
  {
    if pairs == [] then (s, EmptyResult)
    else
      var (before, result) := PairBatch(op, s, pairs[..|pairs| - 1]);
      var (source, destination) := pairs[|pairs| - 1];
      var (after, outcome) := PairStep(op, before, source, destination);
      (after, RecordPair(result, source, destination, outcome))
  }

  /** A whole path batch: the state after the last item and the report. */
  function PathBatch(op: PathOperation, s: FsState, paths: seq<Path>): (r: (FsState, FileProcessorResult))
    decreases |paths|
  {
    if paths == [] then (s, EmptyResult)
    else
      var (before, result) := PathBatch(op, s, paths[..|paths| - 1]);
      var path := paths[|paths| - 1];
      var (after, outcome) := PathStep(op, before, path);
      (after, RecordPath(result, path, outcome))
  }

  lemma PairBatchSnoc(op: PairOperation, s: FsState, pairs: seq<(Path, Path)>, i: nat)
    requires i < |pairs|
    ensures var (before, result) := PairBatch(op, s, pairs[..i]);
            var step := PairStep(op, before, pairs[i].0, pairs[i].1);
            PairBatch(op, s, pairs[..i + 1]) == (step.0, RecordPair(result, pairs[i].0, pairs[i].1, step.1))
  {
    assert pairs[..i + 1][..i] == pairs[..i];
  }

  lemma PathBatchSnoc(op: PathOperation, s: FsState, paths: seq<Path>, i: nat)
    requires i < |paths|
    ensures var (before, result) := PathBatch(op, s, paths[..i]);
            var step := PathStep(op, before, paths[i]);
            PathBatch(op, s, paths[..i + 1]) == (step.0, RecordPath(result, paths[i], step.1))
  {
    assert paths[..i + 1][..i] == paths[..i];
  }

  /** How the last pair of a non-empty batch ended. */
  function LastPairOutcome(op: PairOperation, s: FsState, pairs: seq<(Path, Path)>): Outcome
    requires pairs != []
  {
    var last := pairs[|pairs| - 1];
    PairStep(op, PairBatch(op, s, pairs[..|pairs| - 1]).0, last.0, last.1).1
  }

  /** How the last path of a non-empty batch ended. */
  function LastPathOutcome(op: PathOperation, s: FsState, paths: seq<Path>): Outcome
    requires paths != []
  {
    PathStep(op, PathBatch(op, s, paths[..|paths| - 1]).0, paths[|paths| - 1]).1
  }

  /** The report of a non-empty pair batch is its prefix's report plus the last pair. */
  lemma PairReportSnoc(op: PairOperation, s: FsState, pairs: seq<(Path, Path)>)
    requires pairs != []
    ensures var last := pairs[|pairs| - 1];
            PairBatch(op, s, pairs).1
            == RecordPair(PairBatch(op, s, pairs[..|pairs| - 1]).1, last.0, last.1, LastPairOutcome(op, s, pairs))
  {
  }

  /** The report of a non-empty path batch is its prefix's report plus the last path. */
  lemma PathReportSnoc(op: PathOperation, s: FsState, paths: seq<Path>)
    requires paths != []
    ensures PathBatch(op, s, paths).1
            == RecordPath(PathBatch(op, s, paths[..|paths| - 1]).1, paths[|paths| - 1], LastPathOutcome(op, s, paths))
  {
  }

  /** `MoveFiles`. */
  method MoveFiles(fs: FileSystem, absolutePathsToMove: seq<(Path, Path)>) returns (result: FileProcessorResult)
    modifies fs
    ensures (fs.State(), result) == PairBatch(Move, old(fs.State()), absolutePathsToMove)
  {
    ghost var initial := fs.State();
    result := EmptyResult;
    for i := 0 to |absolutePathsToMove|
      invariant (fs.State(), result) == PairBatch(Move, initial, absolutePathsToMove[..i])
    {
      PairBatchSnoc(Move, initial, absolutePathsToMove, i);
      var (sourcePath, destPath) := absolutePathsToMove[i];
      var conditionMet, errorMessage := CheckFileConditions(fs, sourcePath, Some(destPath));
      if !conditionMet {
        result := result.(failedToProcessTuples := result.failedToProcessTuples + [(sourcePath, destPath, errorMessage)]);
      } else {
        fs.SetFileAsWritable(sourcePath);
        var error := fs.Move(sourcePath, destPath);
        if error.None? {
          result := result.(successfullyProcessedTuples := result.successfullyProcessedTuples + [(sourcePath, destPath)]);
        } else {
          result := result.(failedToProcessTuples := result.failedToProcessTuples + [(sourcePath, destPath, error.value)]);
        }
      }
    }
    assert absolutePathsToMove[..|absolutePathsToMove|] == absolutePathsToMove;
  }

  /** `CopyFiles`. */
  method CopyFiles(fs: FileSystem, absolutePathsToCopy: seq<(Path, Path)>) returns (result: FileProcessorResult)
    modifies fs
    ensures (fs.State(), result) == PairBatch(Copy, old(fs.State()), absolutePathsToCopy)
  {
    ghost var initial := fs.State();
    result := EmptyResult;
    for i := 0 to |absolutePathsToCopy|
      invariant (fs.State(), result) == PairBatch(Copy, initial, absolutePathsToCopy[..i])
    {
      PairBatchSnoc(Copy, initial, absolutePathsToCopy, i);
      var (sourcePath, destPath) := absolutePathsToCopy[i];
      var conditionMet, errorMessage := CheckFileConditions(fs, sourcePath, Some(destPath));
      if !conditionMet {
        result := result.(failedToProcessTuples := result.failedToProcessTuples + [(sourcePath, destPath, errorMessage)]);
      } else {
        var error := fs.Copy(sourcePath, destPath);
        if error.None? {
          result := result.(successfullyProcessedTuples := result.successfullyProcessedTuples + [(sourcePath, destPath)]);
        } else {
          result := result.(failedToProcessTuples := result.failedToProcessTuples + [(sourcePath, destPath, error.value)]);
        }
      }
    }
    assert absolutePathsToCopy[..|absolutePathsToCopy|] == absolutePathsToCopy;
  }

  /** `DeleteFiles`. */
  method DeleteFiles(fs: FileSystem, absolutePathsToDelete: seq<Path>) returns (result: FileProcessorResult)
    modifies fs
    ensures (fs.State(), result) == PathBatch(DeleteFileOperation, old(fs.State()), absolutePathsToDelete)
  {
    ghost var initial := fs.State();
    result := EmptyResult;
    for i := 0 to |absolutePathsToDelete|
      invariant (fs.State(), result) == PathBatch(DeleteFileOperation, initial, absolutePathsToDelete[..i])
    {
      PathBatchSnoc(DeleteFileOperation, initial, absolutePathsToDelete, i);
      var path := absolutePathsToDelete[i];
      var present := fs.FileExists(path);
      if !present {
        result := result.(failedToProcess := result.failedToProcess + [(path, FileMissing)]);
      } else {
        fs.SetFileAsWritable(path);
        var error := fs.Delete(path);
        if error.None? {
          result := result.(successfullyProcessed := result.successfullyProcessed + [path]);
        } else {
          result := result.(failedToProcess := result.failedToProcess + [(path, error.value)]);
        }
      }
    }
    assert absolutePathsToDelete[..|absolutePathsToDelete|] == absolutePathsToDelete;
  }

  /** `DeleteDirectories`: each directory goes with everything inside it. */
  method DeleteDirectories(fs: FileSystem, absolutePathsToDelete: seq<Path>) returns (result: FileProcessorResult)
    modifies fs
    ensures (fs.State(), result) == PathBatch(DeleteDirectoryOperation, old(fs.State()), absolutePathsToDelete)
  {
    ghost var initial := fs.State();
    result := EmptyResult;
    for i := 0 to |absolutePathsToDelete|
      invariant (fs.State(), result) == PathBatch(DeleteDirectoryOperation, initial, absolutePathsToDelete[..i])
    {
      PathBatchSnoc(DeleteDirectoryOperation, initial, absolutePathsToDelete, i);
      var path := absolutePathsToDelete[i];
      var present := fs.DirectoryExists(Some(path));
      if !present {
        result := result.(failedToProcess := result.failedToProcess + [(path, DirectoryMissing)]);
      } else {
        var error := fs.DeleteDirectory(path);
        if error.None? {
          result := result.(successfullyProcessed := result.successfullyProcessed + [path]);
        } else {
          result := result.(failedToProcess := result.failedToProcess + [(path, error.value)]);
        }
      }
    }
    assert absolutePathsToDelete[..|absolutePathsToDelete|] == absolutePathsToDelete;
  }

  /** `CreateDirectories`: each directory is created with its missing ancestors. */
  method CreateDirectories(fs: FileSystem, absolutePathsToCreate: seq<Path>) returns (result: FileProcessorResult)
    modifies fs
    ensures (fs.State(), result) == PathBatch(CreateDirectoryOperation, old(fs.State()), absolutePathsToCreate)
  {
    ghost var initial := fs.State();
    result := EmptyResult;
    for i := 0 to |absolutePathsToCreate|
      invariant (fs.State(), result) == PathBatch(CreateDirectoryOperation, initial, absolutePathsToCreate[..i])
    {
      PathBatchSnoc(CreateDirectoryOperation, initial, absolutePathsToCreate, i);
      var path := absolutePathsToCreate[i];
      var present := fs.DirectoryExists(Some(path));
      if present {
        result := result.(failedToProcess := result.failedToProcess + [(path, DirectoryAlreadyExists)]);
      } else {
        var error := fs.MakeDirectory(path);
        if error.None? {
          result := result.(successfullyProcessed := result.successfullyProcessed + [path]);
        } else {
          result := result.(failedToProcess := result.failedToProcess + [(path, error.value)]);
        }
      }
    }
    assert absolutePathsToCreate[..|absolutePathsToCreate|] == absolutePathsToCreate;
  }

  /** The (source, destination) part of each failure record. */
  function FailedPairs(failures: seq<(Path, Path, string)>): (r: seq<(Path, Path)>)
    ensures |r| == |failures|
  {
    if failures == [] then []
    else
      var last := failures[|failures| - 1];
      FailedPairs(failures[..|failures| - 1]) + [(last.0, last.1)]
  }

  /** The path part of each failure record. */
  function FailedPaths(failures: seq<(Path, string)>): (r: seq<Path>)
    ensures |r| == |failures|
  {
    if failures == [] then []
    else FailedPaths(failures[..|failures| - 1]) + [failures[|failures| - 1].0]
  }

  /** Every pair of `pairs` is reported exactly once, as processed or as
      failed, and the two single-path lists are empty. */
  predicate PairsAccounted(r: FileProcessorResult, pairs: seq<(Path, Path)>) {
    r.successfullyProcessed == [] && r.failedToProcess == []
    && multiset(r.successfullyProcessedTuples) + multiset(FailedPairs(r.failedToProcessTuples)) == multiset(pairs)
    && |r.successfullyProcessedTuples| + |r.failedToProcessTuples| == |pairs|
  }

  /** Every path of `paths` is reported exactly once, as processed or as
      failed, and the two pair lists are empty. */
  predicate PathsAccounted(r: FileProcessorResult, paths: seq<Path>) {
    r.successfullyProcessedTuples == [] && r.failedToProcessTuples == []
    && multiset(r.successfullyProcessed) + multiset(FailedPaths(r.failedToProcess)) == multiset(paths)
    && |r.successfullyProcessed| + |r.failedToProcess| == |paths|
  }

  /** Recording one more pair keeps the report accounting for every pair. */
  lemma RecordPairAccounts(r: FileProcessorResult, pairs: seq<(Path, Path)>, pair: (Path, Path), outcome: Outcome)
    requires PairsAccounted(r, pairs)
    ensures PairsAccounted(RecordPair(r, pair.0, pair.1, outcome), pairs + [pair])
  {
    assert multiset(pairs + [pair]) == multiset(pairs) + multiset{pair};
    if outcome.Failed? {
      var failures := r.failedToProcessTuples + [(pair.0, pair.1, outcome.reason)];
      assert failures[..|failures| - 1] == r.failedToProcessTuples;
      assert FailedPairs(failures) == FailedPairs(r.failedToProcessTuples) + [pair];
      assert multiset(FailedPairs(failures)) == multiset(FailedPairs(r.failedToProcessTuples)) + multiset{pair};
    } else {
      var done := r.successfullyProcessedTuples + [pair];
      assert multiset(done) == multiset(r.successfullyProcessedTuples) + multiset{pair};
    }
  }

  /** Recording one more path keeps the report accounting for every path. */
  lemma RecordPathAccounts(r: FileProcessorResult, paths: seq<Path>, path: Path, outcome: Outcome)
    requires PathsAccounted(r, paths)
    ensures PathsAccounted(RecordPath(r, path, outcome), paths + [path])
  {
    assert multiset(paths + [path]) == multiset(paths) + multiset{path};
    if outcome.Failed? {
      var failures := r.failedToProcess + [(path, outcome.reason)];
      assert failures[..|failures| - 1] == r.failedToProcess;
      assert FailedPaths(failures) == FailedPaths(r.failedToProcess) + [path];
      assert multiset(FailedPaths(failures)) == multiset(FailedPaths(r.failedToProcess)) + multiset{path};
    } else {
      var done := r.successfullyProcessed + [path];
      assert multiset(done) == multiset(r.successfullyProcessed) + multiset{path};
    }
  }

  /** The outcome of every pair of a batch, in order. */
  function PairOutcomes(op: PairOperation, s: FsState, pairs: seq<(Path, Path)>): (r: seq<Outcome>)
    ensures |r| == |pairs|
    decreases |pairs|
  {
    if pairs == [] then [] else PairOutcomes(op, s, pairs[..|pairs| - 1]) + [LastPairOutcome(op, s, pairs)]
  }

  /** The outcome of every path of a batch, in order. */
  function PathOutcomes(op: PathOperation, s: FsState, paths: seq<Path>): (r: seq<Outcome>)
    ensures |r| == |paths|
    decreases |paths|
  {
    if paths == [] then [] else PathOutcomes(op, s, paths[..|paths| - 1]) + [LastPathOutcome(op, s, paths)]
  }

  /** The report that records `pairs` with the given outcomes, in order. */
  function PairReport(pairs: seq<(Path, Path)>, outcomes: seq<Outcome>): FileProcessorResult
    requires |outcomes| == |pairs|
    decreases |pairs|
  {
    if pairs == [] then EmptyResult
    else
      var n := |pairs| - 1;
      RecordPair(PairReport(pairs[..n], outcomes[..n]), pairs[n].0, pairs[n].1, outcomes[n])
  }

  /** The report that records `paths` with the given outcomes, in order. */
  function PathReport(paths: seq<Path>, outcomes: seq<Outcome>): FileProcessorResult
    requires |outcomes| == |paths|
    decreases |paths|
  {
    if paths == [] then EmptyResult
    else
      var n := |paths| - 1;
      RecordPath(PathReport(paths[..n], outcomes[..n]), paths[n], outcomes[n])
  }

  /** A pair batch's report records each pair with its own outcome. */
  lemma {:induction false} PairBatchReport(op: PairOperation, s: FsState, pairs: seq<(Path, Path)>)
    ensures PairBatch(op, s, pairs).1 == PairReport(pairs, PairOutcomes(op, s, pairs))
  {
    if pairs != [] {
      var n := |pairs| - 1;
      PairBatchReport(op, s, pairs[..n]);
      PairReportSnoc(op, s, pairs);
      var outcomes := PairOutcomes(op, s, pairs);
      assert outcomes[..n] == PairOutcomes(op, s, pairs[..n]);
    }
  }

  /** A path batch's report records each path with its own outcome. */
  lemma {:induction false} PathBatchReport(op: PathOperation, s: FsState, paths: seq<Path>)
    ensures PathBatch(op, s, paths).1 == PathReport(paths, PathOutcomes(op, s, paths))
  {
    if paths != [] {
      var n := |paths| - 1;
      PathBatchReport(op, s, paths[..n]);
      PathReportSnoc(op, s, paths);
      var outcomes := PathOutcomes(op, s, paths);
      assert outcomes[..n] == PathOutcomes(op, s, paths[..n]);
    }
  }

  /** Whatever the outcomes, a pair report accounts for every pair. */
  lemma {:induction false} PairReportAccounts(pairs: seq<(Path, Path)>, outcomes: seq<Outcome>)
    requires |outcomes| == |pairs|
    ensures PairsAccounted(PairReport(pairs, outcomes), pairs)
  {
    if pairs != [] {
      var n := |pairs| - 1;
      PairReportAccounts(pairs[..n], outcomes[..n]);
      RecordPairAccounts(PairReport(pairs[..n], outcomes[..n]), pairs[..n], pairs[n], outcomes[n]);
      assert pairs[..n] + [pairs[n]] == pairs;
    }
  }

  /** Whatever the outcomes, a path report accounts for every path. */
  lemma {:induction false} PathReportAccounts(paths: seq<Path>, outcomes: seq<Outcome>)
    requires |outcomes| == |paths|
    ensures PathsAccounted(PathReport(paths, outcomes), paths)
  {
    if paths != [] {
      var n := |paths| - 1;
      PathReportAccounts(paths[..n], outcomes[..n]);
      RecordPathAccounts(PathReport(paths[..n], outcomes[..n]), paths[..n], paths[n], outcomes[n]);
      assert paths[..n] + [paths[n]] == paths;
    }
  }

  /** A move or copy batch reports every pair exactly once, as processed or
      as failed, and writes only the two pair lists. */
  lemma PairBatchAccountsForEveryPair(op: PairOperation, s: FsState, pairs: seq<(Path, Path)>)
    ensures PairsAccounted(PairBatch(op, s, pairs).1, pairs)
  {
    PairBatchReport(op, s, pairs);
    PairReportAccounts(pairs, PairOutcomes(op, s, pairs));
  }

  /** A delete or create batch reports every path exactly once, as processed
      or as failed, and writes only the two single-path lists. */
  lemma PathBatchAccountsForEveryPath(op: PathOperation, s: FsState, paths: seq<Path>)
    ensures PathsAccounted(PathBatch(op, s, paths).1, paths)
  {
    PathBatchReport(op, s, paths);
    PathReportAccounts(paths, PathOutcomes(op, s, paths));
  }

  /** A batch result has failures exactly when some item was not processed. */
  lemma BatchFailuresMeanUnprocessedItems(op: PairOperation, pathOp: PathOperation, s: FsState,
                                          pairs: seq<(Path, Path)>, paths: seq<Path>, name: string)
    ensures OperationFileProcessorResult(PairBatch(op, s, pairs).1, name).HasFailures()
            <==> |PairBatch(op, s, pairs).1.successfullyProcessedTuples| < |pairs|
    ensures OperationFileProcessorResult(PathBatch(pathOp, s, paths).1, name).HasFailures()
            <==> |PathBatch(pathOp, s, paths).1.successfullyProcessed| < |paths|
  {
    PairBatchAccountsForEveryPair(op, s, pairs);
    PathBatchAccountsForEveryPath(pathOp, s, paths);
  }

  /** Moving: the pair succeeds exactly when the source file exists, the
      destination is free and its directory exists, and neither path is
      locked; the file then lives at the destination with its content and
      without its read-only flag. A failed check changes nothing; a failed
      move leaves every file where it was. */
  lemma MoveStepSemantics(s: FsState, source: Path, destination: Path)
    ensures var (next, outcome) := PairStep(Move, s, source, destination);
            (outcome.Done? <==>
               source in s.files && destination !in s.files && destination !in s.dirs
               && ParentExists(s, destination) && source !in s.locked && destination !in s.locked)
            && (outcome.Done? ==>
                  next.files == (s.files - {source})[destination := FileEntry(s.files[source].content, false)]
                  && next.dirs == s.dirs && next.locked == s.locked)
            && (outcome.Failed? ==> next.files.Keys == s.files.Keys && next.dirs == s.dirs)
            && (!FileConditions(s, source, Some(destination)).0 ==>
                  next == s && outcome == Failed(FileConditions(s, source, Some(destination)).1))
  {
    var w := ClearReadOnly(s, source);
    if source in s.files && destination !in s.files && destination != source {
      assert w.files - {source} + map[destination := w.files[source]]
          == (s.files - {source})[destination := FileEntry(s.files[source].content, false)];
    }
  }

  /** Copying: the pair succeeds exactly when the source file exists, no file
      or directory sits at the destination, its directory exists and neither
      path is locked; the destination then holds the source's entry and
      nothing else changes. A copy never replaces an existing file. */
  lemma CopyStepSemantics(s: FsState, source: Path, destination: Path)
    ensures var (next, outcome) := PairStep(Copy, s, source, destination);
            (outcome.Done? <==>
               source in s.files && destination !in s.files && destination !in s.dirs
               && ParentExists(s, destination) && source !in s.locked && destination !in s.locked)
            && (outcome.Done? ==> next == s.(files := s.files[destination := s.files[source]]))
            && (outcome.Failed? ==> next == s)
            && (destination in s.files ==> next == s && outcome.Failed?)
  {
  }

  /** Deleting a file: succeeds exactly when the file exists and is not
      locked, and then removes that file only; a missing file is reported
      with its fixed message and changes nothing. */
  lemma DeleteFileStepSemantics(s: FsState, path: Path)
    requires s.Valid()
    ensures var (next, outcome) := PathStep(DeleteFileOperation, s, path);
            (outcome.Done? <==> path in s.files && path !in s.locked)
            && (outcome.Done? ==> next.files == s.files - {path} && next.dirs == s.dirs)
            && (outcome.Failed? ==> next.files.Keys == s.files.Keys && next.dirs == s.dirs)
            && (path !in s.files ==> next == s && outcome == Failed(FileMissing))
  {
  }

  /** Deleting a directory: succeeds exactly when it exists and nothing
      inside it is locked, and then removes it with all it contains and
      nothing else; otherwise nothing changes. */
  lemma DeleteDirectoryStepSemantics(s: FsState, path: Path)
    ensures var (next, outcome) := PathStep(DeleteDirectoryOperation, s, path);
            (outcome.Done? <==> path in s.dirs && LockedBeneath(s, path) == {})
            && (outcome.Done? ==>
                  (forall q :: q in next.files <==> q in s.files && !Beneath(path, q))
                  && (forall q :: q in next.dirs <==> q in s.dirs && !Beneath(path, q)))
            && (outcome.Failed? ==> next == s)
            && (path !in s.dirs ==> outcome == Failed(DirectoryMissing))
  {
  }

  /** Creating a directory: succeeds exactly when it does not exist yet, the
      path is not empty, neither it nor an ancestor is a file, and it is not
      locked; it then exists together with all its ancestors. An existing
      directory is reported with its fixed message; a failure changes nothing. */
  lemma CreateDirectoryStepSemantics(s: FsState, path: Path)
    ensures var (next, outcome) := PathStep(CreateDirectoryOperation, s, path);
            (outcome.Done? <==>
               path !in s.dirs && path != "" && path !in s.files && Ancestors(path) !! s.files.Keys
               && path !in s.locked)
            && (outcome.Done? ==> next == s.(dirs := s.dirs + {path} + Ancestors(path)))
            && (outcome.Failed? ==> next == s)
            && (path in s.dirs ==> outcome == Failed(DirectoryAlreadyExists))
  {
  }

  /** Every batch keeps files and directories apart and leaves the locks alone. */
  lemma {:induction false} PairBatchKeepsValid(op: PairOperation, s: FsState, pairs: seq<(Path, Path)>)
    requires s.Valid()
    ensures PairBatch(op, s, pairs).0.Valid() && PairBatch(op, s, pairs).0.locked == s.locked
  {
    if pairs != [] {
      var init := pairs[..|pairs| - 1];
      var last := pairs[|pairs| - 1];
      PairBatchKeepsValid(op, s, init);
      var before := PairBatch(op, s, init).0;
      OperationsKeepValid(before, last.0, last.1);
      OperationsKeepValid(ClearReadOnly(before, last.0), last.0, last.1);
    }
  }

  lemma {:induction false} PathBatchKeepsValid(op: PathOperation, s: FsState, paths: seq<Path>)
    requires s.Valid()
    ensures PathBatch(op, s, paths).0.Valid() && PathBatch(op, s, paths).0.locked == s.locked
  {
    if paths != [] {
      var init := paths[..|paths| - 1];
      var last := paths[|paths| - 1];
      PathBatchKeepsValid(op, s, init);
      var before := PathBatch(op, s, init).0;
      OperationsKeepValid(before, last, last);
      OperationsKeepValid(ClearReadOnly(before, last), last, last);
    }
  }

  /** After a directory-creation batch every directory reported as created
      exists, and no directory that existed before has gone. */
  lemma {:induction false} CreatedDirectoriesExist(s: FsState, paths: seq<Path>)
    ensures var (after, result) := PathBatch(CreateDirectoryOperation, s, paths);
            s.dirs <= after.dirs && forall p :: p in result.successfullyProcessed ==> p in after.dirs
  {
    if paths != [] {
      CreatedDirectoriesExist(s, paths[..|paths| - 1]);
    }
  }

  /** After a file-deletion batch no file reported as deleted exists, and no
      file has appeared. */
  lemma {:induction false} DeletedFilesAreGone(s: FsState, paths: seq<Path>)
    ensures var (after, result) := PathBatch(DeleteFileOperation, s, paths);
            after.files.Keys <= s.files.Keys && forall p :: p in result.successfullyProcessed ==> p !in after.files
  {
    if paths != [] {
      DeletedFilesAreGone(s, paths[..|paths| - 1]);
    }
  }

  /** After a directory-deletion batch nothing remains inside a directory
      reported as deleted, and nothing has appeared. */
  lemma {:induction false} DeletedDirectoriesAreGone(s: FsState, paths: seq<Path>)
    ensures var (after, result) := PathBatch(DeleteDirectoryOperation, s, paths);
            after.files.Keys <= s.files.Keys && after.dirs <= s.dirs
            && forall p, q :: p in result.successfullyProcessed && (q in after.files || q in after.dirs) ==> !Beneath(p, q)
  {
    if paths != [] {
      DeletedDirectoriesAreGone(s, paths[..|paths| - 1]);
    }
  }
}
