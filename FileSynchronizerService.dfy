/** Carrying out a sync plan on the replica: the relative paths of the plan
    are made absolute (copies read from the source root, everything else
    happens under the replica root), and the five batch operations run in a
    fixed order, each reporting under its own name. Failures of single items
    are reported, never raised: the sync as a whole always succeeds. */
module FileSynchronizerService {
  import opened Wrappers
  import opened Text
  import opened Paths
  import opened Models
  import opened FileSystem
  import opened FileProcessorService
  import opened FileSyncHelper

  /** `CommandLineConfig`, as far as the synchronizer reads it: the two
      root paths, either of which may be null (`None`). */
  datatype CommandLineConfig = CommandLineConfig(sourcePath: Option<string>, replicaPath: Option<string>)

  /** The messages of the argument errors the constructor throws, with the
      parameter name .NET appends. */
  const SourcePathMessage := "SourcePath cannot be null or empty. (Parameter 'SourcePath')"
  const ReplicaPathMessage := "ReplicaPath cannot be null or empty. (Parameter 'ReplicaPath')"

  const DirectoryCreation := "Directory Creation"
  const FileMoving := "File Moving"
  const FileCopying := "File Copying"
  const FileDeletion := "File Deletion"
  const DirectoryDeletion := "Directory Deletion"

  /** `string.IsNullOrWhiteSpace` of a string that may be null. */
  predicate Blank(s: Option<string>) {
    s.None? || IsNullOrWhiteSpace(s.value)
  }

  /** Whether the constructor accepts the configuration: both roots must be
      non-blank, and the source root is checked first. */
  function ConstructorCheck(config: CommandLineConfig): (r: Status)
    ensures r.Ok? <==> !Blank(config.sourcePath) && !Blank(config.replicaPath)
    ensures Blank(config.sourcePath) ==> r == Err(SourcePathMessage)
    ensures !Blank(config.sourcePath) && Blank(config.replicaPath) ==> r == Err(ReplicaPathMessage)
  {
    if Blank(config.sourcePath) then Err(SourcePathMessage)
    else if Blank(config.replicaPath) then Err(ReplicaPathMessage)
    else Ok
  }

  /** The (source, replica) pairs `CopyFilesToDestinationAsync` builds: the
      same relative path under each root. */
  function CopyPairs(sourcePath: Path, replicaPath: Path, relativePaths: seq<Path>): seq<(Path, Path)> {
    seq(|relativePaths|, i requires 0 <= i < |relativePaths| =>
          (Combine(sourcePath, relativePaths[i]), Combine(replicaPath, relativePaths[i])))
  }

  /** The (old, new) pairs `MoveFilesAsync` builds: both ends in the replica. */
  function MovePairs(replicaPath: Path, moves: seq<(Path, Path)>): seq<(Path, Path)> {
    seq(|moves|, i requires 0 <= i < |moves| =>
          (Combine(replicaPath, moves[i].0), Combine(replicaPath, moves[i].1)))
  }

  lemma CopyPairsSnoc(sourcePath: Path, replicaPath: Path, relativePaths: seq<Path>, i: nat)
    requires i < |relativePaths|
    ensures CopyPairs(sourcePath, replicaPath, relativePaths[..i + 1])
            == CopyPairs(sourcePath, replicaPath, relativePaths[..i])
               + [(Combine(sourcePath, relativePaths[i]), Combine(replicaPath, relativePaths[i]))]
  {
    var longerPaths, shorterPaths := relativePaths[..i + 1], relativePaths[..i];
    var longer := CopyPairs(sourcePath, replicaPath, longerPaths);
    var shorter := CopyPairs(sourcePath, replicaPath, shorterPaths);
    var last := (Combine(sourcePath, relativePaths[i]), Combine(replicaPath, relativePaths[i]));
    forall j | 0 <= j <= i
      ensures longer[j] == (shorter + [last])[j]
    {
      if j < i {
        assert longerPaths[j] == shorterPaths[j];
      }
    }
    assert longer == shorter + [last];
  }

  lemma MovePairsSnoc(replicaPath: Path, moves: seq<(Path, Path)>, i: nat)
    requires i < |moves|
    ensures MovePairs(replicaPath, moves[..i + 1])
            == MovePairs(replicaPath, moves[..i]) + [(Combine(replicaPath, moves[i].0), Combine(replicaPath, moves[i].1))]
  {
    var longerMoves, shorterMoves := moves[..i + 1], moves[..i];
    var longer := MovePairs(replicaPath, longerMoves);
    var shorter := MovePairs(replicaPath, shorterMoves);
    var last := (Combine(replicaPath, moves[i].0), Combine(replicaPath, moves[i].1));
    forall j | 0 <= j <= i
      ensures longer[j] == (shorter + [last])[j]
    {
      if j < i {
        assert longerMoves[j] == shorterMoves[j];
      }
    }
    assert longer == shorter + [last];
  }

  /** The whole sync: directory creation, file moving, file copying, file
      deletion and directory deletion, each batch starting from the state the
      previous one left; the final state and the five labelled reports. */
  function SyncPlan(sourcePath: Path, replicaPath: Path, s: FsState, plan: FilesToSyncSetByMD5)
    : (r: (FsState, seq<OperationFileProcessorResult>))
    ensures |r.1| == 5
    ensures r.1[0].operationName == DirectoryCreation && r.1[1].operationName == FileMoving
            && r.1[2].operationName == FileCopying && r.1[3].operationName == FileDeletion
            && r.1[4].operationName == DirectoryDeletion
  {
    var (s1, created) := PathBatch(CreateDirectoryOperation, s, AbsolutePaths(plan.directoriesToCreate, replicaPath));
    var (s2, moved) := PairBatch(Move, s1, MovePairs(replicaPath, plan.filesToMove));
    var (s3, copied) := PairBatch(Copy, s2, CopyPairs(sourcePath, replicaPath, plan.filesToCopy));
    var (s4, deleted) := PathBatch(DeleteFileOperation, s3, AbsolutePaths(plan.filesToDelete, replicaPath));
    var (s5, removed) := PathBatch(DeleteDirectoryOperation, s4, AbsolutePaths(plan.directoriesToDelete, replicaPath));
    (s5, [OperationFileProcessorResult(created, DirectoryCreation),
          OperationFileProcessorResult(moved, FileMoving),
          OperationFileProcessorResult(copied, FileCopying),
          OperationFileProcessorResult(deleted, FileDeletion),
          OperationFileProcessorResult(removed, DirectoryDeletion)])
  }

  /** `AnyFailures`: some operation reported a failed item. */
  function AnyFailures(results: seq<OperationFileProcessorResult>): (r: bool)
    ensures r <==> exists i :: 0 <= i < |results| && results[i].HasFailures()
  {
    if results == [] then false
    else results[0].HasFailures() || AnyFailures(results[1..])
  }

  /** The synchronizer: the two roots it was built with, and the file system
      its batch operations act on. */
  class FileSynchronizer {
    const sourcePath: Path
    const replicaPath: Path
    const fs: FileSystem

    /** The constructor once its argument checks have passed. */
    constructor (config: CommandLineConfig, fs: FileSystem)
      requires ConstructorCheck(config).Ok?
      ensures sourcePath == config.sourcePath.value && replicaPath == config.replicaPath.value
      ensures this.fs == fs
    {
      sourcePath := config.sourcePath.value;
      replicaPath := config.replicaPath.value;
      this.fs := fs;
    }

    /** `SyncFilesByMD5`: runs the five batches in order and reports success
        whatever they report; the reports are what gets logged. */
    method SyncFilesByMD5(filesToSyncSet: FilesToSyncSetByMD5)
      returns (r: Status, results: seq<OperationFileProcessorResult>)
      modifies fs
      ensures r == Ok
      ensures (fs.State(), results) == SyncPlan(sourcePath, replicaPath, old(fs.State()), filesToSyncSet)
    {
      var created := CreateDirectoriesAsync(filesToSyncSet.directoriesToCreate);
      var moved := MoveFilesAsync(filesToSyncSet.filesToMove);
      var copied := CopyFilesToDestinationAsync(filesToSyncSet.filesToCopy);
      var deleted := DeleteFilesFromDestinationAsync(filesToSyncSet.filesToDelete);
      var removed := DeleteDirectoriesAsync(filesToSyncSet.directoriesToDelete);
      results := [created, moved, copied, deleted, removed];
      var failures := AnyFailures(results);
      if failures {
        return Ok, results;
      }
      return Ok, results;
    }

    /** `DeleteFilesFromDestinationAsync`: deletes the files under the replica root. */
    method DeleteFilesFromDestinationAsync(pathsToDelete: seq<Path>) returns (r: OperationFileProcessorResult)
      modifies fs
      ensures (fs.State(), r.processorResult)
              == PathBatch(DeleteFileOperation, old(fs.State()), AbsolutePaths(pathsToDelete, replicaPath))
      ensures r.operationName == FileDeletion
    {
      var absolutePaths := GetAbsolutePaths(pathsToDelete, replicaPath);
      var deleteResult := DeleteFiles(fs, absolutePaths);
      r := OperationFileProcessorResult(deleteResult, FileDeletion);
    }

    /** `CopyFilesToDestinationAsync`: copies each relative path from the
        source root to the same relative path under the replica root. */
    method CopyFilesToDestinationAsync(pathsToCopy: seq<Path>) returns (r: OperationFileProcessorResult)
      modifies fs
      ensures (fs.State(), r.processorResult)
              == PairBatch(Copy, old(fs.State()), CopyPairs(sourcePath, replicaPath, pathsToCopy))
      ensures r.operationName == FileCopying
    {
      var absolutePathsToCopy := [];
      for i := 0 to |pathsToCopy|
        invariant absolutePathsToCopy == CopyPairs(sourcePath, replicaPath, pathsToCopy[..i])
        invariant unchanged(fs)
      {
        CopyPairsSnoc(sourcePath, replicaPath, pathsToCopy, i);
        var sourceFilePath := Combine(sourcePath, pathsToCopy[i]);
        var destinationFilePath := Combine(replicaPath, pathsToCopy[i]);
        absolutePathsToCopy := absolutePathsToCopy + [(sourceFilePath, destinationFilePath)];
      }
      assert pathsToCopy[..|pathsToCopy|] == pathsToCopy;
      var copyResult := CopyFiles(fs, absolutePathsToCopy);
      r := OperationFileProcessorResult(copyResult, FileCopying);
    }

    /** `DeleteDirectoriesAsync`: deletes the directories under the replica root. */
    method DeleteDirectoriesAsync(directoriesToDelete: seq<Path>) returns (r: OperationFileProcessorResult)
      modifies fs
      ensures (fs.State(), r.processorResult)
              == PathBatch(DeleteDirectoryOperation, old(fs.State()), AbsolutePaths(directoriesToDelete, replicaPath))
      ensures r.operationName == DirectoryDeletion
    {
      var absolutePaths := GetAbsolutePaths(directoriesToDelete, replicaPath);
      var deleteDirResult := DeleteDirectories(fs, absolutePaths);
      r := OperationFileProcessorResult(deleteDirResult, DirectoryDeletion);
    }

    /** `CreateDirectoriesAsync`: creates the directories under the replica root. */
    method CreateDirectoriesAsync(directoriesToCreate: seq<Path>) returns (r: OperationFileProcessorResult)
      modifies fs
      ensures (fs.State(), r.processorResult)
              == PathBatch(CreateDirectoryOperation, old(fs.State()), AbsolutePaths(directoriesToCreate, replicaPath))
      ensures r.operationName == DirectoryCreation
    {
      var absolutePaths := GetAbsolutePaths(directoriesToCreate, replicaPath);
      var createDirResult := CreateDirectories(fs, absolutePaths);
      r := OperationFileProcessorResult(createDirResult, DirectoryCreation);
    }

    /** `MoveFilesAsync`: moves files inside the replica, both ends of each
        pair taken relative to the replica root. */
    method MoveFilesAsync(filesToMove: seq<(Path, Path)>) returns (r: OperationFileProcessorResult)
      modifies fs
      ensures (fs.State(), r.processorResult)
              == PairBatch(Move, old(fs.State()), MovePairs(replicaPath, filesToMove))
      ensures r.operationName == FileMoving
    {
      var absolutePathsToMove := [];
      for i := 0 to |filesToMove|
        invariant absolutePathsToMove == MovePairs(replicaPath, filesToMove[..i])
        invariant unchanged(fs)
      {
        MovePairsSnoc(replicaPath, filesToMove, i);
        var (initialPath, finalPath) := filesToMove[i];
        var sourceFilePath := Combine(replicaPath, initialPath);
        var destinationFilePath := Combine(replicaPath, finalPath);
        absolutePathsToMove := absolutePathsToMove + [(sourceFilePath, destinationFilePath)];
      }
      assert filesToMove[..|filesToMove|] == filesToMove;
      var moveResult := MoveFiles(fs, absolutePathsToMove);
      r := OperationFileProcessorResult(moveResult, FileMoving);
    }
  }

  /** The constructor: it throws an argument error for a blank source root,
      then for a blank replica root. */
  method NewFileSynchronizer(config: CommandLineConfig, fs: FileSystem) returns (r: Result<FileSynchronizer>)
    ensures r.Success? <==> ConstructorCheck(config).Ok?
    ensures r.Fail? ==> r.message == ConstructorCheck(config).message
    ensures r.Success? ==>
              fresh(r.value) && r.value.sourcePath == config.sourcePath.value
              && r.value.replicaPath == config.replicaPath.value && r.value.fs == fs
  {
    var check := ConstructorCheck(config);
    if check.Err? {
      return Fail(check.message);
    }
    var synchronizer := new FileSynchronizer(config, fs);
    return Success(synchronizer);
  }

  /** A sync never makes a path both a file and a directory, and leaves the
      locked paths as they were. */
  lemma SyncPlanKeepsValid(sourcePath: Path, replicaPath: Path, s: FsState, plan: FilesToSyncSetByMD5)
    requires s.Valid()
    ensures SyncPlan(sourcePath, replicaPath, s, plan).0.Valid()
    ensures SyncPlan(sourcePath, replicaPath, s, plan).0.locked == s.locked
  {
    var created := AbsolutePaths(plan.directoriesToCreate, replicaPath);
    var moves := MovePairs(replicaPath, plan.filesToMove);
    var copies := CopyPairs(sourcePath, replicaPath, plan.filesToCopy);
    var deletes := AbsolutePaths(plan.filesToDelete, replicaPath);
    var removes := AbsolutePaths(plan.directoriesToDelete, replicaPath);
    var s1 := PathBatch(CreateDirectoryOperation, s, created).0;
    PathBatchKeepsValid(CreateDirectoryOperation, s, created);
    var s2 := PairBatch(Move, s1, moves).0;
    PairBatchKeepsValid(Move, s1, moves);
    var s3 := PairBatch(Copy, s2, copies).0;
    PairBatchKeepsValid(Copy, s2, copies);
    var s4 := PathBatch(DeleteFileOperation, s3, deletes).0;
    PathBatchKeepsValid(DeleteFileOperation, s3, deletes);
    PathBatchKeepsValid(DeleteDirectoryOperation, s4, removes);
    assert SyncPlan(sourcePath, replicaPath, s, plan).0 == PathBatch(DeleteDirectoryOperation, s4, removes).0;
  }

  /** Items processed, or failed, by one labelled report. */
  function Processed(result: OperationFileProcessorResult): nat {
    |result.processorResult.successfullyProcessed| + |result.processorResult.successfullyProcessedTuples|
  }

  function Failed(result: OperationFileProcessorResult): nat {
    |result.processorResult.failedToProcess| + |result.processorResult.failedToProcessTuples|
  }

  /** Every entry of the plan is reported exactly once, under its operation:
      each report's processed and failed items add up to its part of the plan. */
  lemma SyncPlanAccountsForEveryEntry(sourcePath: Path, replicaPath: Path, s: FsState, plan: FilesToSyncSetByMD5)
    ensures var results := SyncPlan(sourcePath, replicaPath, s, plan).1;
            Processed(results[0]) + Failed(results[0]) == |plan.directoriesToCreate|
            && Processed(results[1]) + Failed(results[1]) == |plan.filesToMove|
            && Processed(results[2]) + Failed(results[2]) == |plan.filesToCopy|
            && Processed(results[3]) + Failed(results[3]) == |plan.filesToDelete|
            && Processed(results[4]) + Failed(results[4]) == |plan.directoriesToDelete|
  {
    var created := AbsolutePaths(plan.directoriesToCreate, replicaPath);
    var moves := MovePairs(replicaPath, plan.filesToMove);
    var copies := CopyPairs(sourcePath, replicaPath, plan.filesToCopy);
    var deletes := AbsolutePaths(plan.filesToDelete, replicaPath);
    var s1 := PathBatch(CreateDirectoryOperation, s, created).0;
    var s2 := PairBatch(Move, s1, moves).0;
    var s3 := PairBatch(Copy, s2, copies).0;
    var s4 := PathBatch(DeleteFileOperation, s3, deletes).0;
    PathBatchAccountsForEveryPath(CreateDirectoryOperation, s, created);
    PairBatchAccountsForEveryPair(Move, s1, moves);
    PairBatchAccountsForEveryPair(Copy, s2, copies);
    PathBatchAccountsForEveryPath(DeleteFileOperation, s3, deletes);
    PathBatchAccountsForEveryPath(DeleteDirectoryOperation, s4, AbsolutePaths(plan.directoriesToDelete, replicaPath));
  }

  /** The sync reports issues exactly when some entry of the plan was not
      carried out. */
  lemma SyncReportsIssuesExactlyWhenWorkIsLeft(sourcePath: Path, replicaPath: Path, s: FsState, plan: FilesToSyncSetByMD5)
    ensures var results := SyncPlan(sourcePath, replicaPath, s, plan).1;
            AnyFailures(results) <==>
              Processed(results[0]) < |plan.directoriesToCreate| || Processed(results[1]) < |plan.filesToMove|
              || Processed(results[2]) < |plan.filesToCopy| || Processed(results[3]) < |plan.filesToDelete|
              || Processed(results[4]) < |plan.directoriesToDelete|
  {
    SyncPlanAccountsForEveryEntry(sourcePath, replicaPath, s, plan);
    var results := SyncPlan(sourcePath, replicaPath, s, plan).1;
    assert AnyFailures(results) <==> exists i :: 0 <= i < 5 && results[i].HasFailures();
    if results[0].HasFailures() || results[1].HasFailures() || results[2].HasFailures()
       || results[3].HasFailures() || results[4].HasFailures() {
      assert AnyFailures(results);
    }
  }

  /** An empty plan changes nothing and reports five empty, failure-free
      operations. */
  lemma EmptyPlanChangesNothing(sourcePath: Path, replicaPath: Path, s: FsState)
    ensures var (after, results) := SyncPlan(sourcePath, replicaPath, s, FilesToSyncSetByMD5([], [], [], [], []));
            after == s && !AnyFailures(results)
            && forall i :: 0 <= i < |results| ==> results[i].processorResult == EmptyResult
  {
  }

  /** A copy reads the file at its relative path under the source root and
      writes it at the same relative path under the replica root. */
  lemma CopyPathsRoundTrip(sourcePath: Path, replicaPath: Path, relativePaths: seq<Path>)
    requires forall i :: 0 <= i < |relativePaths| ==> relativePaths[i] == "" || relativePaths[i][0] != Separator
    ensures var copies := CopyPairs(sourcePath, replicaPath, relativePaths);
            forall i :: 0 <= i < |copies| ==>
              GetRelativePath(sourcePath, copies[i].0) == Success(relativePaths[i])
              && GetRelativePath(replicaPath, copies[i].1) == Success(relativePaths[i])
  {
    var copies := CopyPairs(sourcePath, replicaPath, relativePaths);
    forall i | 0 <= i < |copies|
      ensures GetRelativePath(sourcePath, copies[i].0) == Success(relativePaths[i])
      ensures GetRelativePath(replicaPath, copies[i].1) == Success(relativePaths[i])
    {
      RelativePathOfCombine(sourcePath, relativePaths[i]);
      RelativePathOfCombine(replicaPath, relativePaths[i]);
    }
  }

  /** A move keeps both ends under the replica root, at the plan's relative paths. */
  lemma MovePathsRoundTrip(replicaPath: Path, moves: seq<(Path, Path)>)
    requires forall i :: 0 <= i < |moves| ==>
               (moves[i].0 == "" || moves[i].0[0] != Separator) && (moves[i].1 == "" || moves[i].1[0] != Separator)
    ensures var pairs := MovePairs(replicaPath, moves);
            forall i :: 0 <= i < |pairs| ==>
              GetRelativePath(replicaPath, pairs[i].0) == Success(moves[i].0)
              && GetRelativePath(replicaPath, pairs[i].1) == Success(moves[i].1)
  {
    var pairs := MovePairs(replicaPath, moves);
    forall i | 0 <= i < |pairs|
      ensures GetRelativePath(replicaPath, pairs[i].0) == Success(moves[i].0)
      ensures GetRelativePath(replicaPath, pairs[i].1) == Success(moves[i].1)
    {
      RelativePathOfCombine(replicaPath, moves[i].0);
      RelativePathOfCombine(replicaPath, moves[i].1);
    }
  }
}
