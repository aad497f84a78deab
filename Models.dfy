/** The records the core passes around: a scanned file, the outcome report
    of one batch of file operations, that report labelled with its operation,
    the sync plan and the application configuration. */
module Models {
  import opened Text
  import opened Paths

  /** A scanned file. Only the fields the core reads are kept; the attribute
      set is the `FileAttributes` flag word. */
  datatype FileModel = FileModel(
    fileName: string,
    fileRelativePath: Path,
    md5Hash: string,
    fileSystemAttributes: nat)

  /** The outcome of one batch: single paths for directory and delete
      operations, (source, destination) pairs for move and copy; every failure
      carries its reason. */
  datatype FileProcessorResult = FileProcessorResult(
    successfullyProcessed: seq<Path>,
    failedToProcess: seq<(Path, string)>,
    successfullyProcessedTuples: seq<(Path, Path)>,
    failedToProcessTuples: seq<(Path, Path, string)>)

  /** A freshly constructed `FileProcessorResult`: four empty lists. */
  const EmptyResult: FileProcessorResult := FileProcessorResult([], [], [], [])

  datatype OperationFileProcessorResult = OperationFileProcessorResult(
    processorResult: FileProcessorResult,
    operationName: string)
  {
    predicate HasFailures() {
      |processorResult.failedToProcess| > 0 || |processorResult.failedToProcessTuples| > 0
    }
  }

  /** The sync plan, in relative paths. A move pair is (current path in the
      replica, new path in the replica). */
  datatype FilesToSyncSetByMD5 = FilesToSyncSetByMD5(
    directoriesToDelete: seq<Path>,
    directoriesToCreate: seq<Path>,
    filesToDelete: seq<Path>,
    filesToCopy: seq<Path>,
    filesToMove: seq<(Path, Path)>)

  datatype AppConfig = AppConfig(
    sourcePath: string,
    replicaPath: string,
    syncInterval: Int32,
    logFilePath: string)
}
