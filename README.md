# FolderFlect core in Dafny

FolderFlect keeps a replica folder identical to a source folder, one way. Each
cycle runs three steps:

- It scans both trees into indexes keyed by relative path.
- It compares the indexes into a sync plan: directories to create and delete,
  files to copy, move and delete.
- It carries the plan out on the replica with batch file operations. Each
  batch reports every item as processed or as failed with a reason.

This project models that core and proves what it promises:

- the comparers that build the plan (`FileComparerService`,
  `DirectoryComparerService`);
- the batch operations (`FileProcessorService`);
- the services that turn relative paths into absolute ones and run the batches
  (`FileSynchronizerService`, `DirectorySynchronizerService`);
- the path helpers (`FileSyncHelper`);
- the duration formatter (`TimeHelper`);
- the command-line loader (`ConfigurationLoader`).

Model layout:

- `Wrappers.dfy` holds the two result records. `Status` stands for the
  non-generic `Result`; `Result<T>` keeps its name.
- `Models.dfy` holds the value records: `FileModel`, `FileProcessorResult`,
  `OperationFileProcessorResult`, `FilesToSyncSetByMD5` and `AppConfig`.
- `Text.dfy` and `Paths.dfy` model the .NET string and `System.IO.Path`
  services the core calls, in their Unix form (separator `/`).
- `FileSystem.dfy` models the machine's file system:
  - `FsState` holds the files (content and read-only flag), the directories,
    and the locked paths;
  - locked paths are those a call fails on for reasons outside the program;
  - each `File`/`Directory` call is a function from one state to the next,
    returning the exception message when the call throws;
  - the class `FileSystem` performs those calls in place.
- `Dictionaries.dfy` models a `Dictionary<string, V>` as its keys in
  enumeration order plus its entries. The order only decides the order of the
  lists the comparers return.

Methods that loop in the source are loops here. Each loop is proved against a
reference function:

- `PairBatch`/`PathBatch` for the batches;
- `SelectChanged`, `DeletionCandidates` and `KeysNotIn` for the comparers;
- `DeleteEach`/`CreateEach` for the directory synchronizer;
- `ParseFrom` for the argument parser;
- `IntervalText` for the formatter.

The properties are proved about those functions.

The argument keys are the constants `-source`, `-replica`, `-interval` and
`-log` (`FolderFlect/Constants/ArgumentKeys.cs:11-14`).

## Model

| member | source | states |
|---|---|---|
| Dictionaries.KeysNotIn | FolderFlect/Services/DirectoryComparerService.cs:27-33 | The keys of one index that the other lacks, in enumeration order: a key is kept exactly when it is listed and absent from the other side. |
| Dictionaries.KeysNotInDistinct | FolderFlect/Services/DirectoryComparerService.cs:27-33 | Filtering keys that are distinct, as dictionary keys are, never lists a key twice. |
| Dictionaries.KeysNotInOfDictionary | FolderFlect/Services/FileComparerService.cs:139-146 | Over a whole dictionary, the filter keeps exactly the entries absent from the other side. |
| Dictionaries.KeysNotInAll | FolderFlect/Services/FileComparerService.cs:139-146 | Filtering out a superset of the keys leaves nothing to do. |
| FileComparerService.SelectChanged | FolderFlect/Services/FileComparerService.cs:27-36 | Of the listed paths, exactly those whose two records differ as asked (hash differs; or hash equal and attributes differ), in list order, never more than were listed. |
| FileComparerService.FirstMissing | FolderFlect/Services/FileComparerService.cs:29-30 | The first listed path that one of the two indexer lookups lacks: every earlier path is on both sides. |
| FileComparerService.CollectChanged | FolderFlect/Services/FileComparerService.cs:23-44 | The shared loop of the two update queries: the selection when every lookup succeeds; otherwise the key-not-found message of the first missing path. |
| FileComparerService.GetFilesForUpdate | FolderFlect/Services/FileComparerService.cs:18-45 | Succeeds exactly when every listed path is on both sides. It then returns exactly the paths whose MD5 hashes differ, in order. Otherwise it fails with "Error in GetFilesForUpdate: " and the lookup error of the first missing path. |
| FileComparerService.GetFilesForAttributesUpdate | FolderFlect/Services/FileComparerService.cs:47-75 | Same shape as GetFilesForUpdate, with the condition "equal hashes, different attributes" and its own message prefix. |
| FileComparerService.GetIntersectingFiles | FolderFlect/Services/FileComparerService.cs:77-91 | Always succeeds with exactly the keys both indexes have, none twice. |
| FileComparerService.DeletionCandidates | FolderFlect/Services/FileComparerService.cs:102-119 | A destination key is selected exactly when the source lacks it or files it under another file name. |
| FileComparerService.DeletionCandidatesDistinct | FolderFlect/Services/FileComparerService.cs:102-119 | Distinct destination keys give a deletion list without repeats. |
| FileComparerService.DeletionCandidatesOfDictionary | FolderFlect/Services/FileComparerService.cs:93-128 | Over a whole destination index the deletion list is repeat-free, and a path is on it exactly when the destination has it and the source lacks it or names it differently. |
| FileComparerService.GetFilesToDeleteFromDestination | FolderFlect/Services/FileComparerService.cs:93-128 | The loop always succeeds and returns the deletion candidates of the destination keys, in destination order. |
| FileComparerService.GetFilesToCopy | FolderFlect/Services/FileComparerService.cs:130-155 | The loop always succeeds and returns the source keys the destination lacks, in source order. |
| FileComparerService.FilesToCopyOfDictionary | FolderFlect/Services/FileComparerService.cs:139-146 | Over a whole source index the copy list is repeat-free, and a path is on it exactly when the source has it and the destination does not. |
| FileComparerService.UpdatesDisjoint | FolderFlect/Services/FileComparerService.cs:32-64 | No path is both a content update and an attribute-only update. |
| FileComparerService.SelectChangedOfSelf | FolderFlect/Services/FileComparerService.cs:27-36 | Comparing an index with itself selects no update of either kind. |
| FileComparerService.DeletionCandidatesOfSelf | FolderFlect/Services/FileComparerService.cs:102-119 | Comparing an index with itself deletes nothing. |
| FileComparerService.IdenticalIndexesNeedNothing | FolderFlect/Services/FileComparerService.cs:18-155 | Two identical indexes plan no update, no attribute update, no copy and no deletion. |
| DirectoryComparerService.GetDirectoriesToDelete | FolderFlect/Services/DirectoryComparerService.cs:21-42 | Always succeeds with the replica directory keys the source lacks, in replica order. |
| DirectoryComparerService.GetDirectoriesToCreate | FolderFlect/Services/DirectoryComparerService.cs:44-65 | Always succeeds with the source directory keys the replica lacks, in source order. |
| DirectoryComparerService.DirectoryPlanPartitions | FolderFlect/Services/DirectoryComparerService.cs:21-65 | Every directory either side knows is exactly one of: deleted, created, or kept (on both sides). |
| DirectoryComparerService.DirectoryListsAreDistinct | FolderFlect/Services/DirectoryComparerService.cs:21-65 | Neither directory list names a directory twice. |
| DirectoryComparerService.SameDirectoriesNeedNothing | FolderFlect/Services/DirectoryComparerService.cs:21-65 | Indexes over the same relative directories plan no directory work, whatever their absolute paths. |
| Paths.Combine | FolderFlect/Services/FileSynchronizerService.cs:90-91 | `Path.Combine`: an empty second part gives the first. Otherwise the result ends with the second part. Unless the second part is rooted, the result starts with the first. |
| Paths.DirectoryName | FolderFlect/Services/FileProcessorService.cs:219 | `Path.GetDirectoryName`: null exactly for an empty path or a bare root; otherwise a strictly shorter prefix of the path. |
| Paths.ParentOfCombine | FolderFlect/Services/FileProcessorService.cs:219-220 | The directory of a name joined onto a directory is that directory. |
| FileSystem.MoveFile | FolderFlect/Services/FileProcessorService.cs:52 | `File.Move` without overwrite. It succeeds exactly when the source file exists, the destination is neither a file nor a directory, the destination's directory exists, and neither path is locked. On success the file changes path and nothing else changes; a failure changes nothing. |
| FileSystem.CopyFile | FolderFlect/Services/FileProcessorService.cs:86 | `File.Copy` with overwrite. It succeeds exactly when the source file exists, the destination is not a directory and its directory exists, and neither path is locked. On success only the destination entry changes; a failure changes nothing. |
| FileSystem.DeleteFile | FolderFlect/Services/FileProcessorService.cs:121 | `File.Delete`: a missing file is no error. It fails exactly on a directory or a locked path. On success only that file is gone. |
| FileSystem.DeleteDirectoryRecursive | FolderFlect/Services/FileProcessorService.cs:154 | Recursive `Directory.Delete`. It succeeds exactly when the directory exists and nothing beneath it is locked. It then removes exactly what lies beneath it and keeps every other file's content. |
| FileSystem.CreateDirectory | FolderFlect/Services/FileProcessorService.cs:187 | `Directory.CreateDirectory`. It succeeds exactly for a non-empty, unlocked path where neither the path nor any ancestor is a file. It then adds the directory and all its ancestors. |
| FileSystem.ClearReadOnly | FolderFlect/Helpers/FileSyncHelper.cs:9-17 | Clearing the read-only flag changes only that file's flag, and nothing at all when the file is missing. |
| FileSystem.OperationsKeepValid | FolderFlect/Services/FileProcessorService.cs:33-197 | No file system call makes a path both a file and a directory, and none changes which paths are locked. |
| FileSystem.FileSystem.constructor | FolderFlect/Services/FileProcessorService.cs:33-197 | The file system object starts in the state given. |
| FileSystem.FileSystem.FileExists | FolderFlect/Services/FileProcessorService.cs:207 | `File.Exists`: true exactly when a file (not a directory) is at the path. |
| FileSystem.FileSystem.DirectoryExists | FolderFlect/Services/FileProcessorService.cs:220 | `Directory.Exists`: true exactly when the path is present and a directory; a null path is not one. |
| FileSystem.FileSystem.Move | FolderFlect/Services/FileProcessorService.cs:52 | Performs MoveFile in place: the new state and the error are MoveFile of the old state. |
| FileSystem.FileSystem.Copy | FolderFlect/Services/FileProcessorService.cs:86 | Performs CopyFile in place. |
| FileSystem.FileSystem.Delete | FolderFlect/Services/FileProcessorService.cs:121 | Performs DeleteFile in place. |
| FileSystem.FileSystem.DeleteDirectory | FolderFlect/Services/FileProcessorService.cs:154 | Performs DeleteDirectoryRecursive in place. |
| FileSystem.FileSystem.MakeDirectory | FolderFlect/Services/FileProcessorService.cs:187 | Performs CreateDirectory in place. |
| FileSystem.FileSystem.SetFileAsWritable | FolderFlect/Helpers/FileSyncHelper.cs:9-17 | Updates the file system in place to the state ClearReadOnly describes. |
| FileProcessorService.FileConditions | FolderFlect/Services/FileProcessorService.cs:205-226 | The conditions hold exactly when the source file exists and, if a destination is given, no file sits there and its directory exists. Each failed condition yields its own fixed message, checked in the source's order. |
| FileProcessorService.CheckFileConditions | FolderFlect/Services/FileProcessorService.cs:205-226 | Asking the file system gives exactly FileConditions of its current state. |
| FileProcessorService.MoveFiles | FolderFlect/Services/FileProcessorService.cs:33-62 | Moves the pairs in order; the new state and the report are PairBatch(Move) of the old state. |
| FileProcessorService.CopyFiles | FolderFlect/Services/FileProcessorService.cs:69-96 | Copies the pairs in order; the new state and the report are PairBatch(Copy) of the old state. |
| FileProcessorService.DeleteFiles | FolderFlect/Services/FileProcessorService.cs:103-131 | Deletes the paths in order; the new state and the report are PathBatch(DeleteFileOperation) of the old state. |
| FileProcessorService.DeleteDirectories | FolderFlect/Services/FileProcessorService.cs:138-164 | Deletes the directories in order; the new state and the report are PathBatch(DeleteDirectoryOperation) of the old state. |
| FileProcessorService.CreateDirectories | FolderFlect/Services/FileProcessorService.cs:171-197 | Creates the directories in order; the new state and the report are PathBatch(CreateDirectoryOperation) of the old state. |
| FileProcessorService.MoveStepSemantics | FolderFlect/Services/FileProcessorService.cs:39-58 | One move item succeeds exactly when the file exists, the destination is free with an existing parent, and nothing is locked. The file then lives at the destination with its content and without its read-only flag. A failed check changes nothing and reports the check's message. |
| FileProcessorService.CopyStepSemantics | FolderFlect/Services/FileProcessorService.cs:75-92 | One copy item succeeds exactly under the same conditions, and the destination then holds the source's entry. An existing destination file is never overwritten: the pre-check rejects it. |
| FileProcessorService.DeleteFileStepSemantics | FolderFlect/Services/FileProcessorService.cs:109-127 | One delete item succeeds exactly when the file exists and is not locked, and removes only that file. A missing file reports "File does not exist." and changes nothing. |
| FileProcessorService.DeleteDirectoryStepSemantics | FolderFlect/Services/FileProcessorService.cs:144-160 | One directory-delete item succeeds exactly when the directory exists and nothing inside is locked, and removes exactly what lies beneath it. A missing directory reports "Directory does not exist."; a failure changes nothing. |
| FileProcessorService.CreateDirectoryStepSemantics | FolderFlect/Services/FileProcessorService.cs:177-193 | One create item succeeds exactly when the directory is new and creatable, and adds it with its ancestors. An existing one reports "Directory already exists."; a failure changes nothing. |
| FileProcessorService.PairBatchReport | FolderFlect/Services/FileProcessorService.cs:39-59 | A pair batch's report records each pair with its own outcome, in order. |
| FileProcessorService.PathBatchReport | FolderFlect/Services/FileProcessorService.cs:109-128 | A path batch's report records each path with its own outcome, in order. |
| FileProcessorService.PairReportAccounts | FolderFlect/Services/FileProcessorService.cs:39-59 | Whatever the outcomes, a pair report lists every pair exactly once (as a multiset), as processed or failed, and leaves the single-path lists empty. |
| FileProcessorService.PathReportAccounts | FolderFlect/Services/FileProcessorService.cs:109-128 | Whatever the outcomes, a path report lists every path exactly once (as a multiset), as processed or failed, and leaves the pair lists empty. |
| FileProcessorService.PairBatchAccountsForEveryPair | FolderFlect/Services/FileProcessorService.cs:33-96 | A move or copy batch reports every pair exactly once, processed or failed, and writes only the two pair lists. |
| FileProcessorService.PathBatchAccountsForEveryPath | FolderFlect/Services/FileProcessorService.cs:103-197 | A delete or create batch reports every path exactly once, processed or failed, and writes only the two single-path lists. |
| FileProcessorService.BatchFailuresMeanUnprocessedItems | FolderFlect/Models/OperationFileProcessorResult.cs:20-23 | A batch report has failures exactly when fewer items were processed than were given. |
| FileProcessorService.PairBatchKeepsValid | FolderFlect/Services/FileProcessorService.cs:33-96 | Move and copy batches keep files and directories apart and leave the locks alone. |
| FileProcessorService.PathBatchKeepsValid | FolderFlect/Services/FileProcessorService.cs:103-197 | The delete and create batches keep files and directories apart and leave the locks alone. |
| FileProcessorService.CreatedDirectoriesExist | FolderFlect/Services/FileProcessorService.cs:171-197 | After a create batch no directory has gone, and every directory reported created exists. |
| FileProcessorService.DeletedFilesAreGone | FolderFlect/Services/FileProcessorService.cs:103-131 | After a file-delete batch no file has appeared, and no file reported deleted exists. |
| FileProcessorService.DeletedDirectoriesAreGone | FolderFlect/Services/FileProcessorService.cs:138-164 | After a directory-delete batch nothing has appeared, and nothing remains beneath a directory reported deleted. |
| FileSyncHelper.GetRelativePath | FolderFlect/Helpers/FileSyncHelper.cs:46-53 | Succeeds exactly when the target starts with the base, ignoring ASCII case. It then returns the rest of the target with its leading separators dropped. Otherwise it fails with the argument error's message. |
| FileSyncHelper.RelativePathOfCombine | FolderFlect/Helpers/FileSyncHelper.cs:46-63 | Cutting any base, empty or ending in the separator included, off a relative path joined onto it gives the relative path back (round trip), provided the relative path does not start with the separator. |
| FileSyncHelper.RelativePathIgnoresCaseOfBase | FolderFlect/Helpers/FileSyncHelper.cs:48 | The answer does not depend on the ASCII case of the base part of the target. |
| FileSyncHelper.SiblingDirectoryIsAccepted | FolderFlect/Helpers/FileSyncHelper.cs:48-51 | The base test compares characters, not path components: "/data/src2/a.txt" relative to "/data/src" is "2/a.txt". |
| FileSyncHelper.GetAbsolutePaths | FolderFlect/Helpers/FileSyncHelper.cs:55-63 | One absolute path per relative path, in order, each the relative path joined onto the base. |
| FileSyncHelper.AbsolutePathsRoundTrip | FolderFlect/Helpers/FileSyncHelper.cs:46-63 | Every absolute path GetAbsolutePaths makes leads back to its relative path through GetRelativePath. |
| FileSynchronizerService.ConstructorCheck | FolderFlect/Services/FileSynchronizerService.cs:28-29 | Accepts exactly when both roots are non-blank. A blank source root is reported first, each with its argument-error message. |
| FileSynchronizerService.NewFileSynchronizer | FolderFlect/Services/FileSynchronizerService.cs:25-33 | Construction succeeds exactly when the check passes, keeping both roots and the file system; otherwise it fails with the check's message. |
| FileSynchronizerService.FileSynchronizer.constructor | FolderFlect/Services/FileSynchronizerService.cs:25-33 | Keeps the two roots given and the file system. |
| FileSynchronizerService.SyncPlan | FolderFlect/Services/FileSynchronizerService.cs:42-51 | Five reports, in the source's order and names: directory creation, file moving, file copying, file deletion, directory deletion. |
| FileSynchronizerService.AnyFailures | FolderFlect/Services/FileSynchronizerService.cs:145-148 | True exactly when some report has failures. |
| FileSynchronizerService.FileSynchronizer.SyncFilesByMD5 | FolderFlect/Services/FileSynchronizerService.cs:42-65 | Always succeeds. The new state and the reports are SyncPlan of the old state. |
| FileSynchronizerService.FileSynchronizer.DeleteFilesFromDestinationAsync | FolderFlect/Services/FileSynchronizerService.cs:72-77 | Deletes the files at the relative paths under the replica root, labelled "File Deletion". |
| FileSynchronizerService.FileSynchronizer.CopyFilesToDestinationAsync | FolderFlect/Services/FileSynchronizerService.cs:84-96 | Copies each relative path from the source root to the same path under the replica root, labelled "File Copying". |
| FileSynchronizerService.FileSynchronizer.DeleteDirectoriesAsync | FolderFlect/Services/FileSynchronizerService.cs:103-108 | Deletes the directories under the replica root, labelled "Directory Deletion". |
| FileSynchronizerService.FileSynchronizer.CreateDirectoriesAsync | FolderFlect/Services/FileSynchronizerService.cs:115-120 | Creates the directories under the replica root, labelled "Directory Creation". |
| FileSynchronizerService.FileSynchronizer.MoveFilesAsync | FolderFlect/Services/FileSynchronizerService.cs:126-138 | Moves each (old, new) pair, both taken under the replica root, labelled "File Moving". |
| FileSynchronizerService.SyncPlanKeepsValid | FolderFlect/Services/FileSynchronizerService.cs:42-51 | A whole sync keeps files and directories apart and leaves the locks alone. |
| FileSynchronizerService.SyncPlanAccountsForEveryEntry | FolderFlect/Services/FileSynchronizerService.cs:42-51 | Each report's processed and failed items add up to its part of the plan. |
| FileSynchronizerService.SyncReportsIssuesExactlyWhenWorkIsLeft | FolderFlect/Services/FileSynchronizerService.cs:56-60 | The sync reports issues exactly when some entry of the plan was not carried out. |
| FileSynchronizerService.EmptyPlanChangesNothing | FolderFlect/Services/FileSynchronizerService.cs:42-65 | An empty plan changes nothing and reports five empty, failure-free operations. |
| FileSynchronizerService.CopyPathsRoundTrip | FolderFlect/Services/FileSynchronizerService.cs:88-93 | Each copy pair reads the plan's relative path under the source root and writes the same relative path under the replica root. |
| FileSynchronizerService.MovePathsRoundTrip | FolderFlect/Services/FileSynchronizerService.cs:130-135 | Both ends of each move pair lie under the replica root, at the plan's relative paths. |
| DirectorySynchronizerService.DeleteDirectoriesOutcome | FolderFlect/Services/DirectorySynchronizerService.cs:25-54 | A null list, then a blank replica root, fail before anything is touched, each with the null-argument message. Otherwise the call succeeds exactly when no deletion throws. Every failure message starts with "Error while deleting directories: ". |
| DirectorySynchronizerService.CreateDirectoriesOutcome | FolderFlect/Services/DirectorySynchronizerService.cs:56-84 | The same for creation, with "Error while creating directories: ". |
| DirectorySynchronizerService.DirectorySynchronizer.constructor | FolderFlect/Services/DirectorySynchronizerService.cs:18-23 | Keeps the replica root of the configuration, unchecked. |
| DirectorySynchronizerService.DirectorySynchronizer.DeleteDirectories | FolderFlect/Services/DirectorySynchronizerService.cs:25-54 | The loop's new state and result are DeleteDirectoriesOutcome of the old state. |
| DirectorySynchronizerService.DirectorySynchronizer.CreateDirectories | FolderFlect/Services/DirectorySynchronizerService.cs:56-84 | The loop's new state and result are CreateDirectoriesOutcome of the old state. |
| DirectorySynchronizerService.DeleteEachOnlyRemoves | FolderFlect/Services/DirectorySynchronizerService.cs:35-45 | Deleting directories never adds a file or directory and leaves the locks alone. |
| DirectorySynchronizerService.DeleteEachRemovesEveryDirectory | FolderFlect/Services/DirectorySynchronizerService.cs:35-47 | When no deletion throws, none of the listed directories exists afterwards. |
| DirectorySynchronizerService.CreateEachCreatesEveryDirectory | FolderFlect/Services/DirectorySynchronizerService.cs:66-77 | Creation only adds directories and keeps files and locks. When no creation throws, every listed directory exists afterwards. |
| DirectorySynchronizerService.CreateEachSkipsExisting | FolderFlect/Services/DirectorySynchronizerService.cs:70 | When every listed directory already exists, creation changes nothing and succeeds. |
| DirectorySynchronizerService.DeleteEachSkipsMissing | FolderFlect/Services/DirectorySynchronizerService.cs:39 | When no listed directory exists, deletion changes nothing and succeeds. |
| DirectorySynchronizerService.CreateDirectoriesIsIdempotent | FolderFlect/Services/DirectorySynchronizerService.cs:56-84 | Running a successful creation again changes nothing and succeeds. |
| DirectorySynchronizerService.DeleteDirectoriesIsIdempotent | FolderFlect/Services/DirectorySynchronizerService.cs:25-54 | Running a successful deletion again changes nothing and succeeds. |
| DirectorySynchronizerService.DeleteFailureNamesDirectory | FolderFlect/Services/DirectorySynchronizerService.cs:35-52 | A failed deletion stops at one listed directory i under the replica root: the directories before i were all handled without error, deleting i throws, its error is the result, and the state is the one left after the items before i, so nothing after i is touched. |
| DirectorySynchronizerService.DeleteStopsAtShift | FolderFlect/Services/DirectorySynchronizerService.cs:35-49 | If the rest of the list stops at item j after a first item that did not throw, the whole list stops at item j + 1. |
| DirectorySynchronizerService.CreateFailureNamesDirectory | FolderFlect/Services/DirectorySynchronizerService.cs:66-82 | A failed creation stops at one listed directory i under the replica root: the directories before i were all handled without error, creating i throws, its error is the result, and the state is the one left after the items before i, so nothing after i is touched. |
| DirectorySynchronizerService.CreateStopsAtShift | FolderFlect/Services/DirectorySynchronizerService.cs:66-80 | If the rest of the list stops at item j after a first item that did not throw, the whole list stops at item j + 1. |
| Text.TrimStart | FolderFlect/Helpers/FileSyncHelper.cs:51 | Drops exactly the leading run of the character: the result is a suffix that does not start with it, and everything cut was that character. |
| Text.Trim | FolderFlect/Helpers/TimeHelper.cs:32 | The result neither starts nor ends with white space. |
| Text.IntToString | FolderFlect/Helpers/TimeHelper.cs:20-30 | Decimal text of an `int`: digits with an optional leading minus, never ending in the sign. |
| Text.TryParseInt32 | FolderFlect/Helpers/ConfigurationLoader.cs:68 | `int.TryParse`: a success lies in the `int` range and comes from a trimmed text that starts with a digit or a sign. |
| Text.ParseIntToString | FolderFlect/Helpers/ConfigurationLoader.cs:68 | Parsing the text of any `int` gives that `int` back. |
| TimeHelper.TDiv | FolderFlect/Helpers/TimeHelper.cs:9 | C# `/` by a positive divisor rounds toward zero. |
| TimeHelper.TMod | FolderFlect/Helpers/TimeHelper.cs:10 | C# `%` by a positive divisor: quotient times divisor plus remainder is the dividend, and the remainder takes the dividend's sign. |
| TimeHelper.Decompose | FolderFlect/Helpers/TimeHelper.cs:9-14 | The four units add back up to the total. For a non-negative total each unit lies in its range; for a negative total each is non-positive. |
| TimeHelper.GetInterval | FolderFlect/Helpers/TimeHelper.cs:7-33 | The text built is IntervalText of the input: every unit from the first positive one down to the seconds, separated by single spaces. |
| TimeHelper.RenderShape | FolderFlect/Helpers/TimeHelper.cs:30-32 | A rendering is at least two characters, has no white space at either end (so the final Trim changes nothing), and ends with the seconds' text followed by 's'. |
| TimeHelper.RenderEndsWithSeconds | FolderFlect/Helpers/TimeHelper.cs:30 | Whatever units come before, a rendering ends with the seconds' text followed by 's'. |
| TimeHelper.UnitsShownFromFirstPositive | FolderFlect/Helpers/TimeHelper.cs:18-30 | With positive days every unit is shown. With no days but positive hours, hours, minutes and seconds are shown. With only positive minutes, minutes and seconds. Otherwise only the seconds. |
| TimeHelper.AssembledText | FolderFlect/Helpers/TimeHelper.cs:16-30 | The text assembled by the three conditional appends and the seconds equals the reference rendering. |
| TimeHelper.UnderAMinute | FolderFlect/Helpers/TimeHelper.cs:26-30 | Under a minute only the seconds are shown. |
| TimeHelper.WholeDay | FolderFlect/Helpers/TimeHelper.cs:18-30 | From one day on every unit is shown, zeros included: 86400 is "1d 0h 0m 0s". |
| TimeHelper.NegativeShowsOnlySeconds | FolderFlect/Helpers/TimeHelper.cs:9-30 | A negative duration shows only the signed seconds of its last partial minute. |
| TimeHelper.MinusNinetySeconds | FolderFlect/Helpers/TimeHelper.cs:9-30 | For instance, -90 is shown as "-30s". |
| ConfigurationLoader.ValidateArgumentsPresent | FolderFlect/Helpers/ConfigurationLoader.cs:30-39 | Fails, with the usage message, exactly when there are no arguments. |
| ConfigurationLoader.AreConfigurationValuesValid | FolderFlect/Helpers/ConfigurationLoader.cs:91-114 | Passes exactly when all four values are present and the interval is positive. Otherwise the first missing value (source, replica, interval, log) names the failure. |
| ConfigurationLoader.ParseArguments | FolderFlect/Helpers/ConfigurationLoader.cs:41-89 | The loop returns ParsedArguments: the pairs read in order by ParseFrom, then the value check of AreConfigurationValuesValid. |
| ConfigurationLoader.LoadConfiguration | FolderFlect/Helpers/ConfigurationLoader.cs:12-28 | Returns Configuration: the presence check, then the parse, then the four values as an AppConfig. |
| ConfigurationLoader.ParseFromSucceedsExactly | FolderFlect/Helpers/ConfigurationLoader.cs:48-81 | Reading succeeds exactly when every pair is good: a known key followed by a value not starting with '-', and for the interval a value that parses to a positive `int`. |
| ConfigurationLoader.ParseFromFailsAtFirstBadPair | FolderFlect/Helpers/ConfigurationLoader.cs:48-81 | When the pair at k is the first bad one, reading fails with the message for that pair. A missing or '-' value gives "Expected a value", checked before the key. A good value after the interval key gives the interval message with the value. After any other unknown key it gives "Unknown argument". |
| ConfigurationLoader.LastPathValueWins | FolderFlect/Helpers/ConfigurationLoader.cs:57-76 | A path key given more than once keeps the value of its last pair; a key not given keeps its earlier value. |
| ConfigurationLoader.LastIntervalWins | FolderFlect/Helpers/ConfigurationLoader.cs:67-72 | The interval is the parsed value of the last interval pair; without one it keeps its earlier value. |
| ConfigurationLoader.LoadedValuesAreSet | FolderFlect/Helpers/ConfigurationLoader.cs:83-88 | A loaded configuration is the parsed values, all present and with a positive interval. |
| ConfigurationLoader.LoadedConfigurationUsesLastValues | FolderFlect/Helpers/ConfigurationLoader.cs:12-89 | Every key of a loaded configuration was given, and each value comes from the last pair that sets its key. |
| ConfigurationLoader.LoadWellFormedArguments | FolderFlect/Helpers/ConfigurationLoader.cs:12-89 | Four well-formed pairs load into exactly the configuration they describe (the interval's text parsed back). |

## Left out

- Logging, the mediator and async: these are left out.
  - Every `_logger` call is dropped.
  - The mediator commands and their handlers are direct calls to the batch
    operations.
  - `await` is sequential composition.
  - Concurrency (`SemaphoreManager`) and the scheduler are not part of this
    model.
- FileSynchronizerService.FileSynchronizer.SyncFilesByMD5: the source only
  logs the five operation reports and returns `Result.Success()`. Logging is
  not modelled, so the method returns the reports it would have logged as a
  second output, `results`, beside the status.
- `FileSyncHelper.SetFileAsWritable`: the batches call this synchronous
  method, which is not among the source files. It is modelled on
  `SetFileAsWritableAsync` (`FolderFlect/Helpers/FileSyncHelper.cs:9-17`) as
  clearing the read-only flag. An exception it might throw (the file vanishing
  between the check and the call) is not modelled.
- `PathHelper.GetRelativePath` (`FolderFlect/Helpers/PathHelper.cs:6-13`) is
  the same text as `FileSyncHelper.GetRelativePath`. It is modelled once, by
  `FileSyncHelper.GetRelativePath`.
- The scanners, MD5 hashing, `EnsureDirectoryExistsAsync`, the command-line
  parser behind `CommandLineConfig`, and `AppConfig.ToString` are not part of
  this model. Scanned indexes enter as `Dictionary` values and MD5 hashes as
  strings.
- Exception messages: the wording .NET gives file system exceptions is not
  modelled. `IoErrorMessage` only keeps the path the message names. The
  argument-exception messages are written out, with the suffix .NET appends.
- `FileSystem.FsState` keeps no closure invariant that every file's parent
  exists. Path normalisation (`..`, `.`, doubled separators, Windows roots) is
  not modelled; paths are compared as strings.
- Null values: only the nulls the core tests for are representable. These are
  the list argument of `DirectorySynchronizerService`, the missing next argument
  of `ParseArguments`, `Path.GetDirectoryName`'s result, and the roots of
  `CommandLineConfig`. Null dictionaries, null list elements and a null
  `AppConfig.ReplicaPath` are not. The indexer failure a null would cause is
  the only exception the comparers can meet in the model.
- `FileSynchronizerService.FileSynchronizer.constructor`: does not model the
  null checks of the logger and the mediator. Only the two root checks are
  modelled, in `NewFileSynchronizer`, because the other two objects are not
  part of this model.
- `DirectorySynchronizerService.DirectorySynchronizer.constructor`: does not
  model the null check of the logger, for the same reason.
- Text services cover ASCII only:
  - `char.IsWhiteSpace` covers ASCII white space only;
  - case-insensitive comparison upper-cases ASCII letters only;
  - `int.TryParse` accepts surrounding ASCII white space, an optional sign
    and ASCII digits, with no culture-specific signs or digits;
  - `StartsWith("-")` is taken as ordinal.
- `Text.TryParseInt32`: its contract bounds the result and the text's first
  character only. The exact value is characterised by `ParseIntToString` and
  by the definition.
- `FileComparerService.FileModel`: it keeps only the name, relative path, hash
  and attribute word. Size and timestamps take no part in the comparisons.
