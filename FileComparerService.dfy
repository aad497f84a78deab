/** The path-keyed diff of two file indexes (relative path -> FileModel):
    which paths both sides share, which shared paths changed content, which
    changed only their attributes, which source files the destination lacks
    and which destination files must go. */
module FileComparerService {
  import opened Wrappers
  import opened Paths
  import opened Models
  import opened Dictionaries

  /** The difference a path-by-path comparison looks for. */
  datatype Change = ContentChange | AttributesOnlyChange

  predicate Differs(kind: Change, source: FileModel, dest: FileModel) {
    match kind
    case ContentChange => source.md5Hash != dest.md5Hash
    case AttributesOnlyChange =>
      source.md5Hash == dest.md5Hash && source.fileSystemAttributes != dest.fileSystemAttributes
  }

  /** Every listed path can be looked up on both sides. */
  predicate AllPresent(paths: seq<Path>, source: map<Path, FileModel>, dest: map<Path, FileModel>) {
    forall p :: p in paths ==> p in source && p in dest
  }

  /** The listed paths whose two records show the change `kind`, in list order. */
  function SelectChanged(kind: Change, paths: seq<Path>, source: map<Path, FileModel>, dest: map<Path, FileModel>): (r: seq<Path>)
    requires AllPresent(paths, source, dest)
    ensures forall p :: p in r <==> p in paths && Differs(kind, source[p], dest[p])
    ensures |r| <= |paths|
  {
    if paths == [] then []
    else
      var last := paths[|paths| - 1];
      SelectChanged(kind, paths[..|paths| - 1], source, dest)
        + (if Differs(kind, source[last], dest[last]) then [last] else [])
  }

  lemma SelectChangedSnoc(kind: Change, paths: seq<Path>, i: nat, source: map<Path, FileModel>, dest: map<Path, FileModel>)
    requires i < |paths| && AllPresent(paths[..i], source, dest)
    requires paths[i] in source && paths[i] in dest
    ensures AllPresent(paths[..i + 1], source, dest)
    ensures SelectChanged(kind, paths[..i + 1], source, dest)
            == SelectChanged(kind, paths[..i], source, dest)
               + (if Differs(kind, source[paths[i]], dest[paths[i]]) then [paths[i]] else [])
  {
    assert paths[..i + 1] == paths[..i] + [paths[i]];
  }

  /** The index of the first listed path that one of the two lookups lacks. */
  function FirstMissing(paths: seq<Path>, source: map<Path, FileModel>, dest: map<Path, FileModel>): (k: nat)
    requires !AllPresent(paths, source, dest)
    ensures k < |paths| && (paths[k] !in source || paths[k] !in dest)
    ensures forall j :: 0 <= j < k ==> paths[j] in source && paths[j] in dest
  {
    if paths[0] !in source || paths[0] !in dest then 0
    else
      assert !AllPresent(paths[1..], source, dest);
      1 + FirstMissing(paths[1..], source, dest)
  }

  /** The first path missing after a fully present prefix is the first missing path. */
  lemma FirstMissingAt(paths: seq<Path>, i: nat, source: map<Path, FileModel>, dest: map<Path, FileModel>)
    requires i < |paths| && AllPresent(paths[..i], source, dest)
    requires paths[i] !in source || paths[i] !in dest
    ensures !AllPresent(paths, source, dest)
    ensures FirstMissing(paths, source, dest) == i
  {
    assert forall j :: 0 <= j < i ==> paths[j] in paths[..i];
  }

  /** The message of the `KeyNotFoundException` a dictionary indexer throws. */
  function KeyNotFoundMessage(key: Path): string {
    "The given key '" + key + "' was not present in the dictionary."
  }

  /** The loop `GetFilesForUpdate` and `GetFilesForAttributesUpdate` share:
      look both records up, keep the path when they differ as `kind` says; the
      first failed lookup abandons the list. */
  method CollectChanged(kind: Change, intersectingFiles: seq<Path>, sourceFiles: Dictionary<FileModel>, destFiles: Dictionary<FileModel>)
    returns (r: Result<seq<Path>>)
    ensures AllPresent(intersectingFiles, sourceFiles.entries, destFiles.entries) ==>
              r == Success(SelectChanged(kind, intersectingFiles, sourceFiles.entries, destFiles.entries))
    ensures !AllPresent(intersectingFiles, sourceFiles.entries, destFiles.entries) ==>
              r == Fail(KeyNotFoundMessage(intersectingFiles[FirstMissing(intersectingFiles, sourceFiles.entries, destFiles.entries)]))
  {
    var selected := [];
    var i := 0;
    while i < |intersectingFiles|
      invariant 0 <= i <= |intersectingFiles|
      invariant AllPresent(intersectingFiles[..i], sourceFiles.entries, destFiles.entries)
      invariant selected == SelectChanged(kind, intersectingFiles[..i], sourceFiles.entries, destFiles.entries)
    {
      var path := intersectingFiles[i];
      if path !in sourceFiles.entries || path !in destFiles.entries {
        FirstMissingAt(intersectingFiles, i, sourceFiles.entries, destFiles.entries);
        return Fail(KeyNotFoundMessage(path));
      }
      var sourceFile := sourceFiles.entries[path];
      var destFile := destFiles.entries[path];
      SelectChangedSnoc(kind, intersectingFiles, i, sourceFiles.entries, destFiles.entries);
      if Differs(kind, sourceFile, destFile) {
        selected := selected + [path];
      }
      i := i + 1;
    }
    assert intersectingFiles[..i] == intersectingFiles;
    return Success(selected);
  }

  /** `GetFilesForUpdate`: the listed paths whose MD5 hashes differ, in list
      order; a path missing on either side fails the whole call. */
  method GetFilesForUpdate(intersectingFiles: seq<Path>, sourceFiles: Dictionary<FileModel>, destFiles: Dictionary<FileModel>)
    returns (r: Result<seq<Path>>)
    ensures r.Success? <==> AllPresent(intersectingFiles, sourceFiles.entries, destFiles.entries)
    ensures r.Success? ==>
              r.value == SelectChanged(ContentChange, intersectingFiles, sourceFiles.entries, destFiles.entries)
              && forall p :: p in r.value <==>
                   p in intersectingFiles && sourceFiles.entries[p].md5Hash != destFiles.entries[p].md5Hash
    ensures r.Fail? ==>
              r.message == "Error in GetFilesForUpdate: "
                + KeyNotFoundMessage(intersectingFiles[FirstMissing(intersectingFiles, sourceFiles.entries, destFiles.entries)])
  {
    r := CollectChanged(ContentChange, intersectingFiles, sourceFiles, destFiles);
    if r.Fail? {
      r := Fail("Error in GetFilesForUpdate: " + r.message);
    }
  }

  /** `GetFilesForAttributesUpdate`: the listed paths with equal MD5 hashes
      but different attributes, in list order; a path missing on either side
      fails the whole call. */
  method GetFilesForAttributesUpdate(intersectingFiles: seq<Path>, sourceFiles: Dictionary<FileModel>, destFiles: Dictionary<FileModel>)
    returns (r: Result<seq<Path>>)
    ensures r.Success? <==> AllPresent(intersectingFiles, sourceFiles.entries, destFiles.entries)
    ensures r.Success? ==>
              r.value == SelectChanged(AttributesOnlyChange, intersectingFiles, sourceFiles.entries, destFiles.entries)
              && forall p :: p in r.value <==>
                   p in intersectingFiles
                   && sourceFiles.entries[p].md5Hash == destFiles.entries[p].md5Hash
                   && sourceFiles.entries[p].fileSystemAttributes != destFiles.entries[p].fileSystemAttributes
    ensures r.Fail? ==>
              r.message == "Error in GetFilesForAttributesUpdate: "
                + KeyNotFoundMessage(intersectingFiles[FirstMissing(intersectingFiles, sourceFiles.entries, destFiles.entries)])
  {
    r := CollectChanged(AttributesOnlyChange, intersectingFiles, sourceFiles, destFiles);
    if r.Fail? {
      r := Fail("Error in GetFilesForAttributesUpdate: " + r.message);
    }
  }

  /** `GetIntersectingFiles`: the source keys the destination also has, each
      once, in source enumeration order. */
  function GetIntersectingFiles(sourceFiles: Dictionary<FileModel>, destFiles: Dictionary<FileModel>): (r: Result<seq<Path>>)
    requires sourceFiles.Valid()
    ensures r.Success?
    ensures forall p :: p in r.value <==> sourceFiles.ContainsKey(p) && destFiles.ContainsKey(p)
    ensures Distinct(r.value)
  {
    KeysInDistinct(sourceFiles.keys, destFiles.entries.Keys);
    Success(KeysIn(sourceFiles.keys, destFiles.entries.Keys))
  }

  /** The destination keys to delete: absent from the source, or present
      there under a different file name; in destination order. */
  function DeletionCandidates(keys: seq<Path>, source: map<Path, FileModel>, dest: map<Path, FileModel>): (r: seq<Path>)
    requires forall k :: k in keys ==> k in dest
    ensures forall p :: p in r <==> p in keys && (p !in source || dest[p].fileName != source[p].fileName)
  {
    if keys == [] then []
    else
      var last := keys[|keys| - 1];
      DeletionCandidates(keys[..|keys| - 1], source, dest)
        + (if last !in source || dest[last].fileName != source[last].fileName then [last] else [])
  }

  lemma DeletionCandidatesSnoc(keys: seq<Path>, i: nat, source: map<Path, FileModel>, dest: map<Path, FileModel>)
    requires i < |keys| && forall k :: k in keys ==> k in dest
    ensures forall k :: k in keys[..i] ==> k in dest
    ensures DeletionCandidates(keys[..i + 1], source, dest)
            == DeletionCandidates(keys[..i], source, dest)
               + (if keys[i] !in source || dest[keys[i]].fileName != source[keys[i]].fileName then [keys[i]] else [])
  {
    assert keys[..i + 1][..i] == keys[..i];
  }

  lemma {:induction false} DeletionCandidatesDistinct(keys: seq<Path>, source: map<Path, FileModel>, dest: map<Path, FileModel>)
    requires forall k :: k in keys ==> k in dest
    requires Distinct(keys)
    ensures Distinct(DeletionCandidates(keys, source, dest))
  {
    if keys != [] {
      var init := keys[..|keys| - 1];
      assert Distinct(init);
      DeletionCandidatesDistinct(init, source, dest);
      assert keys[|keys| - 1] !in init;
    }
  }

  /** Over a whole destination index: a path is deleted exactly when the
      destination has it and the source either lacks it or files it under
      another name; no path is deleted twice. */
  lemma DeletionCandidatesOfDictionary(sourceFiles: Dictionary<FileModel>, destFiles: Dictionary<FileModel>)
    requires destFiles.Valid()
    ensures var r := DeletionCandidates(destFiles.keys, sourceFiles.entries, destFiles.entries);
            Distinct(r)
            && forall p :: p in r <==>
                 destFiles.ContainsKey(p)
                 && (!sourceFiles.ContainsKey(p) || destFiles.entries[p].fileName != sourceFiles.entries[p].fileName)
  {
    DeletionCandidatesDistinct(destFiles.keys, sourceFiles.entries, destFiles.entries);
  }

  /** `GetFilesToDeleteFromDestination`: every destination path the source
      lacks, plus every shared path whose file name differs. */
  method GetFilesToDeleteFromDestination(sourceFiles: Dictionary<FileModel>, destFiles: Dictionary<FileModel>)
    returns (r: Result<seq<Path>>)
    requires destFiles.Valid()
    ensures r.Success?
    ensures r.value == DeletionCandidates(destFiles.keys, sourceFiles.entries, destFiles.entries)
  {
    var keys := destFiles.keys;
    var pathsToDelete := [];
    var i := 0;
    while i < |keys|
      invariant 0 <= i <= |keys|
      invariant pathsToDelete == DeletionCandidates(keys[..i], sourceFiles.entries, destFiles.entries)
    {
      var key := keys[i];
      DeletionCandidatesSnoc(keys, i, sourceFiles.entries, destFiles.entries);
      if !sourceFiles.ContainsKey(key) {
        pathsToDelete := pathsToDelete + [key];
      } else {
        var sourceFileName := sourceFiles.entries[key].fileName;
        if destFiles.entries[key].fileName != sourceFileName {
          pathsToDelete := pathsToDelete + [key];
        }
      }
      i := i + 1;
    }
    assert keys[..i] == keys;
    return Success(pathsToDelete);
  }

  /** `GetFilesToCopy`: the source paths the destination lacks, each once, in
      source enumeration order. */
  method GetFilesToCopy(sourceFiles: Dictionary<FileModel>, destFiles: Dictionary<FileModel>)
    returns (r: Result<seq<Path>>)
    ensures r.Success?
    ensures r.value == KeysNotIn(sourceFiles.keys, destFiles.entries.Keys)
  {
    var keys := sourceFiles.keys;
    var pathsToCopy := [];
    var i := 0;
    while i < |keys|
      invariant 0 <= i <= |keys|
      invariant pathsToCopy == KeysNotIn(keys[..i], destFiles.entries.Keys)
    {
      var key := keys[i];
      KeysNotInSnoc(keys, i, destFiles.entries.Keys);
      if !destFiles.ContainsKey(key) {
        pathsToCopy := pathsToCopy + [key];
      }
      i := i + 1;
    }
    assert keys[..i] == keys;
    return Success(pathsToCopy);
  }

  /** Over a whole source index: a path is copied exactly when the source
      has it and the destination does not; no path is copied twice. */
  lemma FilesToCopyOfDictionary(sourceFiles: Dictionary<FileModel>, destFiles: Dictionary<FileModel>)
    requires sourceFiles.Valid()
    ensures var r := KeysNotIn(sourceFiles.keys, destFiles.entries.Keys);
            Distinct(r) && forall p :: p in r <==> sourceFiles.ContainsKey(p) && !destFiles.ContainsKey(p)
  {
    KeysNotInDistinct(sourceFiles.keys, destFiles.entries.Keys);
    KeysNotInOfDictionary(sourceFiles, destFiles.entries.Keys);
  }

  /** No path is both a content update and an attribute-only update. */
  lemma UpdatesDisjoint(paths: seq<Path>, source: map<Path, FileModel>, dest: map<Path, FileModel>)
    requires AllPresent(paths, source, dest)
    ensures forall p :: p in SelectChanged(ContentChange, paths, source, dest)
                ==> p !in SelectChanged(AttributesOnlyChange, paths, source, dest)
  {
  }

  lemma {:induction false} SelectChangedOfSelf(kind: Change, paths: seq<Path>, files: map<Path, FileModel>)
    requires AllPresent(paths, files, files)
    ensures SelectChanged(kind, paths, files, files) == []
  {
    if paths != [] {
      SelectChangedOfSelf(kind, paths[..|paths| - 1], files);
    }
  }

  lemma {:induction false} DeletionCandidatesOfSelf(keys: seq<Path>, files: map<Path, FileModel>)
    requires forall k :: k in keys ==> k in files
    ensures DeletionCandidates(keys, files, files) == []
  {
    if keys != [] {
      DeletionCandidatesOfSelf(keys[..|keys| - 1], files);
    }
  }

  /** Comparing an index with itself plans nothing: no update, no attribute
      update, nothing to copy and nothing to delete. */
  lemma IdenticalIndexesNeedNothing(files: Dictionary<FileModel>, paths: seq<Path>)
    requires files.Valid()
    requires AllPresent(paths, files.entries, files.entries)
    ensures SelectChanged(ContentChange, paths, files.entries, files.entries) == []
    ensures SelectChanged(AttributesOnlyChange, paths, files.entries, files.entries) == []
    ensures KeysNotIn(files.keys, files.entries.Keys) == []
    ensures DeletionCandidates(files.keys, files.entries, files.entries) == []
  {
    SelectChangedOfSelf(ContentChange, paths, files.entries);
    SelectChangedOfSelf(AttributesOnlyChange, paths, files.entries);
    KeysNotInAll(files.keys, files.entries.Keys);
    DeletionCandidatesOfSelf(files.keys, files.entries);
  }
}
