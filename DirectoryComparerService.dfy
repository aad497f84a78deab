/** The directory half of the diff: of two directory indexes (relative path
    -> absolute path), which replica directories the source lacks and which
    source directories the replica lacks. Only the keys take part. */
module DirectoryComparerService {
  import opened Wrappers
  import opened Paths
  import opened Dictionaries

  /** `GetDirectoriesToDelete`: the replica directories the source does not
      have, each once, in replica enumeration order. */
  method GetDirectoriesToDelete(sourceDirectory: Dictionary<Path>, destDirectory: Dictionary<Path>)
    returns (r: Result<seq<Path>>)
    ensures r.Success?
    ensures r.value == KeysNotIn(destDirectory.keys, sourceDirectory.entries.Keys)
  {
    var keys := destDirectory.keys;
    var directoriesToDelete := [];
    var i := 0;
    while i < |keys|
      invariant 0 <= i <= |keys|
      invariant directoriesToDelete == KeysNotIn(keys[..i], sourceDirectory.entries.Keys)
    {
      var key := keys[i];
      KeysNotInSnoc(keys, i, sourceDirectory.entries.Keys);
      if !sourceDirectory.ContainsKey(key) {
        directoriesToDelete := directoriesToDelete + [key];
      }
      i := i + 1;
    }
    assert keys[..i] == keys;
    return Success(directoriesToDelete);
  }

  /** `GetDirectoriesToCreate`: the source directories the replica does not
      have, each once, in source enumeration order. */
  method GetDirectoriesToCreate(sourceDirectory: Dictionary<Path>, destDirectory: Dictionary<Path>)
    returns (r: Result<seq<Path>>)
    ensures r.Success?
    ensures r.value == KeysNotIn(sourceDirectory.keys, destDirectory.entries.Keys)
  {
    var keys := sourceDirectory.keys;
    var directoriesToCreate := [];
    var i := 0;
    while i < |keys|
      invariant 0 <= i <= |keys|
      invariant directoriesToCreate == KeysNotIn(keys[..i], destDirectory.entries.Keys)
    {
      var key := keys[i];
      KeysNotInSnoc(keys, i, destDirectory.entries.Keys);
      if !destDirectory.ContainsKey(key) {
        directoriesToCreate := directoriesToCreate + [key];
      }
      i := i + 1;
    }
    assert keys[..i] == keys;
    return Success(directoriesToCreate);
  }

  /** Every directory known to either side is deleted, created or kept, and
      exactly one of the three. */
  lemma DirectoryPlanPartitions(sourceDirectory: Dictionary<Path>, destDirectory: Dictionary<Path>, p: Path)
    requires sourceDirectory.Valid() && destDirectory.Valid()
    requires sourceDirectory.ContainsKey(p) || destDirectory.ContainsKey(p)
    ensures var toDelete := KeysNotIn(destDirectory.keys, sourceDirectory.entries.Keys);
            var toCreate := KeysNotIn(sourceDirectory.keys, destDirectory.entries.Keys);
            var kept := sourceDirectory.ContainsKey(p) && destDirectory.ContainsKey(p);
            (p in toDelete && p !in toCreate && !kept)
            || (p !in toDelete && p in toCreate && !kept)
            || (p !in toDelete && p !in toCreate && kept)
  {
    KeysNotInOfDictionary(destDirectory, sourceDirectory.entries.Keys);
    KeysNotInOfDictionary(sourceDirectory, destDirectory.entries.Keys);
  }

  /** Neither directory list names a directory twice. */
  lemma DirectoryListsAreDistinct(sourceDirectory: Dictionary<Path>, destDirectory: Dictionary<Path>)
    requires sourceDirectory.Valid() && destDirectory.Valid()
    ensures Distinct(KeysNotIn(destDirectory.keys, sourceDirectory.entries.Keys))
    ensures Distinct(KeysNotIn(sourceDirectory.keys, destDirectory.entries.Keys))
  {
    KeysNotInDistinct(destDirectory.keys, sourceDirectory.entries.Keys);
    KeysNotInDistinct(sourceDirectory.keys, destDirectory.entries.Keys);
  }

  /** Two indexes over the same directories plan no directory work, whatever
      their absolute paths. */
  lemma SameDirectoriesNeedNothing(sourceDirectory: Dictionary<Path>, destDirectory: Dictionary<Path>)
    requires sourceDirectory.Valid() && destDirectory.Valid()
    requires sourceDirectory.entries.Keys == destDirectory.entries.Keys
    ensures KeysNotIn(destDirectory.keys, sourceDirectory.entries.Keys) == []
    ensures KeysNotIn(sourceDirectory.keys, destDirectory.entries.Keys) == []
  {
    KeysNotInAll(destDirectory.keys, sourceDirectory.entries.Keys);
    KeysNotInAll(sourceDirectory.keys, destDirectory.entries.Keys);
  }
}
