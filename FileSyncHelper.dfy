/** Path conversions between absolute paths and paths relative to a root
    folder: cutting a base directory off a path, and joining a list of
    relative paths onto a base. */
module FileSyncHelper {
  import opened Wrappers
  import opened Text
  import opened Paths

  function NotUnderBaseMessage(baseDirectory: Path, targetPath: Path): string {
    "The target path " + targetPath + " does not start with the base directory " + baseDirectory
  }

  /** `GetRelativePath`: the part of `targetPath` after `baseDirectory`, its
      leading separators removed. The base must be a prefix of the target,
      compared character by character and ignoring ASCII case; otherwise the
      call fails with the argument error's message. */
  function GetRelativePath(baseDirectory: Path, targetPath: Path): (r: Result<Path>)
    ensures r.Success? <==> StartsWithIgnoreCase(targetPath, baseDirectory)
    ensures r.Fail? ==> r.message == NotUnderBaseMessage(baseDirectory, targetPath)
    ensures r.Success? ==>
              |r.value| <= |targetPath| - |baseDirectory|
              && r.value == targetPath[|targetPath| - |r.value|..]
              && (r.value == [] || r.value[0] != Separator)
              && forall i :: |baseDirectory| <= i < |targetPath| - |r.value| ==> targetPath[i] == Separator
  {
    if !StartsWithIgnoreCase(targetPath, baseDirectory) then
      Fail(NotUnderBaseMessage(baseDirectory, targetPath))
    else
      Success(TrimStart(targetPath[|baseDirectory|..], Separator))
  }

  /** Cutting a directory off a path joined onto it gives the joined part back. */
  lemma RelativePathOfCombine(baseDirectory: Path, relativePath: Path)
    requires relativePath == "" || relativePath[0] != Separator
    ensures GetRelativePath(baseDirectory, Combine(baseDirectory, relativePath)) == Success(relativePath)
  {
    var target := Combine(baseDirectory, relativePath);
    if baseDirectory == "" {
      assert target[|baseDirectory|..] == relativePath;
    } else {
      assert target[..|baseDirectory|] == baseDirectory;
      if relativePath != "" && baseDirectory[|baseDirectory| - 1] == Separator {
        assert target[|baseDirectory|..] == relativePath;
      } else if relativePath != "" {
        assert target[|baseDirectory|..] == [Separator] + relativePath;
        assert TrimStart(target[|baseDirectory|..], Separator) == TrimStart(relativePath, Separator);
      }
    }
  }

  /** The base is matched without regard to ASCII case: the same relative
      path comes back whatever the case of the base part of the target. */
  lemma RelativePathIgnoresCaseOfBase(baseDirectory: Path, otherCase: Path, rest: Path)
    requires |otherCase| == |baseDirectory|
    requires forall i :: 0 <= i < |baseDirectory| ==> ToUpperOrdinal(otherCase[i]) == ToUpperOrdinal(baseDirectory[i])
    ensures GetRelativePath(baseDirectory, otherCase + rest) == GetRelativePath(baseDirectory, baseDirectory + rest)
  {
    assert (otherCase + rest)[|baseDirectory|..] == rest;
    assert (baseDirectory + rest)[|baseDirectory|..] == rest;
    assert StartsWithIgnoreCase(baseDirectory + rest, baseDirectory) by {
      forall i | 0 <= i < |baseDirectory|
        ensures ToUpperOrdinal((baseDirectory + rest)[i]) == ToUpperOrdinal(baseDirectory[i])
      {
        assert (baseDirectory + rest)[i] == baseDirectory[i];
      }
    }
    assert StartsWithIgnoreCase(otherCase + rest, baseDirectory) by {
      forall i | 0 <= i < |baseDirectory|
        ensures ToUpperOrdinal((otherCase + rest)[i]) == ToUpperOrdinal(baseDirectory[i])
      {
        assert (otherCase + rest)[i] == otherCase[i];
      }
    }
  }

  /** The base test compares characters, not path components: a sibling
      directory whose name extends the base's last name is accepted, and the
      rest of that name comes back as the relative path. */
  lemma SiblingDirectoryIsAccepted()
    ensures GetRelativePath("/data/src", "/data/src2/a.txt") == Success("2/a.txt")
  {
    assert "/data/src2/a.txt"[9..] == "2/a.txt";
  }

  /** Each relative path joined onto the base, in order. */
  function AbsolutePaths(relativePaths: seq<Path>, basePath: Path): seq<Path> {
    seq(|relativePaths|, i requires 0 <= i < |relativePaths| => Combine(basePath, relativePaths[i]))
  }

  /** `GetAbsolutePaths`: each relative path joined onto the base, in order. */
  method GetAbsolutePaths(relativePaths: seq<Path>, basePath: Path) returns (absolutePaths: seq<Path>)
    ensures |absolutePaths| == |relativePaths|
    ensures forall i :: 0 <= i < |relativePaths| ==> absolutePaths[i] == Combine(basePath, relativePaths[i])
    ensures absolutePaths == AbsolutePaths(relativePaths, basePath)
  {
    absolutePaths := [];
    for i := 0 to |relativePaths|
      invariant |absolutePaths| == i
      invariant forall k :: 0 <= k < i ==> absolutePaths[k] == Combine(basePath, relativePaths[k])
    {
      var absolutePath := Combine(basePath, relativePaths[i]);
      absolutePaths := absolutePaths + [absolutePath];
    }
  }

  /** Every absolute path made from a relative one leads back to it. */
  lemma AbsolutePathsRoundTrip(relativePaths: seq<Path>, basePath: Path, absolutePaths: seq<Path>)
    requires forall i :: 0 <= i < |relativePaths| ==> relativePaths[i] == "" || relativePaths[i][0] != Separator
    requires |absolutePaths| == |relativePaths|
    requires forall i :: 0 <= i < |relativePaths| ==> absolutePaths[i] == Combine(basePath, relativePaths[i])
    ensures forall i :: 0 <= i < |relativePaths| ==> GetRelativePath(basePath, absolutePaths[i]) == Success(relativePaths[i])
  {
    forall i | 0 <= i < |relativePaths|
      ensures GetRelativePath(basePath, absolutePaths[i]) == Success(relativePaths[i])
    {
      RelativePathOfCombine(basePath, relativePaths[i]);
    }
  }
}
