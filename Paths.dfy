/** The `System.IO.Path` services the core uses, in their Unix form (the
    directory separator is '/'): `Path.Combine`, `Path.GetDirectoryName`, the
    "is this path inside that directory" test that recursive deletion relies
    on, the ancestors `Directory.CreateDirectory` creates, and the ordinal
    case-insensitive prefix test of `StringComparison.OrdinalIgnoreCase`. */
module Paths {
  import opened Wrappers
  import opened Text

  type Path = string

  /** `Path.DirectorySeparatorChar`. */
  const Separator: char := '/'

  predicate IsRooted(p: Path) {
    p != [] && p[0] == Separator
  }

  predicate HasSeparator(p: Path) {
    exists i :: 0 <= i < |p| && p[i] == Separator
  }

  /** `Path.Combine(basePath, relative)`: an empty side yields the other, a
      rooted second path replaces the first, and otherwise the two are joined
      with exactly the separator the first one lacks. */
  function Combine(basePath: Path, relative: Path): (r: Path)
    ensures relative != "" ==> |relative| <= |r| && r[|r| - |relative|..] == relative
    ensures relative == "" ==> r == basePath
    ensures !IsRooted(relative) ==> StartsWith(r, basePath)
  {
    if basePath == "" then relative
    else if relative == "" then basePath
    else if IsRooted(relative) then relative
    else if basePath[|basePath| - 1] == Separator then basePath + relative
    else basePath + [Separator] + relative
  }

  /** Length of the root of `p` (`PathInternal.GetRootLength` on Unix). */
  function RootLength(p: Path): (n: nat)
    ensures n <= |p|
  {
    if IsRooted(p) then 1 else 0
  }

  /** First loop of `GetDirectoryNameOffset`: walking back from `end`, the
      index of the last separator after the root, or the root length. */
  function LastSeparator(p: Path, root: nat, end: nat): (r: nat)
    requires root <= end <= |p|
    ensures root <= r <= end
    ensures r > root ==> r < end && p[r] == Separator
    ensures forall k :: r < k < end ==> p[k] != Separator
    decreases end
  {
    if end <= root then end
    else if p[end - 1] == Separator then end - 1
    else LastSeparator(p, root, end - 1)
  }

  /** Second loop of `GetDirectoryNameOffset`: backs over separators down to the root. */
  function TrimSeparators(p: Path, root: nat, end: nat): (r: nat)
    requires root <= end <= |p|
    ensures root <= r <= end
    ensures r > root ==> p[r - 1] != Separator
    ensures forall k :: r <= k < end ==> p[k] == Separator
    decreases end
  {
    if end > root && p[end - 1] == Separator then TrimSeparators(p, root, end - 1) else end
  }

  /** `Path.GetDirectoryName(p)`: `None` (null) for an empty path or a bare
      root, otherwise everything before the last separator, trailing
      separators removed (the root is kept). */
  function DirectoryName(p: Path): (r: Option<Path>)
    ensures r.None? <==> |p| <= RootLength(p)
    ensures r.Some? ==> |r.value| < |p| && StartsWith(p, r.value)
  {
    var root := RootLength(p);
    if |p| <= root then None
    else Some(p[..TrimSeparators(p, root, LastSeparator(p, root, |p|))])
  }

  /** The parent of a name joined onto a directory is that directory. */
  lemma ParentOfCombine(dir: Path, name: Path)
    requires dir != "" && dir[|dir| - 1] != Separator
    requires name != "" && !HasSeparator(name)
    ensures DirectoryName(Combine(dir, name)) == Some(dir)
  {
    var p := Combine(dir, name);
    assert p == dir + [Separator] + name;
    var root := RootLength(p);
    assert p[|dir|] == Separator;
    var last := LastSeparator(p, root, |p|);
    assert last == |dir| by {
      forall k | |dir| < k < |p| ensures p[k] != Separator {
        assert p[k] == name[k - |dir| - 1];
      }
    }
    assert TrimSeparators(p, root, last) == last;
    assert p[..|dir|] == dir;
  }

  /** `q` is the directory `dir` itself or lies somewhere under it. */
  predicate Beneath(dir: Path, q: Path) {
    q == dir || StartsWith(q, dir + [Separator])
  }

  /** Every proper ancestor of `p` that `Directory.CreateDirectory(p)` makes
      sure exists: each prefix of `p` that ends just before a separator. */
  function Ancestors(p: Path): (r: set<Path>)
    ensures forall a :: a in r ==> |a| < |p| && StartsWith(p, a)
  {
    set i | 0 < i < |p| && p[i] == Separator :: p[..i]
  }

  /** Ordinal upper-casing of one character (ASCII letters only). */
  function ToUpperOrdinal(c: char): (u: char)
    ensures !('a' <= u <= 'z')
  {
    if 'a' <= c <= 'z' then (c as int - 32) as char else c
  }

  /** `s.StartsWith(prefix, StringComparison.OrdinalIgnoreCase)`. */
  predicate StartsWithIgnoreCase(s: string, prefix: string) {
    |prefix| <= |s| && forall i :: 0 <= i < |prefix| ==> ToUpperOrdinal(s[i]) == ToUpperOrdinal(prefix[i])
  }
}
