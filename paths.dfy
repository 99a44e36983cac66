/** The few `path` operations the route module uses, on POSIX-style paths. */
module Paths {

  /**
   * The staging directory `path.join(__dirname, '../../../downloads')`: the
   * `downloads` directory at the repository root. Its absolute prefix depends on
   * where the repository is checked out and is abstracted to this name.
   */
  const DownloadDir: string := "downloads"

  /** `path.join(dir, name)` for a directory and a name that has no separator. */
  function Join(dir: string, name: string): (r: string)
    ensures |r| == |dir| + 1 + |name|
    ensures r[..|dir|] == dir && r[|dir|] == '/' && r[|dir| + 1..] == name
  {
    dir + "/" + name
  }

  /** The index of the last `/` in `p`, or -1 when there is none. */
  function LastSlash(p: string): (r: int)
    ensures -1 <= r < |p|
    ensures r >= 0 ==> p[r] == '/'
    ensures forall k :: r < k < |p| ==> p[k] != '/'
  {
    if p == [] then -1
    else if p[|p| - 1] == '/' then |p| - 1
    else LastSlash(p[..|p| - 1])
  }

  /**
   * `path.basename(p)` for a path that does not end in `/`: what follows the
   * last `/` (all of `p` when it has none).
   */
  function Basename(p: string): (r: string)
    ensures '/' !in r
  {
    p[LastSlash(p) + 1..]
  }

  /** `s.endsWith(suffix)`. */
  predicate EndsWith(s: string, suffix: string)
  {
    |suffix| <= |s| && s[|s| - |suffix|..] == suffix
  }

  /** A name without separators is recovered by `Basename` from any path it is joined to. */
  lemma BasenameOfJoin(dir: string, name: string)
    requires name != [] && '/' !in name
    ensures Basename(Join(dir, name)) == name
  {
    var p := Join(dir, name);
    assert p[|p| - 1] == name[|name| - 1] != '/';
    assert p[|dir|] == '/' && forall j :: |dir| < j < |p| ==> p[j] != '/';
    assert LastSlash(p) == |dir|;
  }

  /**
   * The basename is the last component of the path: a suffix of it that is the
   * whole path or follows a `/`.
   */
  lemma BasenameIsLastComponent(p: string)
    ensures var r := Basename(p);
      |r| <= |p| && p[|p| - |r|..] == r && (|r| == |p| || p[|p| - |r| - 1] == '/')
  {
  }
}
