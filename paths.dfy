/** The '/'-separated path computations that the components write out by
    hand, and `path.join` as the main process uses it. */
module Paths {
  import opened Strings

  /** `p.split('/').pop() || ''`: the last segment of a path. It is exactly
      the text after the last '/', or the whole path when it has none. */
  function BaseName(p: string): (r: string)
    ensures r == p[LastIndexOf(p, '/') + 1..]
    ensures '/' !in r
  {
    SplitLast(p, '/');
    Last(Split(p, '/'))
  }

  /** `p.substring(0, p.lastIndexOf('/'))`: `substring` clamps the -1 of a
      path without '/' to 0, giving "". */
  function DirName(p: string): (r: string)
  {
    var i := LastIndexOf(p, '/');
    if i < 0 then "" else p[..i]
  }

  /** `p.split('/').slice(0, -1).join('/') || '/'`: the path with its last
      segment dropped, and the root when nothing is left. */
  function ParentPath(p: string): (r: string)
    ensures r == if DirName(p) == "" then "/" else DirName(p)
    ensures r != ""
  {
    SplitDropLastJoin(p, '/');
    var joined := Join(DropLast(Split(p, '/')), '/');
    if joined == "" then "/" else joined
  }

  /** A single path segment: what a directory listing yields as a name. */
  predicate IsSegment(name: string)
  {
    name != "" && '/' !in name
  }

  /** A directory path in normal form: non-empty, and with no trailing '/'
      unless it is the root. The path box accepts any text, so the browser
      may also hold other forms. */
  predicate IsDirectoryPath(dir: string)
  {
    dir != "" && (dir == "/" || dir[|dir| - 1] != '/')
  }

  /** `path.join(dir, name)` for a directory path that is already in normal
      form and a name that is one segment: a single '/' between them. */
  function JoinPath(dir: string, name: string): (r: string)
  {
    if dir == "" && name == "" then "."
    else if name == "" then dir
    else if dir == "" then name
    else if dir[|dir| - 1] == '/' then dir + name
    else dir + "/" + name
  }

  /** Whatever the directory, the entry path built with a one-segment name
      has that name as its last segment. */
  lemma JoinPathBaseName(dir: string, name: string)
    requires IsSegment(name)
    ensures BaseName(JoinPath(dir, name)) == name
  {
    var p := JoinPath(dir, name);
    var k := |p| - |name| - 1;
    if dir == "" {
      assert p == name;
      assert LastIndexOf(p, '/') == -1;
    } else {
      assert p[k] == '/';
      assert forall j :: k < j < |p| ==> p[j] == name[j - k - 1];
      assert LastIndexOf(p, '/') == k;
    }
  }

  /** The entry path built from a directory and a name ends in that name,
      and the text before its last '/' is the directory (or "" for the
      root). */
  lemma JoinPathSplits(dir: string, name: string)
    requires IsDirectoryPath(dir) && IsSegment(name)
    ensures BaseName(JoinPath(dir, name)) == name
    ensures DirName(JoinPath(dir, name)) == if dir == "/" then "" else dir
  {
    var p := JoinPath(dir, name);
    var k := if dir == "/" then 0 else |dir|;
    assert p == p[..k] + "/" + name;
    assert p[k] == '/';
    assert forall j :: k < j < |p| ==> p[j] == name[j - k - 1];
    assert LastIndexOf(p, '/') == k;
  }

  /** Opening an entry of a directory and then its parent row comes back to
      that directory. */
  lemma ParentOfEntry(dir: string, name: string)
    requires IsDirectoryPath(dir) && IsSegment(name)
    ensures ParentPath(JoinPath(dir, name)) == dir
  {
    JoinPathSplits(dir, name);
  }

  /** The parent of the root is the root. */
  lemma ParentOfRoot()
    ensures ParentPath("/") == "/"
  {
    assert LastIndexOf("/", '/') == 0;
  }

  /** Going up leaves the path as it is only at the root. */
  lemma ParentFixedOnlyAtRoot(p: string)
    ensures ParentPath(p) == p <==> p == "/"
  {
    if p == "/" {
      ParentOfRoot();
    } else if DirName(p) != "" {
      assert |DirName(p)| < |p|;
    }
  }

  /** When the last '/' is not the first character, the parent is the text
      before it, so it is strictly shorter. */
  lemma ParentShortens(p: string)
    requires LastIndexOf(p, '/') > 0
    ensures |ParentPath(p)| < |p|
    ensures ParentPath(p) == p[..LastIndexOf(p, '/')]
  {
  }

  /** `s.split('.').pop()?.toLowerCase()`: the lower-cased text after the
      last '.', or all of `s` lower-cased when it has no '.'. */
  function Extension(s: string): (r: string)
    ensures r == ToLower(s[LastIndexOf(s, '.') + 1..])
    ensures '.' !in r
  {
    SplitLast(s, '.');
    ToLower(Last(Split(s, '.')))
  }

  /** Two names that differ only in the case of their letters have the same
      extension key. */
  lemma ExtensionIgnoresCase(a: string, b: string)
    requires ToLower(a) == ToLower(b)
    ensures Extension(a) == Extension(b)
  {
    LastIndexOfLower(a, '.');
    LastIndexOfLower(b, '.');
    var i := LastIndexOf(a, '.');
    var j := LastIndexOf(b, '.');
    assert i == j;
    LowerSuffix(a, i + 1);
    LowerSuffix(b, j + 1);
  }
}
