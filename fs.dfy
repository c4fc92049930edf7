/** The operating system's filesystem as the main process sees it through
    Node's `fs.promises`: a map from file path to bytes and a set of
    directory paths. Each primitive either fails with an error and changes
    nothing, or succeeds with the change given by its specification
    function. Permissions, links and devices are not modelled. */
module Fs {
  import opened Common
  import opened Base64
  import opened Paths

  datatype FsError =
    | NotFound            // ENOENT: nothing at that path
    | IsADirectory        // EISDIR: a file operation on a directory
    | NoParentDirectory   // ENOENT/ENOTDIR: the containing directory is missing

  datatype FsState = FsState(files: map<string, seq<byte>>, dirs: set<string>)

  datatype Outcome = Done | Failed(error: FsError)

  /** No path is both a file and a directory. */
  predicate WellFormed(st: FsState)
  {
    st.files.Keys !! st.dirs
  }

  /** `q` lies strictly inside the directory `p`: it extends `p` past a
      '/', which is the last character of `p` itself when `p` ends in one
      (as the root "/" does). */
  predicate Beneath(q: string, p: string)
  {
    |q| > |p| && q[..|p|] == p && ((p != "" && p[|p| - 1] == '/') || q[|p|] == '/')
  }

  /** Every other absolute path lies inside the root. */
  lemma BeneathRoot(q: string)
    requires |q| > 1 && q[0] == '/'
    ensures Beneath(q, "/")
  {
  }

  datatype Kind = File | Directory

  /** `fs.promises.stat` */
  function StatSpec(st: FsState, p: string): (r: Result<Kind, FsError>)
    ensures r.Ok? <==> p in st.files || p in st.dirs
    ensures r == Ok(Directory) <==> p in st.dirs
  {
    if p in st.dirs then Ok(Directory)
    else if p in st.files then Ok(File)
    else Err(NotFound)
  }

  /** `fs.promises.readFile` (binary) */
  function ReadSpec(st: FsState, p: string): (r: Result<seq<byte>, FsError>)
    requires WellFormed(st)
    ensures r.Ok? <==> p in st.files
    ensures r.Ok? ==> r.value == st.files[p]
  {
    if p in st.dirs then Err(IsADirectory)
    else if p in st.files then Ok(st.files[p])
    else Err(NotFound)
  }

  /** `fs.promises.writeFile`: creates or overwrites a file whose containing
      directory exists. */
  function WriteSpec(st: FsState, p: string, data: seq<byte>): (r: Result<FsState, FsError>)
    ensures r.Ok? <==> p !in st.dirs && ParentPath(p) in st.dirs
    ensures r.Ok? ==> r.value.files == st.files[p := data] && r.value.dirs == st.dirs
  {
    if p in st.dirs then Err(IsADirectory)
    else if ParentPath(p) !in st.dirs then Err(NoParentDirectory)
    else Ok(st.(files := st.files[p := data]))
  }

  /** `fs.promises.unlink`: removes one file. */
  function UnlinkSpec(st: FsState, p: string): (r: Result<FsState, FsError>)
    ensures r.Ok? <==> p in st.files && p !in st.dirs
    ensures r.Ok? ==> r.value.files == st.files - {p} && r.value.dirs == st.dirs
  {
    if p in st.dirs then Err(IsADirectory)
    else if p !in st.files then Err(NotFound)
    else Ok(st.(files := st.files - {p}))
  }

  /** `fs.promises.rm(p, { recursive: true })`: removes `p` and everything
      beneath it. */
  function RemoveTreeSpec(st: FsState, p: string): (r: Result<FsState, FsError>)
    ensures r.Ok? <==> p in st.files || p in st.dirs
    ensures r.Ok? ==> forall q :: q in r.value.files <==> q in st.files && q != p && !Beneath(q, p)
    ensures r.Ok? ==> forall q :: q in r.value.dirs <==> q in st.dirs && q != p && !Beneath(q, p)
    ensures r.Ok? ==> forall q :: q in r.value.files ==> r.value.files[q] == st.files[q]
  {
    if p !in st.files && p !in st.dirs then Err(NotFound)
    else Ok(FsState(
      map q | q in st.files && q != p && !Beneath(q, p) :: st.files[q],
      set q | q in st.dirs && q != p && !Beneath(q, p)))
  }

  /** The state after a primitive: the new state on success, the old one on
      failure. */
  function After(r: Result<FsState, FsError>, st: FsState): FsState
  {
    if r.Ok? then r.value else st
  }

  function OutcomeOf(r: Result<FsState, FsError>): Outcome
  {
    if r.Ok? then Done else Failed(r.error)
  }

  /** The filesystem, updated in place by the primitives. */
  class FileSystem {
    var files: map<string, seq<byte>>
    var dirs: set<string>

    function Contents(): FsState
      reads this
    {
      FsState(files, dirs)
    }

    constructor (st: FsState)
      ensures Contents() == st
    {
      files := st.files;
      dirs := st.dirs;
    }

    method Stat(p: string) returns (r: Result<Kind, FsError>)
      ensures r == StatSpec(Contents(), p)
    {
      r := StatSpec(Contents(), p);
    }

    method ReadFile(p: string) returns (r: Result<seq<byte>, FsError>)
      requires WellFormed(Contents())
      ensures r == ReadSpec(Contents(), p)
    {
      r := ReadSpec(Contents(), p);
    }

    /** Puts the state a primitive answered in place, or keeps the current
        one when it failed. */
    method Apply(res: Result<FsState, FsError>) returns (r: Outcome)
      modifies this
      ensures r == OutcomeOf(res)
      ensures Contents() == After(res, old(Contents()))
    {
      if res.Ok? {
        files := res.value.files;
        dirs := res.value.dirs;
      }
      r := OutcomeOf(res);
    }

    method WriteFile(p: string, data: seq<byte>) returns (r: Outcome)
      modifies this
      ensures r == OutcomeOf(WriteSpec(old(Contents()), p, data))
      ensures Contents() == After(WriteSpec(old(Contents()), p, data), old(Contents()))
    {
      r := Apply(WriteSpec(Contents(), p, data));
    }

    method Unlink(p: string) returns (r: Outcome)
      modifies this
      ensures r == OutcomeOf(UnlinkSpec(old(Contents()), p))
      ensures Contents() == After(UnlinkSpec(old(Contents()), p), old(Contents()))
    {
      r := Apply(UnlinkSpec(Contents(), p));
    }

    method RemoveTree(p: string) returns (r: Outcome)
      modifies this
      ensures r == OutcomeOf(RemoveTreeSpec(old(Contents()), p))
      ensures Contents() == After(RemoveTreeSpec(old(Contents()), p), old(Contents()))
    {
      r := Apply(RemoveTreeSpec(Contents(), p));
    }
  }
}
