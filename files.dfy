/** The part of the local filesystem the boilerplate scaffolder touches:
    regular files with their bytes and the directories known to exist, and
    Go's path operations. filepath.Join, filepath.Abs and filepath.EvalSymlinks
    depend on the working directory and on the symbolic links present, so they
    are abstract functions here; filepath.Dir on a clean path and os.MkdirAll
    and os.WriteFile are modelled. */
module Files {
  import opened Wrappers

  newtype byte = x: int | 0 <= x < 256

  /** The path operations of the host. `abs` and `evalSymlinks` give None where
      Go returns an error. `land` is where a write through a path ends up once
      the kernel has followed every symbolic link along it (the path itself
      when there is none). */
  datatype PathOps = PathOps(
    join: (string, string) -> string,
    abs: string -> Option<string>,
    evalSymlinks: string -> Option<string>,
    land: string -> string)

  datatype FsError =
    | NotADirectory(path: string)
    | IsADirectory(path: string)
    | NoSuchDirectory(path: string)

  /** Regular files and their contents, and the directories that exist. */
  datatype Disk = Disk(files: map<string, seq<byte>>, dirs: set<string>)

  /** The result of one filesystem call: an error or none, and the disk after it. */
  datatype Changed = Changed(err: Option<FsError>, disk: Disk)

  /** The index of the last `/` in `p`, or -1 when there is none. */
  function LastSlash(p: string): (i: int)
    ensures -1 <= i < |p|
    ensures i >= 0 ==> p[i] == '/'
    ensures forall j :: i < j < |p| ==> p[j] != '/'
    decreases |p|
  {
    if |p| == 0 then -1
    else if p[|p| - 1] == '/' then |p| - 1
    else LastSlash(p[..|p| - 1])
  }

  /** Go's filepath.Dir on a clean path: everything before the last element,
      "/" at the root and "." when there is no separator. */
  function Dir(p: string): (d: string)
    ensures |d| < |p| || d == "/" || d == "."
    ensures LastSlash(p) > 0 ==> |d| < |p| && p[..|d| + 1] == d + "/"
                                 && forall j :: |d| < j < |p| ==> p[j] != '/'
    ensures LastSlash(p) < 0 ==> d == "."
  {
    var i := LastSlash(p);
    if i < 0 then "." else if i == 0 then "/" else p[..i]
  }

  /** A path and all its ancestors, as os.MkdirAll creates them. */
  function Lineage(p: string): (s: set<string>)
    ensures p in s
    ensures forall a :: a in s ==> |a| <= |p|
    decreases |p|
  {
    var d := Dir(p);
    if |d| < |p| then {p} + Lineage(d) else {p}
  }

  /** Every member of a lineage other than its top has its parent there too:
      os.MkdirAll leaves no gap in the chain it creates. */
  lemma {:induction false} LineageClosed(p: string, a: string)
    requires a in Lineage(p) && |Dir(a)| < |a|
    ensures Dir(a) in Lineage(p)
    decreases |p|
  {
    if a != p {
      LineageClosed(Dir(p), a);
    }
  }

  /** os.MkdirAll: fails when the path or one of its ancestors is a regular
      file, and otherwise leaves all of them as directories. */
  function MkdirAllOn(d: Disk, p: string): Changed {
    if exists a :: a in Lineage(p) && a in d.files then Changed(Some(NotADirectory(p)), d)
    else Changed(None, d.(dirs := d.dirs + Lineage(p)))
  }

  /** os.MkdirAll succeeds exactly when no member of the lineage is a regular
      file; it never touches a file, and on success every member of the
      lineage is a directory. */
  lemma MkdirAllEffect(d: Disk, p: string)
    ensures var r := MkdirAllOn(d, p);
            && (r.err.None? <==> forall a :: a in Lineage(p) ==> a !in d.files)
            && r.disk.files == d.files
            && (r.err.Some? ==> r.disk == d)
            && (r.err.None? ==> d.dirs <= r.disk.dirs && Lineage(p) <= r.disk.dirs)
  {
  }

  /** os.WriteFile: the bytes replace whatever the file at the landing point
      held; it fails when that is a directory or the parent does not exist. */
  function WriteFileOn(ops: PathOps, d: Disk, p: string, data: seq<byte>): Changed {
    if ops.land(p) in d.dirs then Changed(Some(IsADirectory(p)), d)
    else if Dir(p) !in d.dirs then Changed(Some(NoSuchDirectory(p)), d)
    else Changed(None, d.(files := d.files[ops.land(p) := data]))
  }

  /** os.WriteFile succeeds exactly when the landing point is not a directory
      and the parent exists; then only the landing point changes, and it holds
      `data`. It never changes the directories. */
  lemma WriteFileEffect(ops: PathOps, d: Disk, p: string, data: seq<byte>)
    ensures var r := WriteFileOn(ops, d, p, data);
            && (r.err.None? <==> ops.land(p) !in d.dirs && Dir(p) in d.dirs)
            && r.disk.dirs == d.dirs
            && (r.err.None? ==> r.disk.files == d.files[ops.land(p) := data])
            && (r.err.Some? ==> r.disk == d)
  {
  }

  /** The filesystem as the scaffolder sees it. */
  class FileSystem {
    var files: map<string, seq<byte>>
    var dirs: set<string>
    const ops: PathOps

    constructor (files0: map<string, seq<byte>>, dirs0: set<string>, ops: PathOps)
      ensures files == files0 && dirs == dirs0 && this.ops == ops
    {
      files := files0;
      dirs := dirs0;
      this.ops := ops;
    }

    function State(): Disk
      reads this
    {
      Disk(files, dirs)
    }

    method MkdirAll(p: string) returns (err: Option<FsError>)
      modifies this
      ensures Changed(err, State()) == MkdirAllOn(old(State()), p)
    {
      if exists a :: a in Lineage(p) && a in files {
        err := Some(NotADirectory(p));
      } else {
        dirs := dirs + Lineage(p);
        err := None;
      }
    }

    method WriteFile(p: string, data: seq<byte>) returns (err: Option<FsError>)
      modifies this
      ensures Changed(err, State()) == WriteFileOn(ops, old(State()), p, data)
    {
      if ops.land(p) in dirs {
        err := Some(IsADirectory(p));
      } else if Dir(p) !in dirs {
        err := Some(NoSuchDirectory(p));
      } else {
        files := files[ops.land(p) := data];
        err := None;
      }
    }
  }
}
