/** The boilerplate scaffolder (internal/scaffold/boilerplate.go): resolves the
    target directory once, then for each configured file in order refuses a
    destination containing "..", joins it onto the target and checks that it
    stays there, resolves the template, creates the parent directories and
    writes the bytes. The first failure ends the run; files written before it
    stay written. */
module Boilerplate {
  import opened Wrappers
  import opened Strings
  import opened Config
  import opened Files
  import opened Templates

  datatype ScaffoldError =
    | TargetUnresolved(dir: string)
    | InvalidDest(dest: string)
    | DestUnresolved(dest: string)
    | DestEscapes(dest: string)
    | TemplateFailed(dest: string, template: TemplateError)
    | MkdirFailed(dest: string, fsError: FsError)
    | WriteFailed(dest: string, fsError: FsError)

  /** The containment test: `p` is `dir` itself or lies below `dir + "/"`. */
  predicate Within(dir: string, p: string) {
    p == dir || HasPrefix(p, dir + "/")
  }

  /** How a destination is checked before it is written: on the joined path
      only, as the source does, or also on where the write lands once the
      links along the path are followed. */
  datatype DestCheck = Lexical | Resolved

  /** The outcome of placing one file, and the disk after it. */
  datatype Placed = Placed(err: Option<ScaffoldError>, disk: Disk)

  /** The outcome of a run: the destinations written, or the first error. */
  datatype Prepared = Prepared(result: Result<seq<string>, ScaffoldError>, disk: Disk)

  /** One pass of the loop over the configured files. */
  function PlaceFile(ops: PathOps, embedded: map<string, seq<byte>>, d: Disk, absTarget: string, userDir: string,
                     f: BoilerplateFile, check: DestCheck): Placed {
    if Contains(f.dest, "..") then Placed(Some(InvalidDest(f.dest)), d)
    else
      match ops.abs(ops.join(absTarget, f.dest))
      case None => Placed(Some(DestUnresolved(f.dest)), d)
      case Some(absDest) =>
        if !Within(absTarget, absDest) then Placed(Some(DestEscapes(f.dest)), d)
        else if check.Resolved? && !Within(absTarget, ops.land(absDest)) then Placed(Some(DestEscapes(f.dest)), d)
        else
          match ResolveTemplate(ops, embedded, d.files, f.src, userDir)
          case Err(e) => Placed(Some(TemplateFailed(f.dest, e)), d)
          case Ok(content) =>
            var made := MkdirAllOn(d, Dir(absDest));
            if made.err.Some? then Placed(Some(MkdirFailed(f.dest, made.err.value)), made.disk)
            else
              var wrote := WriteFileOn(ops, made.disk, absDest, content);
              if wrote.err.Some? then Placed(Some(WriteFailed(f.dest, wrote.err.value)), wrote.disk)
              else Placed(None, wrote.disk)
  }

  /** The loop over `fs`, stopping at the first failure. */
  function PlaceAll(ops: PathOps, embedded: map<string, seq<byte>>, d: Disk, absTarget: string, userDir: string,
                    fs: seq<BoilerplateFile>, check: DestCheck): Prepared
    decreases |fs|
  {
    if fs == [] then Prepared(Ok([]), d)
    else
      var before := PlaceAll(ops, embedded, d, absTarget, userDir, fs[..|fs| - 1], check);
      if before.result.Err? then before
      else
        var step := PlaceFile(ops, embedded, before.disk, absTarget, userDir, fs[|fs| - 1], check);
        if step.err.Some? then Prepared(Err(step.err.value), step.disk)
        else Prepared(Ok(before.result.value + [fs[|fs| - 1].dest]), step.disk)
  }

  /** PrepareBoilerplate as a function of the disk it starts from. */
  function PrepareRun(ops: PathOps, embedded: map<string, seq<byte>>, d: Disk, cfg: BoilerplateConfig,
                      targetDir: string, userDir: string, check: DestCheck): Prepared {
    match ops.evalSymlinks(targetDir)
    case None => Prepared(Err(TargetUnresolved(targetDir)), d)
    case Some(absTarget) => PlaceAll(ops, embedded, d, absTarget, userDir, cfg.files, check)
  }

  /** One file, placed on the filesystem; the source's check is `Lexical`. */
  method PlaceOne(fs: FileSystem, embedded: map<string, seq<byte>>, absTarget: string, userDir: string, f: BoilerplateFile,
                  check: DestCheck)
    returns (err: Option<ScaffoldError>)
    modifies fs
    ensures Placed(err, fs.State()) == PlaceFile(fs.ops, embedded, old(fs.State()), absTarget, userDir, f, check)
  {
    if Contains(f.dest, "..") {
      return Some(InvalidDest(f.dest));
    }
    var absDest := fs.ops.abs(fs.ops.join(absTarget, f.dest));
    if absDest.None? {
      return Some(DestUnresolved(f.dest));
    }
    if !HasPrefix(absDest.value, absTarget + "/") && absDest.value != absTarget {
      return Some(DestEscapes(f.dest));
    }
    if check.Resolved? && !Within(absTarget, fs.ops.land(absDest.value)) {
      return Some(DestEscapes(f.dest));
    }
    var content := ResolveTemplate(fs.ops, embedded, fs.files, f.src, userDir);
    if content.Err? {
      return Some(TemplateFailed(f.dest, content.error));
    }
    var made := fs.MkdirAll(Dir(absDest.value));
    if made.Some? {
      return Some(MkdirFailed(f.dest, made.value));
    }
    var wrote := fs.WriteFile(absDest.value, content.value);
    if wrote.Some? {
      return Some(WriteFailed(f.dest, wrote.value));
    }
    return None;
  }

  /** PrepareBoilerplate: resolves the target directory, then places every
      configured file in order; returns the destinations written, or the
      first error. With `Lexical` it is the source's scaffolder; `Resolved`
      adds the check on where each write lands. */
  method PrepareBoilerplate(fs: FileSystem, cfg: BoilerplateConfig, targetDir: string, userDir: string,
                            embedded: map<string, seq<byte>>, check: DestCheck) returns (r: Result<seq<string>, ScaffoldError>)
    modifies fs
    ensures Prepared(r, fs.State()) == PrepareRun(fs.ops, embedded, old(fs.State()), cfg, targetDir, userDir, check)
  {
    var resolved := fs.ops.evalSymlinks(targetDir);
    if resolved.None? {
      return Err(TargetUnresolved(targetDir));
    }
    var absTarget := resolved.value;
    ghost var d0 := fs.State();
    var written: seq<string> := [];
    for i := 0 to |cfg.files|
      invariant PlaceAll(fs.ops, embedded, d0, absTarget, userDir, cfg.files[..i], check) == Prepared(Ok(written), fs.State())
    {
      var err := PlaceOne(fs, embedded, absTarget, userDir, cfg.files[i], check);
      PlaceAllNext(fs.ops, embedded, d0, absTarget, userDir, cfg.files, i, check);
      if err.Some? {
        PlaceAllStops(fs.ops, embedded, d0, absTarget, userDir, cfg.files[..i + 1], cfg.files[i + 1..], check);
        assert cfg.files[..i + 1] + cfg.files[i + 1..] == cfg.files;
        return Err(err.value);
      }
      written := written + [cfg.files[i].dest];
    }
    assert cfg.files[..|cfg.files|] == cfg.files;
    return Ok(written);
  }

  /** The loop over one more file is one more pass after the loop so far. */
  lemma PlaceAllNext(ops: PathOps, embedded: map<string, seq<byte>>, d: Disk, absTarget: string, userDir: string,
                     fs: seq<BoilerplateFile>, i: nat, check: DestCheck)
    requires i < |fs|
    ensures var before := PlaceAll(ops, embedded, d, absTarget, userDir, fs[..i], check);
            var step := PlaceFile(ops, embedded, before.disk, absTarget, userDir, fs[i], check);
            PlaceAll(ops, embedded, d, absTarget, userDir, fs[..i + 1], check) ==
              if before.result.Err? then before
              else if step.err.Some? then Prepared(Err(step.err.value), step.disk)
              else Prepared(Ok(before.result.value + [fs[i].dest]), step.disk)
  {
    assert fs[..i + 1][..i] == fs[..i];
  }

  /** Once a file fails, no later file is attempted: the run ends with that
      error and that disk whatever follows. */
  lemma {:induction false} PlaceAllStops(ops: PathOps, embedded: map<string, seq<byte>>, d: Disk, absTarget: string,
                                         userDir: string, xs: seq<BoilerplateFile>, ys: seq<BoilerplateFile>, check: DestCheck)
    requires PlaceAll(ops, embedded, d, absTarget, userDir, xs, check).result.Err?
    ensures PlaceAll(ops, embedded, d, absTarget, userDir, xs + ys, check) == PlaceAll(ops, embedded, d, absTarget, userDir, xs, check)
    decreases |ys|
  {
    if ys == [] {
      assert xs + ys == xs;
    } else {
      var front := ys[..|ys| - 1];
      PlaceAllStops(ops, embedded, d, absTarget, userDir, xs, front, check);
      assert (xs + ys)[..|xs + ys| - 1] == xs + front;
    }
  }

  /** The files of `d2` differ from those of `d1` only at paths within `dir`,
      and none was removed. */
  predicate ChangedOnlyWithin(d1: Disk, d2: Disk, dir: string) {
    && d1.files.Keys <= d2.files.Keys
    && forall k :: k in d2.files && (k !in d1.files || d2.files[k] != d1.files[k]) ==> Within(dir, k)
  }

  /** What one pass does. A failing file writes no file. A file that is placed
      passed every check; its parent directories now exist; and exactly one
      file changed, the landing point of its destination, which now holds the
      resolved template's bytes. */
  lemma PlaceFileEffect(ops: PathOps, embedded: map<string, seq<byte>>, d: Disk, absTarget: string, userDir: string,
                        f: BoilerplateFile, check: DestCheck)
    ensures var p := PlaceFile(ops, embedded, d, absTarget, userDir, f, check);
            && d.dirs <= p.disk.dirs
            && (p.err.Some? ==> p.disk.files == d.files)
            && (p.err.None? ==>
                  && !Contains(f.dest, "..")
                  && ops.abs(ops.join(absTarget, f.dest)).Some?
                  && var absDest := ops.abs(ops.join(absTarget, f.dest)).value;
                  && Within(absTarget, absDest)
                  && (check.Resolved? ==> Within(absTarget, ops.land(absDest)))
                  && ResolveTemplate(ops, embedded, d.files, f.src, userDir).Ok?
                  && Lineage(Dir(absDest)) <= p.disk.dirs
                  && p.disk.files == d.files[ops.land(absDest) := ResolveTemplate(ops, embedded, d.files, f.src, userDir).value])
  {
    if !Contains(f.dest, "..") && ops.abs(ops.join(absTarget, f.dest)).Some? {
      var absDest := ops.abs(ops.join(absTarget, f.dest)).value;
      var content := ResolveTemplate(ops, embedded, d.files, f.src, userDir);
      if content.Ok? {
        MkdirAllEffect(d, Dir(absDest));
        WriteFileEffect(ops, MkdirAllOn(d, Dir(absDest)).disk, absDest, content.value);
      }
    }
  }

  lemma PlacedDestClean(ops: PathOps, embedded: map<string, seq<byte>>, d: Disk, absTarget: string, userDir: string,
                        f: BoilerplateFile, check: DestCheck)
    ensures PlaceFile(ops, embedded, d, absTarget, userDir, f, check).err.None? ==> !Contains(f.dest, "..")
  {
  }

  /** A run that succeeds returns the configured destinations in order, one
      per file, each of which passed the ".." check. */
  lemma {:induction false} PlaceAllSucceeds(ops: PathOps, embedded: map<string, seq<byte>>, d: Disk, absTarget: string,
                                            userDir: string, fs: seq<BoilerplateFile>, check: DestCheck)
    requires PlaceAll(ops, embedded, d, absTarget, userDir, fs, check).result.Ok?
    ensures var ws := PlaceAll(ops, embedded, d, absTarget, userDir, fs, check).result.value;
            |ws| == |fs| && forall i :: 0 <= i < |fs| ==> ws[i] == fs[i].dest && !Contains(fs[i].dest, "..")
    decreases |fs|
  {
    if fs != [] {
      var front := fs[..|fs| - 1];
      var last := fs[|fs| - 1];
      PlaceAllOkStep(ops, embedded, d, absTarget, userDir, fs, check);
      PlaceAllSucceeds(ops, embedded, d, absTarget, userDir, front, check);
      var before := PlaceAll(ops, embedded, d, absTarget, userDir, front, check);
      PlacedDestClean(ops, embedded, before.disk, absTarget, userDir, last, check);
      AppendDest(before.result.value, front, last, fs);
    }
  }

  /** A run that succeeds succeeded on all files but the last, then placed the last. */
  lemma PlaceAllOkStep(ops: PathOps, embedded: map<string, seq<byte>>, d: Disk, absTarget: string,
                       userDir: string, fs: seq<BoilerplateFile>, check: DestCheck)
    requires fs != [] && PlaceAll(ops, embedded, d, absTarget, userDir, fs, check).result.Ok?
    ensures var before := PlaceAll(ops, embedded, d, absTarget, userDir, fs[..|fs| - 1], check);
            && before.result.Ok?
            && PlaceFile(ops, embedded, before.disk, absTarget, userDir, fs[|fs| - 1], check).err.None?
            && PlaceAll(ops, embedded, d, absTarget, userDir, fs, check).result.value == before.result.value + [fs[|fs| - 1].dest]
  {
  }

  lemma AppendDest(ws: seq<string>, front: seq<BoilerplateFile>, f: BoilerplateFile, fs: seq<BoilerplateFile>)
    requires |ws| == |front| && forall i :: 0 <= i < |front| ==> ws[i] == front[i].dest && !Contains(front[i].dest, "..")
    requires !Contains(f.dest, "..") && |fs| > 0 && front == fs[..|fs| - 1] && f == fs[|fs| - 1]
    ensures |ws + [f.dest]| == |fs| && forall i :: 0 <= i < |fs| ==> (ws + [f.dest])[i] == fs[i].dest && !Contains(fs[i].dest, "..")
  {
  }

  /** A destination containing ".." makes the run fail, wherever it appears. */
  lemma DotDotDestFails(ops: PathOps, embedded: map<string, seq<byte>>, d: Disk, absTarget: string, userDir: string,
                        fs: seq<BoilerplateFile>, check: DestCheck, i: nat)
    requires i < |fs| && Contains(fs[i].dest, "..")
    ensures PlaceAll(ops, embedded, d, absTarget, userDir, fs, check).result.Err?
  {
    if PlaceAll(ops, embedded, d, absTarget, userDir, fs, check).result.Ok? {
      PlaceAllSucceeds(ops, embedded, d, absTarget, userDir, fs, check);
    }
  }

  /** A run that fails stopped at some file `k`: every file before it was
      placed, `k` itself failed with the returned error, and the files on disk
      are those the first `k` files left. */
  lemma {:induction false} PlaceAllFirstFailure(ops: PathOps, embedded: map<string, seq<byte>>, d: Disk, absTarget: string,
                                                userDir: string, fs: seq<BoilerplateFile>, check: DestCheck)
    requires PlaceAll(ops, embedded, d, absTarget, userDir, fs, check).result.Err?
    ensures var r := PlaceAll(ops, embedded, d, absTarget, userDir, fs, check);
            exists k :: 0 <= k < |fs|
              && PlaceAll(ops, embedded, d, absTarget, userDir, fs[..k], check).result.Ok?
              && var before := PlaceAll(ops, embedded, d, absTarget, userDir, fs[..k], check);
              && PlaceFile(ops, embedded, before.disk, absTarget, userDir, fs[k], check).err == Some(r.result.error)
              && r.disk.files == before.disk.files
    decreases |fs|
  {
    var front := fs[..|fs| - 1];
    var before := PlaceAll(ops, embedded, d, absTarget, userDir, front, check);
    if before.result.Err? {
      PlaceAllFirstFailure(ops, embedded, d, absTarget, userDir, front, check);
      var k :| 0 <= k < |front|
                && PlaceAll(ops, embedded, d, absTarget, userDir, front[..k], check).result.Ok?
                && var b := PlaceAll(ops, embedded, d, absTarget, userDir, front[..k], check);
                && PlaceFile(ops, embedded, b.disk, absTarget, userDir, front[k], check).err == Some(before.result.error)
                && before.disk.files == b.disk.files;
      assert front[..k] == fs[..k] && front[k] == fs[k];
    } else {
      PlaceFileEffect(ops, embedded, before.disk, absTarget, userDir, fs[|fs| - 1], check);
      assert fs[..|fs| - 1] == front;
    }
  }

  /** With the resolved check, every file a run changes lies within the target
      directory, whether the run succeeds or fails. */
  lemma {:induction false} ResolvedWritesInside(ops: PathOps, embedded: map<string, seq<byte>>, d: Disk, absTarget: string,
                                                userDir: string, fs: seq<BoilerplateFile>)
    ensures ChangedOnlyWithin(d, PlaceAll(ops, embedded, d, absTarget, userDir, fs, Resolved).disk, absTarget)
    decreases |fs|
  {
    if fs != [] {
      var front := fs[..|fs| - 1];
      ResolvedWritesInside(ops, embedded, d, absTarget, userDir, front);
      var before := PlaceAll(ops, embedded, d, absTarget, userDir, front, Resolved);
      if before.result.Ok? {
        PlaceFileEffect(ops, embedded, before.disk, absTarget, userDir, fs[|fs| - 1], Resolved);
      }
    }
  }

  /** Where no write is redirected by a link, the resolved check refuses
      nothing the source accepts: both checks give the same pass. */
  lemma PlaceFileWithoutLinks(ops: PathOps, embedded: map<string, seq<byte>>, d: Disk, absTarget: string, userDir: string,
                              f: BoilerplateFile)
    requires forall p :: ops.land(p) == p
    ensures PlaceFile(ops, embedded, d, absTarget, userDir, f, Resolved) == PlaceFile(ops, embedded, d, absTarget, userDir, f, Lexical)
  {
  }

  /** Without redirecting links the two checks give the same run. */
  lemma {:induction false} PlaceAllWithoutLinks(ops: PathOps, embedded: map<string, seq<byte>>, d: Disk, absTarget: string,
                                                userDir: string, fs: seq<BoilerplateFile>)
    requires forall p :: ops.land(p) == p
    ensures PlaceAll(ops, embedded, d, absTarget, userDir, fs, Resolved) == PlaceAll(ops, embedded, d, absTarget, userDir, fs, Lexical)
    decreases |fs|
  {
    if fs != [] {
      var front := fs[..|fs| - 1];
      PlaceAllWithoutLinks(ops, embedded, d, absTarget, userDir, front);
      var before := PlaceAll(ops, embedded, d, absTarget, userDir, front, Lexical);
      PlaceFileWithoutLinks(ops, embedded, before.disk, absTarget, userDir, fs[|fs| - 1]);
    }
  }

  /** An unresolvable target directory fails the run before anything is written. */
  lemma TargetUnresolvedWritesNothing(ops: PathOps, embedded: map<string, seq<byte>>, d: Disk, cfg: BoilerplateConfig,
                                      targetDir: string, userDir: string, check: DestCheck)
    requires ops.evalSymlinks(targetDir).None?
    ensures PrepareRun(ops, embedded, d, cfg, targetDir, userDir, check) == Prepared(Err(TargetUnresolved(targetDir)), d)
  {
  }

  /** The traversal case of internal/scaffold/boilerplate_test.go: the run
      fails and the disk is left as it was. */
  lemma TraversalDestExample(ops: PathOps, embedded: map<string, seq<byte>>, d: Disk, targetDir: string, userDir: string,
                             check: DestCheck)
    ensures var cfg := BoilerplateConfig([BoilerplateFile("contributing.md", "../../etc/evil")]);
            var r := PrepareRun(ops, embedded, d, cfg, targetDir, userDir, check);
            r.result.Err? && r.disk == d
  {
    assert HasPrefix("../../etc/evil", "..");
    var fs := [BoilerplateFile("contributing.md", "../../etc/evil")];
    assert fs[..0] == [];
  }

  /** A run over a single file is that file's pass. */
  lemma PlaceAllSingle(ops: PathOps, embedded: map<string, seq<byte>>, d: Disk, absTarget: string, userDir: string,
                       f: BoilerplateFile, check: DestCheck)
    ensures var step := PlaceFile(ops, embedded, d, absTarget, userDir, f, check);
            PlaceAll(ops, embedded, d, absTarget, userDir, [f], check) ==
              if step.err.Some? then Prepared(Err(step.err.value), step.disk) else Prepared(Ok([f.dest]), step.disk)
  {
    assert [f][..0] == [];
    assert PlaceAll(ops, embedded, d, absTarget, userDir, [], check) == Prepared(Ok([]), d);
    assert [] + [f.dest] == [f.dest];
  }

  /** A host on which a symbolic link inside the target directory `t` makes
      a write to `t + "/" + dest` land at `outside`; every other path is
      absolute and free of links. */
  function LinkedHost(t: string, dest: string, outside: string): (ops: PathOps)
    ensures ops.evalSymlinks(t) == Some(t)
    ensures ops.abs(ops.join(t, dest)) == Some(t + "/" + dest)
    ensures ops.land(t + "/" + dest) == outside
  {
    PathOps((a, b) => a + "/" + b, p => Some(p), p => Some(p),
            p => if p == t + "/" + dest then outside else p)
  }

  /** The joined destination passes the lexical check. */
  lemma JoinedWithin(t: string, dest: string)
    ensures Within(t, t + "/" + dest)
  {
    var absDest := t + "/" + dest;
    assert absDest[..|t + "/"|] == t + "/";
  }

  /** As written, the destination check does not follow links: when a link
      inside the target points outside it (the target "/t" holding a link
      "link" to "/etc", with destination "link/passwd", say), the run succeeds
      and the one file it writes lies outside the target directory. */
  lemma SymlinkEscapeAsWritten(embedded: map<string, seq<byte>>, t: string, src: string, dest: string, outside: string)
    requires src in embedded && !Contains(src, "..") && !Contains(dest, "..")
    requires !Within(t, outside) && outside !in Lineage(Dir(t + "/" + dest))
    ensures var r := PrepareRun(LinkedHost(t, dest, outside), embedded, Disk(map[], {}),
                                BoilerplateConfig([BoilerplateFile(src, dest)]), t, "", Lexical);
            && r.result == Ok([dest])
            && r.disk.files == map[outside := embedded[src]]
  {
    var ops := LinkedHost(t, dest, outside);
    var d := Disk(map[], {});
    var f := BoilerplateFile(src, dest);
    var absDest := t + "/" + dest;
    JoinedWithin(t, dest);
    NoUserDir(ops, embedded, map[], src);
    MkdirAllEffect(d, Dir(absDest));
    var made := MkdirAllOn(d, Dir(absDest));
    WriteFileEffect(ops, made.disk, absDest, embedded[src]);
    PlaceAllSingle(ops, embedded, d, t, "", f, Lexical);
  }

  /** With the resolved check the same run is refused and nothing is written. */
  lemma SymlinkEscapeRefused(embedded: map<string, seq<byte>>, t: string, src: string, dest: string, outside: string)
    requires !Contains(dest, "..") && !Within(t, outside)
    ensures var r := PrepareRun(LinkedHost(t, dest, outside), embedded, Disk(map[], {}),
                                BoilerplateConfig([BoilerplateFile(src, dest)]), t, "", Resolved);
            r.result == Err(DestEscapes(dest)) && r.disk == Disk(map[], {})
  {
    var ops := LinkedHost(t, dest, outside);
    JoinedWithin(t, dest);
    PlaceAllSingle(ops, embedded, Disk(map[], {}), t, "", BoilerplateFile(src, dest), Resolved);
  }
}
