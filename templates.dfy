/** Template resolution for the boilerplate scaffolder
    (internal/scaffold/templates.go): a user template directory, when one is
    configured, overrides the built-in template set, but only for files that
    stay strictly inside it both before and after symbolic links are followed;
    every failure on the user side falls back to the built-in set. */
module Templates {
  import opened Wrappers
  import opened Strings
  import opened Files

  datatype TemplateError =
    | InvalidTemplatePath(name: string)
    | TemplateNotFound(name: string)

  /** The user-directory lookup. None stands for every way it can fail: no
      directory configured, a path that does not resolve, a path outside the
      directory before or after following links, or a file that cannot be
      read. Go's Abs and EvalSymlinks give "" on error, which is kept. */
  function UserOverride(ops: PathOps, files: map<string, seq<byte>>, name: string, userDir: string): Option<seq<byte>> {
    if userDir == "" then None
    else
      match ops.abs(ops.join(userDir, name))
      case None => None
      case Some(absUser) =>
        var absDir := ops.abs(userDir).GetOr("");
        if !HasPrefix(absUser, absDir + "/") then None
        else
          match ops.evalSymlinks(absUser)
          case None => None
          case Some(realPath) =>
            var realDir := ops.evalSymlinks(userDir).GetOr("");
            if HasPrefix(realPath, realDir + "/") && realPath in files then Some(files[realPath]) else None
  }

  /** ResolveTemplate: the content of template `name`, taken from the user
      directory when the file is found there and from the built-in set
      `embedded` otherwise. */
  function ResolveTemplate(ops: PathOps, embedded: map<string, seq<byte>>, files: map<string, seq<byte>>,
                           name: string, userDir: string): (r: Result<seq<byte>, TemplateError>)
    ensures Contains(name, "..") ==> r == Err(InvalidTemplatePath(name))
    ensures r.Err? ==> Contains(name, "..") || name !in embedded
    ensures r.Err? && !Contains(name, "..") ==> r == Err(TemplateNotFound(name))
  {
    if Contains(name, "..") then Err(InvalidTemplatePath(name))
    else
      match UserOverride(ops, files, name, userDir)
      case Some(data) => Ok(data)
      case None => if name in embedded then Ok(embedded[name]) else Err(TemplateNotFound(name))
  }

  /** A user file that resolves strictly inside the user directory, before and
      after following links, and is readable, takes precedence over the
      built-in copy. */
  lemma UserFileWins(ops: PathOps, embedded: map<string, seq<byte>>, files: map<string, seq<byte>>,
                     name: string, userDir: string, absUser: string, realPath: string)
    requires !Contains(name, "..") && userDir != ""
    requires ops.abs(ops.join(userDir, name)) == Some(absUser)
    requires HasPrefix(absUser, ops.abs(userDir).GetOr("") + "/")
    requires ops.evalSymlinks(absUser) == Some(realPath)
    requires HasPrefix(realPath, ops.evalSymlinks(userDir).GetOr("") + "/")
    requires realPath in files
    ensures ResolveTemplate(ops, embedded, files, name, userDir) == Ok(files[realPath])
  {
  }

  /** Conversely, content that does not come from the built-in set was read
      from a file that lies strictly inside the user directory, both as joined
      and as resolved. */
  lemma UserContentInside(ops: PathOps, embedded: map<string, seq<byte>>, files: map<string, seq<byte>>,
                          name: string, userDir: string)
    requires ResolveTemplate(ops, embedded, files, name, userDir).Ok?
    requires name !in embedded || ResolveTemplate(ops, embedded, files, name, userDir).value != embedded[name]
    ensures userDir != "" && !Contains(name, "..")
    ensures exists absUser, realPath ::
              && ops.abs(ops.join(userDir, name)) == Some(absUser)
              && HasPrefix(absUser, ops.abs(userDir).GetOr("") + "/")
              && |absUser| > |ops.abs(userDir).GetOr("")|
              && ops.evalSymlinks(absUser) == Some(realPath)
              && HasPrefix(realPath, ops.evalSymlinks(userDir).GetOr("") + "/")
              && realPath in files
              && ResolveTemplate(ops, embedded, files, name, userDir).value == files[realPath]
  {
    var absUser := ops.abs(ops.join(userDir, name)).value;
    var realPath := ops.evalSymlinks(absUser).value;
    assert HasPrefix(absUser, ops.abs(userDir).GetOr("") + "/");
  }

  /** Every failure on the user side falls through to the built-in set: a
      built-in template is always resolved, from one side or the other. */
  lemma EmbeddedAlwaysResolves(ops: PathOps, embedded: map<string, seq<byte>>, files: map<string, seq<byte>>,
                               name: string, userDir: string)
    requires !Contains(name, "..") && name in embedded
    ensures var r := ResolveTemplate(ops, embedded, files, name, userDir);
            r.Ok? && (r.value == embedded[name] || UserOverride(ops, files, name, userDir) == Some(r.value))
  {
  }

  /** With no user directory the result depends only on the built-in set. */
  lemma NoUserDir(ops: PathOps, embedded: map<string, seq<byte>>, files: map<string, seq<byte>>, name: string)
    ensures ResolveTemplate(ops, embedded, files, name, "") ==
            if Contains(name, "..") then Err(InvalidTemplatePath(name))
            else if name in embedded then Ok(embedded[name])
            else Err(TemplateNotFound(name))
  {
  }

  /** `s` contains no two adjacent dots. */
  lemma NoDotDot(s: string)
    requires forall i :: 0 <= i < |s| - 1 ==> s[i] != '.' || s[i + 1] != '.'
    ensures !Contains(s, "..")
  {
    ContainsDotDot(s);
  }

  /** A built-in template resolves without a user directory, as in
      internal/scaffold/templates_test.go. */
  lemma EmbeddedExample(ops: PathOps, embedded: map<string, seq<byte>>, files: map<string, seq<byte>>)
    requires "contributing.md" in embedded
    ensures ResolveTemplate(ops, embedded, files, "contributing.md", "") == Ok(embedded["contributing.md"])
  {
    ContributingNoDotDot();
    NoUserDir(ops, embedded, files, "contributing.md");
  }

  lemma ContributingNoDotDot()
    ensures !Contains("contributing.md", "..")
  {
    var known := "contributing.md";
    assert forall i :: 0 <= i < |known| - 1 ==> known[i] != '.' || known[i + 1] != '.' by {
      assert forall i :: 0 <= i < |known| && i != 12 ==> known[i] != '.';
    }
    NoDotDot(known);
  }

  /** An unknown template is an error. */
  lemma MissingExample(ops: PathOps, embedded: map<string, seq<byte>>, files: map<string, seq<byte>>)
    requires "nonexistent.txt" !in embedded
    ensures ResolveTemplate(ops, embedded, files, "nonexistent.txt", "") == Err(TemplateNotFound("nonexistent.txt"))
  {
    var unknown := "nonexistent.txt";
    assert forall i :: 0 <= i < |unknown| - 1 ==> unknown[i] != '.' || unknown[i + 1] != '.' by {
      assert forall i :: 0 <= i < |unknown| && i != 11 ==> unknown[i] != '.';
    }
    NoDotDot(unknown);
    NoUserDir(ops, embedded, files, unknown);
  }

  /** A traversal is refused even with a user directory. */
  lemma TraversalExample(ops: PathOps, embedded: map<string, seq<byte>>, files: map<string, seq<byte>>, dir: string)
    ensures ResolveTemplate(ops, embedded, files, "../../etc/passwd", dir) == Err(InvalidTemplatePath("../../etc/passwd"))
  {
    assert HasPrefix("../../etc/passwd", "..");
  }

  /** A host whose paths are already absolute and free of links: joining is
      concatenation with a separator and nothing else changes a path. */
  const PlainOps := PathOps((a, b) => a + "/" + b, p => Some(p), p => Some(p), p => p)

  /** The override case of the tests: a file written into the user directory
      replaces the built-in copy. */
  lemma UserOverrideExample(embedded: map<string, seq<byte>>, custom: seq<byte>, dir: string)
    requires dir != ""
    ensures ResolveTemplate(PlainOps, embedded, map[dir + "/" + "contributing.md" := custom], "contributing.md", dir) == Ok(custom)
  {
    var name := "contributing.md";
    var path := dir + "/" + name;
    ContributingNoDotDot();
    assert HasPrefix(path, dir + "/") by {
      assert path[..|dir + "/"|] == dir + "/";
    }
    UserFileWins(PlainOps, embedded, map[path := custom], name, dir, path, path);
  }
}
