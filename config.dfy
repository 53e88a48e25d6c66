/** The profile records that the engine consumes, as the configuration loader
    produces them (the loader itself, internal/config/config.go, is not part of
    this model; the field set follows its uses in the core). */
module Config {
  import opened Wrappers

  /** One label: a name, a colour written as six hex digits, and an optional
      description ("" when absent). */
  datatype Label = Label(name: string, color: string, description: string)

  datatype LabelConfig = LabelConfig(clearExisting: bool, items: seq<Label>)

  /** A template identifier and a destination path relative to the repository. */
  datatype BoilerplateFile = BoilerplateFile(src: string, dest: string)

  datatype BoilerplateConfig = BoilerplateConfig(files: seq<BoilerplateFile>)

  /** Branch protection; an empty `branch` disables it. `requiredReviews` is a Go `int`. */
  datatype BranchProtection = BranchProtection(
    branch: string,
    requiredReviews: int,
    dismissStaleReviews: bool,
    requireStatusChecks: bool)

  /** Repository toggles, each of which may be left unset (a nil `*bool`). */
  datatype RepoSettings = RepoSettings(
    hasWiki: Option<bool>,
    hasProjects: Option<bool>,
    deleteBranchOnMerge: Option<bool>,
    allowSquashMerge: Option<bool>,
    allowMergeCommit: Option<bool>,
    allowRebaseMerge: Option<bool>)

  datatype Profile = Profile(
    description: string,
    settings: RepoSettings,
    labels: LabelConfig,
    boilerplate: BoilerplateConfig,
    branchProtection: BranchProtection)
}
