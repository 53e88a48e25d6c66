# gh-mint profile application engine, modelled in Dafny

gh-mint (formerly gh-repo-defaults) is a `gh` extension. It creates a GitHub
repository and then applies a profile to it: repository settings, labels,
boilerplate files and branch protection. This project models the engine that
turns a profile into those actions and proves what it promises.

- **Input validators.** `Validation` covers repository, label, profile and
  branch names, label colours, `owner/repo` identifiers, descriptions and the
  whole profile. The source's regular expressions are written as data in a
  small anchored character-class language (`Regex`). Each validator's contract
  states the accepted set directly, character by character, and lemmas connect
  the two.
- **Branch-protection step.** `Protection` covers the request body, the guards
  that run before the request, and the endpoint.
- **Label reconciler.** `Labels` covers the exact `gh label` argument vectors,
  the best-effort clear-then-create loop with its counters and error list, and
  the summary line.
- **Orchestrator.** `Orchestrator` covers the identifier, the URL parser, the
  settings update, progress reporting, and the fixed step sequence of
  `CreateWithDefaults`.
- **Boilerplate scaffolder.** `Templates` covers template resolution, with the
  user override first and the built-in set as fallback. `Boilerplate` covers
  the containment checks and the ordered writes that stop at the first
  failure.

The GitHub client is a `Client` object (`Remote`). Every reply it gets comes
from an oracle `answer(position, call)`. It records each request and each
progress status in one trace, so call order, call counts and what the progress
sink received can all be stated. The filesystem is a `FileSystem` object
(`Files`) with a map from paths to bytes and a set of directories. Path
resolution is abstract: join, absolute path, symlink evaluation, and the place
where a write lands once links are followed.

The state-changing code is written as methods and loops. Each is proved equal
to a specification function of the old state:

- `SyncLabels` to `SyncLabelsRun`;
- `CreateWithDefaults` to `CreateWithDefaultsRun`;
- `PrepareBoilerplate` to `PrepareRun`;
- `BuildProtectionPayload` to `ProtectionPayload`.

The properties the source promises are then proved as lemmas about those
functions.

The model follows what the code does, including where it falls short of
what the source's own comments and tests aim at.

- When a boilerplate file fails, `PrepareBoilerplate` returns the error but
  does not remove the files it wrote before that one (`PlaceAllFirstFailure`).
- The source resolves symbolic links to keep reads and writes inside their
  directory: the comment at `internal/scaffold/templates.go:28`, and the
  target directory at `internal/scaffold/boilerplate.go:15`. The destination
  check at `internal/scaffold/boilerplate.go:27-34` is only lexical, though.
  See "Findings".
- The "path traversal" case at `internal/config/validation_test.go:117`
  (`owner/../../etc`) is refused only because it holds two slashes.
  `ValidateNWO` accepts `../x` (`NwoAcceptsDotDotOwner`).

## Model

| member | source | states |
|---|---|---|
| Regex.StarMatches | internal/config/validation.go:10 | `c*` followed by the rest of the pattern matches exactly when some prefix is all in the class and the rest matches the remainder |
| Regex.PlusMatches | internal/config/validation.go:12-14 | `c+` followed by the rest matches exactly when some non-empty prefix is all in the class and the rest matches the remainder |
| Regex.ExactlyMatches | internal/config/validation.go:11 | `c{n}` followed by the rest matches exactly when the first n characters are in the class and the rest matches what follows them |
| Validation.RepoNamePatternMeaning | internal/config/validation.go:10 | `^[a-zA-Z0-9][a-zA-Z0-9._-]*$` matches exactly the non-empty strings that start with an ASCII letter or digit and continue with name characters |
| Validation.LabelColorPatternMeaning | internal/config/validation.go:11 | `^[0-9a-fA-F]{6}$` matches exactly six hex digits in either case |
| Validation.ProfileNamePatternMeaning | internal/config/validation.go:12 | `^[a-zA-Z0-9_-]+$` matches exactly the non-empty strings over letters, digits, `_` and `-` |
| Validation.BranchNamePatternMeaning | internal/config/validation.go:14 | `^[a-zA-Z0-9._/-]+$` matches exactly the non-empty strings over that class |
| Validation.NwoPatternMeaning | internal/config/validation.go:13 | the identifier pattern matches exactly when there is a split point holding `/` with a non-empty run of name characters on each side |
| Validation.ValidateRepoName | internal/config/validation.go:17-28 | accepted exactly when non-empty, at most 100 long, first character an ASCII letter or digit, the rest name characters; the empty and too-long errors come exactly in their cases, in that order |
| Validation.ValidateLabelColor | internal/config/validation.go:30-35 | accepted exactly when the string has six characters that are all hex digits in either case |
| Validation.ValidateProfileName | internal/config/validation.go:37-45 | accepted exactly when non-empty over `[A-Za-z0-9_-]`; the empty error exactly for "" |
| Validation.ValidateLabelName | internal/config/validation.go:47-60 | accepted exactly when non-empty, at most 50 bytes in UTF-8 and every character printable; empty and too-long errors exactly in their cases |
| Validation.NwoAccepted | internal/config/validation.go:62-70 | ValidateNWO accepts exactly the strings `A/B` with A and B non-empty over `[A-Za-z0-9._-]` |
| Validation.ValidateNWO | internal/config/validation.go:62-70 | the empty error exactly for ""; every other error names the identifier |
| Validation.NwoHasOneSlash | internal/config/validation.go:13 | an accepted identifier holds exactly one slash |
| Validation.NwoRejectsTwoSlashes | internal/config/validation.go:13 | any string with two slashes is refused |
| Validation.NwoRejectsEdgeSlash | internal/config/validation.go:13 | a leading or a trailing slash is refused |
| Validation.NwoAcceptsDotDotOwner | internal/config/validation.go:13 | `../x` is accepted: the identifier check has no traversal test |
| Validation.NwoExamples | internal/config/validation_test.go:110 | `owner/repo` is accepted |
| Validation.NwoNeedsSlash | internal/config/validation_test.go:114 | `ownerrepo` is refused |
| Validation.NwoSlashExamples | internal/config/validation_test.go:115-119 | `owner//repo`, `owner/repo/`, `/repo`, `/` and `owner/../../etc` are refused |
| Validation.BranchNameAccepted | internal/config/validation.go:72-83 | accepted exactly when 1 to 255 long over `[A-Za-z0-9._/-]` |
| Validation.ValidateBranchName | internal/config/validation.go:72-83 | the empty and too-long errors come exactly in their cases, in that order |
| Validation.BranchNameAcceptsSlash | internal/config/validation_test.go:159 | a branch with a slash is accepted |
| Validation.BranchNameExamples | internal/config/validation_test.go:162-163 | `my branch` and `branch;evil` are refused |
| Validation.ValidateDescription | internal/config/validation.go:85-90 | accepted exactly when at most 350 bytes long, so exactly up to 350 characters for ASCII text, the empty string included |
| Validation.RepoNameExamples | internal/config/validation_test.go:14 | `my-repo` is accepted |
| Validation.RepoNameNoSpace | internal/config/validation_test.go:18 | `my repo` is refused |
| Validation.RepoNameFirstCharExamples | internal/config/validation_test.go:20-22 | `.hidden`, `-repo` and `../evil` are refused |
| Validation.LabelColorExamples | internal/config/validation_test.go:41-47 | `d73a4a` is accepted; `#d73a4a`, `d73a4` and `zzzzzz` are refused |
| Validation.CheckLabels | internal/config/validation.go:96-103 | passes exactly when every label has a valid name and colour; otherwise the error is that of the first bad label, name checked before colour |
| Validation.CheckFiles | internal/config/validation.go:104-111 | passes exactly when every file has a non-empty src and dest; otherwise the error belongs to the first bad file, src checked before dest |
| Validation.ValidateProfile | internal/config/validation.go:92-121 | passes exactly when the profile name and every label and file are valid and, if a branch is set, the branch is valid with 0 to 6 reviews; each error means its own check failed and every earlier check passed |
| Protection.BuildProtectionPayload | internal/github/protection.go:12-35 | exactly four keys; admins false and restrictions null; the review block is null exactly when reviews <= 0, otherwise the stale flag and the count; the status-check block is null exactly without status checks, otherwise strict with no contexts |
| Protection.PayloadRoundTrip | internal/github/protection.go:12-35 | read back, the body gives the profile's review count (when positive), its stale-review flag and its status-check flag |
| Protection.EndpointDeterminesTarget | internal/github/protection.go:54 | two valid identifiers giving the same endpoint have the same identifier and branch |
| Protection.ProtectionGuards | internal/github/protection.go:37-61 | a request is made exactly when a branch is set and the identifier and branch are valid, and then it is the single PUT of the body to the endpoint; an empty branch succeeds silently; an invalid identifier fails first, then an invalid branch |
| Protection.ProtectionTargetsValidIdentifier | internal/github/protection.go:41-54 | the PUT never reaches a valid identifier or a branch other than the ones given |
| Protection.SetBranchProtection | internal/github/protection.go:37-61 | the trace grows by the run's requests and the result is the run's |
| Labels.LabelArgsRoundTrip | internal/github/labels.go:11-25 | the create, delete and list argument vectors parse back to the command, the repository and the label (description included) they were built from |
| Labels.CreateLabelArgs | internal/github/labels.go:11-17 | seven arguments, and two more (the description flag and text) exactly when the description is non-empty |
| Labels.CreateLabel | internal/github/labels.go:27-33 | one request with the create arguments; failure becomes a create error for that label |
| Labels.DeleteLabel | internal/github/labels.go:35-41 | one request with the delete arguments; failure becomes a delete error for that name |
| Labels.ListLabels | internal/github/labels.go:43-60 | one request with the list arguments; the result is the decoded names in order, a listing error, or a parse error |
| Labels.DeleteEach | internal/github/labels.go:69-75 | the delete loop makes one request per name, in order, and its counters and errors are those of DeleteAll |
| Labels.CreateEach | internal/github/labels.go:77-83 | the create loop makes one request per label, in order, and its counters and errors are those of CreateAll |
| Labels.SyncLabels | internal/github/labels.go:62-85 | the trace grows by the run's requests, and the counters and errors are the run's |
| Labels.DeleteAllEvents | internal/github/labels.go:69-70 | one delete request per listed name, in listing order |
| Labels.DeleteErrors | internal/github/labels.go:70-74 | at most one error per name, each a delete error naming one of the names given |
| Labels.DeleteAllCounts | internal/github/labels.go:69-75 | the new errors are exactly DeleteErrors: one delete error per failing request, with that name and detail, in order, after the earlier errors; every other name counts as deleted; nothing is created |
| Labels.CreateAllEvents | internal/github/labels.go:77-78 | one create request per configured label, in profile order |
| Labels.CreateErrors | internal/github/labels.go:78-82 | at most one error per label, each a create error |
| Labels.CreateAllCounts | internal/github/labels.go:77-83 | the new errors are exactly CreateErrors: one create error per failing request, with that label's name and the detail, in order, after the earlier errors; every other label counts as created; nothing is deleted |
| Labels.DeleteAllClean | internal/github/labels.go:69-75 | no delete error is added exactly when every delete request succeeds |
| Labels.CreateAllClean | internal/github/labels.go:77-83 | no create error is added exactly when every create request succeeds |
| Labels.SyncWithoutClearing | internal/github/labels.go:62-84 | without clearing there is no list or delete request and nothing is deleted; one create per label; the errors are those of the failing creates and every other label counts as created; no errors exactly when every create succeeds |
| Labels.SyncListFailureStops | internal/github/labels.go:64-68 | a failed listing gives exactly one list or parse error, no deletion, no creation and no further request |
| Labels.SyncAfterListing | internal/github/labels.go:63-83 | after a successful listing the run deletes every listed name, then creates every label |
| Labels.SyncWithClearingCounts | internal/github/labels.go:62-85 | the errors are those of the failing deletes followed by those of the failing creates; deleted is the listed count less the failed deletes, created the configured count less the failed creates |
| Labels.SyncWithClearingEvents | internal/github/labels.go:62-85 | the requests are the listing, then one delete per listed name, then one create per label |
| Labels.SyncWithClearingClean | internal/github/labels.go:62-85 | no errors exactly when every delete and every create succeeds |
| Labels.DeleteThenCreateClean | internal/github/labels.go:69-83 | after the listing, the deletes then the creates add no error exactly when each of their requests succeeds |
| Labels.SyncTargetsOnlyRepo | internal/github/labels.go:11-85 | every request of a synchronisation is a label command for the repository given |
| Labels.LabelSummary | internal/github/labels.go:87-93 | the line is the decimal count, " labels (", the names joined by ", ", then ")" |
| Labels.SummaryCount | internal/github/labels.go:92 | the summary opens with the label count in decimal up to a space and ends with ")" |
| Orchestrator.NwoIsNameIffNoOwner | internal/github/orchestrator.go:36-41 | the identifier is the bare name exactly when no owner is given, and otherwise `owner/` followed by the name |
| Orchestrator.NwoValid | internal/github/orchestrator.go:36-41 | a valid repository name under an owner made of name characters gives a valid `owner/repo` |
| Orchestrator.SplitRepoURL | internal/github/orchestrator.go:164-170 | "" without the `https://github.com/` prefix; otherwise the rest with one trailing slash removed |
| Orchestrator.SplitRepoURLRoundTrip | internal/github/orchestrator.go:164-170 | the URL of a valid identifier, with or without a trailing slash, parses back to it |
| Orchestrator.SplitRepoURLExamples | internal/github/orchestrator_test.go:48-65 | the test table plus the bare prefix: three URLs parse to their identifiers; `something-else`, "" and the bare prefix give "" |
| Orchestrator.SettingsUpdateShape | internal/github/orchestrator.go:173-183 | the update has a key exactly for each set field, carrying its value, and no other key |
| Orchestrator.SettingsRoundTrip | internal/github/orchestrator.go:173-183 | read back, the update gives the same record: explicit false stays false and unset stays unset |
| Orchestrator.SettingsAllUnset | internal/github/orchestrator_test.go:37-46 | an all-unset record gives an empty update |
| Orchestrator.SettingsExample | internal/github/orchestrator_test.go:9-35 | the test's record keeps its two false and two true fields and drops the two unset ones |
| Orchestrator.StatusOf | internal/github/orchestrator.go:47-51 | a status is successful exactly without an error, and carries the error |
| Orchestrator.ReportEvents | internal/github/orchestrator.go:43-53 | nothing without a sink; otherwise exactly one status with the step's name |
| Orchestrator.Report | internal/github/orchestrator.go:43-53 | the trace grows by exactly what ReportEvents gives |
| Orchestrator.TargetNwoReplaced | internal/github/orchestrator.go:67-73 | the identifier is replaced by the parsed URL only when no owner is set, the URL is non-empty and the parse is non-empty |
| Orchestrator.CreationFailureAborts | internal/github/orchestrator.go:61-65 | a failed creation gives an empty URL, that error, one failed "Created repository" status and no further request |
| Orchestrator.StepsAttempted | internal/github/orchestrator.go:77-115 | after creation the settings and label steps always run, then boilerplate (only with files) and protection (only with a branch), in order, one status each |
| Orchestrator.CreateOutcome | internal/github/orchestrator.go:90-120 | the run fails exactly when some status failed (non-empty label errors count once), with that count; the URL is returned either way; the sink got every status, in order |
| Orchestrator.AllSucceed | internal/github/orchestrator.go:56-121 | when every request succeeds and every listing decodes, the run succeeds |
| Orchestrator.LabelsStepTaken | internal/github/orchestrator.go:90-97 | the labels step adds the synchronisation's requests, one "Synced labels" status, and an error only when the synchronisation had errors |
| Orchestrator.ApplySettings | internal/github/orchestrator.go:77-88 | the trace and error list grow exactly as in SettingsStep |
| Orchestrator.ApplyLabels | internal/github/orchestrator.go:90-97 | the trace and error list grow exactly as in LabelsStep |
| Orchestrator.PushBoilerplate | internal/github/orchestrator.go:99-106 | the trace and error list grow exactly as in BoilerplateStep |
| Orchestrator.ApplyProtection | internal/github/orchestrator.go:108-115 | the trace and error list grow exactly as in ProtectionStep |
| Orchestrator.FinishCreation | internal/github/orchestrator.go:67-120 | after creation: the identifier used, the later steps, and a failure whose count is the number of errors |
| Orchestrator.CreateWithDefaults | internal/github/orchestrator.go:56-121 | the trace grows by the run's requests and statuses, and the URL and result are the run's |
| Remote.ReportsAppend | internal/github/orchestrator.go:43-53 | the statuses of two traces in sequence are the first trace's then the second's |
| Files.Dir | internal/scaffold/boilerplate.go:43 | the parent of a path with a slash is everything before its last slash |
| Files.LineageClosed | internal/scaffold/boilerplate.go:43 | the directories MkdirAll creates have no gap: each has its parent among them |
| Files.MkdirAllEffect | internal/scaffold/boilerplate.go:43 | succeeds exactly when no ancestor is a regular file; files are unchanged; on success every ancestor is a directory |
| Files.WriteFileEffect | internal/scaffold/boilerplate.go:46 | succeeds exactly when the landing point is not a directory and the parent exists; then only the landing point changes, to the data |
| Files.FileSystem.MkdirAll | internal/scaffold/boilerplate.go:43 | the new state is MkdirAllOn of the old |
| Files.FileSystem.WriteFile | internal/scaffold/boilerplate.go:46 | the new state is WriteFileOn of the old |
| Templates.ResolveTemplate | internal/scaffold/templates.go:15-47 | a name with `..` is refused whatever the user directory; any other error is a name missing from the built-in set |
| Templates.UserFileWins | internal/scaffold/templates.go:21-35 | a readable user file strictly inside the user directory, both as joined and as resolved, takes precedence over the built-in copy |
| Templates.UserContentInside | internal/scaffold/templates.go:21-39 | content that is not the built-in copy was read from a file strictly inside the user directory, both as joined and as resolved |
| Templates.EmbeddedAlwaysResolves | internal/scaffold/templates.go:21-46 | every failure on the user side falls through: a built-in name always resolves, to the user file or to the built-in copy |
| Templates.NoUserDir | internal/scaffold/templates.go:15-47 | without a user directory: a traversal error, else the built-in copy, else not found |
| Templates.EmbeddedExample | internal/scaffold/templates_test.go:8-16 | `contributing.md` resolves to its built-in copy |
| Templates.MissingExample | internal/scaffold/templates_test.go:18-23 | an unknown name gives not found |
| Templates.UserOverrideExample | internal/scaffold/templates_test.go:25-38 | a file written into the user directory replaces the built-in copy |
| Templates.TraversalExample | internal/scaffold/templates_test.go:40-46 | `../../etc/passwd` is refused with any user directory |
| Boilerplate.PlaceOne | internal/scaffold/boilerplate.go:23-49 | one iteration's new filesystem state and error are PlaceFile's |
| Boilerplate.PrepareBoilerplate | internal/scaffold/boilerplate.go:14-53 | the result and the new filesystem state are PrepareRun's: target resolution, then each file in order until the first failure |
| Boilerplate.PlaceAllStops | internal/scaffold/boilerplate.go:25-47 | once a file fails, later files change neither the result nor the disk |
| Boilerplate.PlaceFileEffect | internal/scaffold/boilerplate.go:24-48 | a failing file writes no file; a placed file passed every check, its parent directories exist, and exactly its landing point changed, to the resolved template's bytes |
| Boilerplate.PlaceAllSucceeds | internal/scaffold/boilerplate.go:20-52 | on success the list is the configured destinations in order, one per file, none containing `..` |
| Boilerplate.DotDotDestFails | internal/scaffold/boilerplate.go:24-26 | a destination containing `..` anywhere in the list makes the run fail |
| Boilerplate.PlaceAllFirstFailure | internal/scaffold/boilerplate.go:22-50 | a failed run stopped at some file: all earlier files were placed, that file failed with the returned error, and the files on disk are those the earlier files left |
| Boilerplate.ResolvedWritesInside | internal/scaffold/boilerplate.go:27-34 | with the resolved check, every file a run changes lies within the target, whether the run succeeds or fails |
| Boilerplate.PlaceAllWithoutLinks | internal/scaffold/boilerplate.go:27-34 | where no link redirects a write, the resolved check gives the same run as the source's |
| Boilerplate.TargetUnresolvedWritesNothing | internal/scaffold/boilerplate.go:15-18 | an unresolvable target fails the run with the disk untouched |
| Boilerplate.TraversalDestExample | internal/scaffold/boilerplate_test.go:38-49 | `../../etc/evil` fails the run with the disk untouched |
| Boilerplate.SymlinkEscapeAsWritten | internal/scaffold/boilerplate.go:27-49 | with a link inside the target pointing outside, the source's run succeeds and writes its one file outside the target |
| Boilerplate.SymlinkEscapeRefused | internal/scaffold/boilerplate.go:27-34 | with the resolved check the same run fails with an escape error and writes nothing |

## Left out

- Process I/O is not modelled: `exec.Command`, `c.run`, the `gh api` invocation and the JSON encoding of the request body. They become one gateway call whose reply comes from the oracle. The `json.Marshal` error branches in `SetBranchProtection` and `SettingsFromRepoSettings` cannot fail on these types and are omitted.
- `scaffoldAndPush` (internal/github/orchestrator.go:123-162) is one opaque gateway call. Its temporary directory, clone, home-directory lookup and git commands are I/O. The scaffolder it calls is modelled on its own in `Boilerplate`.
- JSON decoding of `gh label list` output is the client's `decodeLabels` parameter. Decoding the settings round-trip is the direct map of the set fields.
- `unicode.IsPrint` is a parameter `isPrint` of the validators.
- Go's path functions are abstract: `filepath.Join`, `filepath.Abs`, `filepath.EvalSymlinks`, and the kernel's following of links on write. The landing function is fixed for the whole run, so links created during the run are not modelled.
- `filepath.Dir` is modelled on clean paths only.
- File permissions, modes and read errors are not modelled. A user template that cannot be read counts as absent. A write is never partial.
- Error message texts and the `Message` field of StepStatus are not modelled. Errors are distinguished by kind and by the fields they carry.
- The progress callback is reduced to whether there is one. What it receives is recorded in the trace.
- config.go, repo.go (`CreateRepo`, `createRepoArgs`), client.go, cmd/*, internal/tui/* and main.go are not part of this model. Repository creation is one gateway call.
- Concurrency and the real GitHub platform behaviour are not modelled.

## Findings

| source | as written | input that shows it | evidently intended | confidence | as-written member | corrected member |
|---|---|---|---|---|---|---|
| internal/scaffold/boilerplate.go:27-34,43-46 | the destination is checked for containment only as joined, before links are followed, and then written through whatever links the path holds | target `/t` holding a link `link` to `/etc`, one file with destination `link/passwd`: the joined path `/t/link/passwd` passes the check, and the write lands at `/etc/passwd` | resolve symbolic links before the containment check, so a write never lands outside the target | medium, not executed | Boilerplate.SymlinkEscapeAsWritten | Boilerplate.SymlinkEscapeRefused |

The corrected behaviour is `PrepareBoilerplate` with the `Resolved` check. Two lemmas are proved about it:

- `ResolvedWritesInside`: every file it changes lies inside the target.
- `PlaceAllWithoutLinks`: on a host where no link redirects a write, it agrees with the source.
