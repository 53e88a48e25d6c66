/** The orchestrator (internal/github/orchestrator.go): creates a repository,
    then applies a profile to it step by step (settings, labels, boilerplate,
    branch protection), reporting each step to an optional progress sink and
    carrying on past failed steps. */
module Orchestrator {
  import opened Wrappers
  import opened Strings
  import opened Config
  import opened Validation
  import opened Remote
  import opened Labels
  import opened Protection

  /** The options of one creation; the progress callback is reduced to whether
      there is one, and what it receives is recorded in the client's trace. */
  datatype CreateOpts = CreateOpts(
    name: string,
    description: string,
    public: bool,
    profile: Profile,
    owner: string,
    hasProgress: bool)

  /** CreateOpts.nwo: `owner/name` for an organisation repository, else the bare name. */
  function Nwo(o: CreateOpts): string {
    if o.owner != "" then o.owner + "/" + o.name else o.name
  }

  /** The identifier is the bare name exactly when no owner is given; so the
      orchestrator's test `nwo == Name` is a test for a missing owner. */
  lemma NwoIsNameIffNoOwner(o: CreateOpts)
    ensures Nwo(o) == o.name <==> o.owner == ""
    ensures o.owner != "" ==> HasPrefix(Nwo(o), o.owner + "/") && Nwo(o)[|o.owner| + 1..] == o.name
  {
    if o.owner != "" {
      assert |Nwo(o)| > |o.name|;
    }
  }

  /** With a valid repository name and an owner made of name characters, the
      identifier is a valid `owner/repo`. */
  lemma NwoValid(o: CreateOpts)
    requires ValidateRepoName(o.name).Pass?
    requires o.owner != "" && forall i :: 0 <= i < |o.owner| ==> IsNameChar(o.owner[i])
    ensures ValidateNWO(Nwo(o)).Pass?
  {
    var s := Nwo(o);
    var k := |o.owner|;
    assert forall i :: 0 <= i < k ==> s[i] == o.owner[i];
    assert forall i :: 0 <= i < |o.name| ==> s[k + 1 + i] == o.name[i];
    assert forall i :: k + 1 <= i < |s| ==> IsNameChar(s[i]) by {
      forall i | k + 1 <= i < |s| ensures IsNameChar(s[i]) {
        assert s[i] == o.name[i - k - 1];
      }
    }
    assert NwoSplitAt(s, k);
    NwoAccepted(s);
  }

  const GitHubPrefix := "https://github.com/"

  /** splitRepoURL: the part of a repository URL after the host, with one
      trailing slash removed; empty when the URL is not of that form. */
  function SplitRepoURL(url: string): (r: string)
    ensures !HasPrefix(url, GitHubPrefix) ==> r == ""
    ensures HasPrefix(url, GitHubPrefix) ==> r == TrimSuffix(url[|GitHubPrefix|..], "/")
  {
    if !HasPrefix(url, GitHubPrefix) then ""
    else
      var rest := url[|GitHubPrefix|..];
      if rest == "" then "" else TrimSuffix(rest, "/")
  }

  /** The URL of a repository, with or without a trailing slash, gives back its
      identifier. */
  lemma SplitRepoURLRoundTrip(nwo: string)
    requires ValidateNWO(nwo).Pass?
    ensures SplitRepoURL(GitHubPrefix + nwo) == nwo
    ensures SplitRepoURL(GitHubPrefix + nwo + "/") == nwo
  {
    NwoAccepted(nwo);
    var k :| NwoSplitAt(nwo, k);
    assert nwo[|nwo| - 1] != '/';
    var u1 := GitHubPrefix + nwo;
    var u2 := GitHubPrefix + nwo + "/";
    assert u1[..|GitHubPrefix|] == GitHubPrefix && u1[|GitHubPrefix|..] == nwo;
    assert u2[..|GitHubPrefix|] == GitHubPrefix && u2[|GitHubPrefix|..] == nwo + "/";
    assert (nwo + "/")[|nwo + "/"| - 1..] == "/";
    assert !HasSuffix(nwo, "/");
  }

  lemma SplitRepoURLExamples()
    ensures SplitRepoURL("https://github.com/owner/repo") == "owner/repo"
    ensures SplitRepoURL("https://github.com/org/my-tool") == "org/my-tool"
    ensures SplitRepoURL("https://github.com/owner/repo/") == "owner/repo"
    ensures SplitRepoURL("something-else") == ""
    ensures SplitRepoURL("") == ""
    ensures SplitRepoURL("https://github.com/") == ""
  {
    assert !HasPrefix("something-else", GitHubPrefix) by {
      assert "something-else"[0] != GitHubPrefix[0];
    }
    assert "https://github.com/owner/repo"[|GitHubPrefix|..] == "owner/repo";
    assert "https://github.com/org/my-tool"[|GitHubPrefix|..] == "org/my-tool";
    assert "https://github.com/owner/repo/"[|GitHubPrefix|..] == "owner/repo/";
    assert HasSuffix("owner/repo/", "/");
    assert !HasSuffix("owner/repo", "/");
    assert !HasSuffix("org/my-tool", "/");
  }

  /** The settings keys, in the order of the settings record. */
  const SettingKeys: seq<string> :=
    ["has_wiki", "has_projects", "delete_branch_on_merge", "allow_squash_merge", "allow_merge_commit", "allow_rebase_merge"]

  /** The settings record as (key, optional value) pairs, in key order. */
  function SettingFields(s: RepoSettings): seq<Option<bool>> {
    [s.hasWiki, s.hasProjects, s.deleteBranchOnMerge, s.allowSquashMerge, s.allowMergeCommit, s.allowRebaseMerge]
  }

  /** Adds `key` to the update only when its field is set. */
  function Keep(m: map<string, bool>, key: string, v: Option<bool>): map<string, bool> {
    if v.Some? then m[key := v.value] else m
  }

  /** SettingsFromRepoSettings: the JSON encoding drops the unset fields. */
  function SettingsFromRepoSettings(s: RepoSettings): map<string, bool> {
    Keep(Keep(Keep(Keep(Keep(Keep(map[],
      "has_wiki", s.hasWiki),
      "has_projects", s.hasProjects),
      "delete_branch_on_merge", s.deleteBranchOnMerge),
      "allow_squash_merge", s.allowSquashMerge),
      "allow_merge_commit", s.allowMergeCommit),
      "allow_rebase_merge", s.allowRebaseMerge)
  }

  /** The update holds a key for each set field, with that field's value, and
      no other key. */
  lemma SettingsUpdateShape(s: RepoSettings)
    ensures var m := SettingsFromRepoSettings(s);
            && (forall i :: 0 <= i < 6 ==> (SettingKeys[i] in m <==> SettingFields(s)[i].Some?))
            && (forall i :: 0 <= i < 6 && SettingFields(s)[i].Some? ==> m[SettingKeys[i]] == SettingFields(s)[i].value)
            && (forall k :: k in m ==> k in SettingKeys)
  {
  }

  /** Reads an update back into a settings record, as the platform would. */
  function SettingsOf(m: map<string, bool>): RepoSettings {
    RepoSettings(
      if "has_wiki" in m then Some(m["has_wiki"]) else None,
      if "has_projects" in m then Some(m["has_projects"]) else None,
      if "delete_branch_on_merge" in m then Some(m["delete_branch_on_merge"]) else None,
      if "allow_squash_merge" in m then Some(m["allow_squash_merge"]) else None,
      if "allow_merge_commit" in m then Some(m["allow_merge_commit"]) else None,
      if "allow_rebase_merge" in m then Some(m["allow_rebase_merge"]) else None)
  }

  /** The update loses nothing: an explicit false stays false and an unset
      field stays unset. */
  lemma SettingsRoundTrip(s: RepoSettings)
    ensures SettingsOf(SettingsFromRepoSettings(s)) == s
  {
    var m := SettingsFromRepoSettings(s);
    assert SettingKeys[0] == "has_wiki" && SettingKeys[1] == "has_projects";
    assert SettingKeys[2] == "delete_branch_on_merge" && SettingKeys[3] == "allow_squash_merge";
    assert SettingKeys[4] == "allow_merge_commit" && SettingKeys[5] == "allow_rebase_merge";
    assert SettingFields(s)[0] == s.hasWiki && SettingFields(s)[1] == s.hasProjects;
    assert SettingFields(s)[2] == s.deleteBranchOnMerge && SettingFields(s)[3] == s.allowSquashMerge;
    assert SettingFields(s)[4] == s.allowMergeCommit && SettingFields(s)[5] == s.allowRebaseMerge;
  }

  /** An all-unset record gives an empty update. */
  lemma SettingsAllUnset()
    ensures SettingsFromRepoSettings(RepoSettings(None, None, None, None, None, None)) == map[]
  {
  }

  lemma SettingsExample()
    ensures SettingsFromRepoSettings(RepoSettings(Some(false), Some(false), Some(true), Some(true), None, None))
            == map["has_wiki" := false, "has_projects" := false, "delete_branch_on_merge" := true, "allow_squash_merge" := true]
  {
  }

  /** The status of a step: successful exactly without an error, which it then carries. */
  function StatusOf(name: string, err: Option<Error>): (s: StepStatus)
    ensures s.name == name && (s.success <==> err.None?) && s.err == err
  {
    StepStatus(name, err.None?, err)
  }

  /** What report hands to the sink: nothing without one, else the step's status. */
  function ReportEvents(o: CreateOpts, name: string, err: Option<Error>): (r: seq<Event>)
    ensures |r| == (if o.hasProgress then 1 else 0)
    ensures o.hasProgress ==> r == [Reported(StatusOf(name, err))]
  {
    if o.hasProgress then [Reported(StatusOf(name, err))] else []
  }

  /** CreateOpts.report. */
  method Report(c: Client, o: CreateOpts, name: string, err: Option<Error>)
    modifies c
    ensures c.trace == old(c.trace) + ReportEvents(o, name, err)
  {
    if !o.hasProgress {
      return;
    }
    var s := StepStatus(name, err.None?, err);
    c.Deliver(s);
  }

  /** The progress of the run so far: the errors collected after creation,
      everything observable, and the status of every attempted step (whether
      or not a sink receives it). */
  datatype Progress = Progress(errs: seq<Error>, events: seq<Event>, statuses: seq<StepStatus>)

  function FailureOf(r: Outcome<Error>): Option<Error> {
    if r.Fail? then Some(r.error) else None
  }

  function ErrorList(err: Option<Error>): seq<Error> {
    if err.Some? then [err.value] else []
  }

  /** One step finished: its requests, then its report. */
  function Record(o: CreateOpts, p: Progress, calls: seq<Event>, name: string, err: Option<Error>): Progress {
    Progress(p.errs + ErrorList(err), p.events + calls + ReportEvents(o, name, err), p.statuses + [StatusOf(name, err)])
  }

  function SettingsStep(answer: (nat, Call) -> Reply, at: nat, o: CreateOpts, nwo: string, p: Progress): Progress {
    var call := UpdateSettings(nwo, SettingsFromRepoSettings(o.profile.settings));
    var reply := answer(at + |p.events|, call);
    Record(o, p, [Called(call)], "Applied repo settings",
           if reply.Failed? then Some(UpdateSettingsFailed(reply.detail)) else None)
  }

  function LabelsStepName(deleted: nat, created: nat): string {
    "Synced labels (-" + Decimal(deleted) + "/+" + Decimal(created) + ")"
  }

  function LabelsStep(answer: (nat, Call) -> Reply, decode: string -> Option<seq<ListedLabel>>,
                      at: nat, o: CreateOpts, nwo: string, p: Progress): Progress {
    var run := SyncLabelsRun(answer, decode, at + |p.events|, nwo, o.profile.labels);
    Record(o, p, run.events, LabelsStepName(run.deleted, run.created),
           if |run.errs| > 0 then Some(LabelErrors(|run.errs|)) else None)
  }

  function BoilerplateStep(answer: (nat, Call) -> Reply, at: nat, o: CreateOpts, nwo: string, p: Progress): Progress {
    if |o.profile.boilerplate.files| == 0 then p
    else
      var call := ScaffoldAndPush(nwo, o.profile.boilerplate, o.name);
      var reply := answer(at + |p.events|, call);
      Record(o, p, [Called(call)], "Pushed boilerplate files",
             if reply.Failed? then Some(ScaffoldFailed(reply.detail)) else None)
  }

  /** The protection step around a run of SetBranchProtection: skipped, and
      not reported, when no branch is configured. */
  function RecordProtection(o: CreateOpts, p: Progress, run: StepRun): Progress {
    if o.profile.branchProtection.branch == "" then p
    else Record(o, p, run.events, "Set branch protection", FailureOf(run.result))
  }

  function ProtectionStep(answer: (nat, Call) -> Reply, at: nat, o: CreateOpts, nwo: string, p: Progress): Progress {
    RecordProtection(o, p, ProtectionRun(answer, at + |p.events|, nwo, o.profile.branchProtection))
  }

  /** The steps after creation, in order: settings, labels, boilerplate, protection. */
  function LaterSteps(answer: (nat, Call) -> Reply, decode: string -> Option<seq<ListedLabel>>,
                      at: nat, o: CreateOpts, nwo: string, p: Progress): Progress {
    ProtectionStep(answer, at, o, nwo,
      BoilerplateStep(answer, at, o, nwo,
        LabelsStep(answer, decode, at, o, nwo,
          SettingsStep(answer, at, o, nwo, p))))
  }

  /** The identifier the later steps use: the one reported back by the
      platform when the repository was created without an owner. */
  function TargetNwo(o: CreateOpts, url: string): string {
    if url != "" && Nwo(o) == o.name && SplitRepoURL(url) != "" then SplitRepoURL(url) else Nwo(o)
  }

  /** The URL-derived identifier replaces the derived one exactly when no owner
      was given, the URL is non-empty and it parses. */
  lemma TargetNwoReplaced(o: CreateOpts, url: string)
    ensures TargetNwo(o, url) == (if o.owner == "" && url != "" && SplitRepoURL(url) != "" then SplitRepoURL(url) else Nwo(o))
  {
    NwoIsNameIffNoOwner(o);
  }

  /** The outcome of CreateWithDefaults: the URL, the error, what was observed,
      and the status of every attempted step. */
  datatype CreateRun = CreateRun(url: string, result: Outcome<Error>, events: seq<Event>, statuses: seq<StepStatus>)

  const CreatedName := "Created repository"

  /** CreateWithDefaults as a value. */
  function CreateWithDefaultsRun(answer: (nat, Call) -> Reply, decode: string -> Option<seq<ListedLabel>>,
                                 at: nat, o: CreateOpts): CreateRun {
    var createCall := CreateRepo(Nwo(o), o.description, o.public);
    match answer(at, createCall)
    case Failed(d) =>
      var p := Record(o, Progress([], [], []), [Called(createCall)], CreatedName, Some(CreateRepoFailed(d)));
      CreateRun("", Fail(CreateRepoFailed(d)), p.events, p.statuses)
    case Done(url) =>
      var nwo := TargetNwo(o, url);
      var p0 := Record(o, Progress([], [], []), [Called(createCall)], CreatedName, None);
      var p := LaterSteps(answer, decode, at, o, nwo, p0);
      CreateRun(url, if |p.errs| > 0 then Fail(StepsFailed(|p.errs|)) else Pass, p.events, p.statuses)
  }

  /** The number of failed statuses. */
  function CountFailed(ss: seq<StepStatus>): (n: nat)
    ensures n <= |ss|
  {
    if ss == [] then 0 else CountFailed(ss[..|ss| - 1]) + (if ss[|ss| - 1].success then 0 else 1)
  }

  /** What is observed agrees with the statuses: the sink receives every
      status in order, or nothing when there is none; and there is one
      collected error per failed status. */
  predicate Consistent(o: CreateOpts, p: Progress) {
    && (o.hasProgress ==> Reports(p.events) == p.statuses)
    && (!o.hasProgress ==> Reports(p.events) == [])
    && |p.errs| == CountFailed(p.statuses)
  }

  lemma RecordConsistent(o: CreateOpts, p: Progress, calls: seq<Event>, name: string, err: Option<Error>)
    requires Consistent(o, p) && CallsOnly(calls)
    ensures Consistent(o, Record(o, p, calls, name, err))
  {
    var r := Record(o, p, calls, name, err);
    ReportsAppend(p.events, calls);
    ReportsAppend(p.events + calls, ReportEvents(o, name, err));
    ReportsOfCalls(calls);
    assert r.statuses[..|r.statuses| - 1] == p.statuses;
    if o.hasProgress {
      var rest := ReportEvents(o, name, err);
      assert Reports(rest) == [StatusOf(name, err)] by {
        assert rest[1..] == [];
      }
    }
  }

  /** The label step makes requests only. */
  lemma LabelsCallsOnly(answer: (nat, Call) -> Reply, decode: string -> Option<seq<ListedLabel>>, at: nat, nwo: string, cfg: LabelConfig)
    ensures CallsOnly(SyncLabelsRun(answer, decode, at, nwo, cfg).events)
  {
    SyncTargetsOnlyRepo(answer, decode, at, nwo, cfg);
  }

  /** Every step keeps what is observed in agreement with the statuses. */
  lemma SettingsStepConsistent(answer: (nat, Call) -> Reply, at: nat, o: CreateOpts, nwo: string, p: Progress)
    requires Consistent(o, p)
    ensures Consistent(o, SettingsStep(answer, at, o, nwo, p))
  {
    var call := UpdateSettings(nwo, SettingsFromRepoSettings(o.profile.settings));
    var reply := answer(at + |p.events|, call);
    var err := if reply.Failed? then Some(UpdateSettingsFailed(reply.detail)) else None;
    RecordConsistent(o, p, [Called(call)], "Applied repo settings", err);
    assert SettingsStep(answer, at, o, nwo, p) == Record(o, p, [Called(call)], "Applied repo settings", err);
  }

  lemma LabelsStepConsistent(answer: (nat, Call) -> Reply, decode: string -> Option<seq<ListedLabel>>,
                             at: nat, o: CreateOpts, nwo: string, p: Progress)
    requires Consistent(o, p)
    ensures Consistent(o, LabelsStep(answer, decode, at, o, nwo, p))
  {
    LabelsCallsOnly(answer, decode, at + |p.events|, nwo, o.profile.labels);
    var run := SyncLabelsRun(answer, decode, at + |p.events|, nwo, o.profile.labels);
    RecordConsistent(o, p, run.events, LabelsStepName(run.deleted, run.created),
                     if |run.errs| > 0 then Some(LabelErrors(|run.errs|)) else None);
  }

  lemma BoilerplateStepConsistent(answer: (nat, Call) -> Reply, at: nat, o: CreateOpts, nwo: string, p: Progress)
    requires Consistent(o, p)
    ensures Consistent(o, BoilerplateStep(answer, at, o, nwo, p))
  {
    if |o.profile.boilerplate.files| > 0 {
      var bcall := ScaffoldAndPush(nwo, o.profile.boilerplate, o.name);
      var breply := answer(at + |p.events|, bcall);
      RecordConsistent(o, p, [Called(bcall)], "Pushed boilerplate files",
                       if breply.Failed? then Some(ScaffoldFailed(breply.detail)) else None);
    }
  }

  lemma RecordProtectionConsistent(o: CreateOpts, p: Progress, run: StepRun)
    requires Consistent(o, p) && CallsOnly(run.events)
    ensures Consistent(o, RecordProtection(o, p, run))
  {
    if o.profile.branchProtection.branch != "" {
      RecordConsistent(o, p, run.events, "Set branch protection", FailureOf(run.result));
    }
  }

  lemma ProtectionStepConsistent(answer: (nat, Call) -> Reply, at: nat, o: CreateOpts, nwo: string, p: Progress)
    requires Consistent(o, p)
    ensures Consistent(o, ProtectionStep(answer, at, o, nwo, p))
  {
    var run := ProtectionRun(answer, at + |p.events|, nwo, o.profile.branchProtection);
    ProtectionCallsOnly(answer, at + |p.events|, nwo, o.profile.branchProtection);
    RecordProtectionConsistent(o, p, run);
    assert ProtectionStep(answer, at, o, nwo, p) == RecordProtection(o, p, run);
  }

  /** A failed creation ends the run: one request, one failed status, no URL. */
  lemma CreationFailureAborts(answer: (nat, Call) -> Reply, decode: string -> Option<seq<ListedLabel>>, at: nat, o: CreateOpts)
    requires answer(at, CreateRepo(Nwo(o), o.description, o.public)).Failed?
    ensures var d := answer(at, CreateRepo(Nwo(o), o.description, o.public)).detail;
            var run := CreateWithDefaultsRun(answer, decode, at, o);
            && run.url == "" && run.result == Fail(CreateRepoFailed(d))
            && run.statuses == [StepStatus(CreatedName, false, Some(CreateRepoFailed(d)))]
            && run.events == [Called(CreateRepo(Nwo(o), o.description, o.public))] + ReportEvents(o, CreatedName, Some(CreateRepoFailed(d)))
  {
  }

  lemma LabelsStepNamePrefix(deleted: nat, created: nat)
    ensures HasPrefix(LabelsStepName(deleted, created), "Synced labels (-")
  {
    var n := LabelsStepName(deleted, created);
    assert n[..|"Synced labels (-"|] == "Synced labels (-";
  }

  /** Each step appends exactly its own status, when it is attempted. */
  lemma SettingsStatus(answer: (nat, Call) -> Reply, at: nat, o: CreateOpts, nwo: string, p: Progress)
    ensures var q := SettingsStep(answer, at, o, nwo, p);
            |q.statuses| == |p.statuses| + 1 && q.statuses[..|p.statuses|] == p.statuses
            && q.statuses[|p.statuses|].name == "Applied repo settings"
  {
  }

  lemma LabelsStatus(answer: (nat, Call) -> Reply, decode: string -> Option<seq<ListedLabel>>, at: nat, o: CreateOpts, nwo: string, p: Progress)
    ensures var q := LabelsStep(answer, decode, at, o, nwo, p);
            |q.statuses| == |p.statuses| + 1 && q.statuses[..|p.statuses|] == p.statuses
            && HasPrefix(q.statuses[|p.statuses|].name, "Synced labels (-")
  {
    var run := SyncLabelsRun(answer, decode, at + |p.events|, nwo, o.profile.labels);
    LabelsStepNamePrefix(run.deleted, run.created);
  }

  lemma BoilerplateStatus(answer: (nat, Call) -> Reply, at: nat, o: CreateOpts, nwo: string, p: Progress)
    ensures var q := BoilerplateStep(answer, at, o, nwo, p);
            |q.statuses| == |p.statuses| + (if |o.profile.boilerplate.files| > 0 then 1 else 0)
            && q.statuses[..|p.statuses|] == p.statuses
            && (|o.profile.boilerplate.files| > 0 ==> q.statuses[|p.statuses|].name == "Pushed boilerplate files")
  {
  }

  lemma ProtectionStatus(answer: (nat, Call) -> Reply, at: nat, o: CreateOpts, nwo: string, p: Progress)
    ensures var q := ProtectionStep(answer, at, o, nwo, p);
            |q.statuses| == |p.statuses| + (if o.profile.branchProtection.branch != "" then 1 else 0)
            && q.statuses[..|p.statuses|] == p.statuses
            && (o.profile.branchProtection.branch != "" ==> q.statuses[|p.statuses|].name == "Set branch protection")
  {
  }

  /** After a successful creation every later step is attempted whatever the
      earlier ones returned: settings, labels, boilerplate when files are
      configured, protection when a branch is configured, in that order. */
  lemma StepsAttempted(answer: (nat, Call) -> Reply, decode: string -> Option<seq<ListedLabel>>, at: nat, o: CreateOpts)
    requires answer(at, CreateRepo(Nwo(o), o.description, o.public)).Done?
    ensures var run := CreateWithDefaultsRun(answer, decode, at, o);
            var files := |o.profile.boilerplate.files| > 0;
            var branch := o.profile.branchProtection.branch != "";
            && |run.statuses| == 3 + (if files then 1 else 0) + (if branch then 1 else 0)
            && run.statuses[0] == StatusOf(CreatedName, None)
            && run.statuses[1].name == "Applied repo settings"
            && HasPrefix(run.statuses[2].name, "Synced labels (-")
            && (files ==> run.statuses[3].name == "Pushed boilerplate files")
            && (branch ==> run.statuses[|run.statuses| - 1].name == "Set branch protection")
  {
    var url := answer(at, CreateRepo(Nwo(o), o.description, o.public)).out;
    var nwo := TargetNwo(o, url);
    var p0 := Record(o, Progress([], [], []), [Called(CreateRepo(Nwo(o), o.description, o.public))], CreatedName, None);
    var p1 := SettingsStep(answer, at, o, nwo, p0);
    var p2 := LabelsStep(answer, decode, at, o, nwo, p1);
    var p3 := BoilerplateStep(answer, at, o, nwo, p2);
    var p4 := ProtectionStep(answer, at, o, nwo, p3);
    SettingsStatus(answer, at, o, nwo, p0);
    LabelsStatus(answer, decode, at, o, nwo, p1);
    BoilerplateStatus(answer, at, o, nwo, p2);
    ProtectionStatus(answer, at, o, nwo, p3);
    assert CreateWithDefaultsRun(answer, decode, at, o).statuses == p4.statuses;
    assert p2.statuses[..2] == p1.statuses;
    assert p3.statuses[..3] == p2.statuses;
    assert p4.statuses[..|p3.statuses|] == p3.statuses;
  }

  /** The run fails exactly when some step after creation failed, and then its
      error counts the failed steps (a label step with errors counting as
      one); the URL is returned either way. The sink, when there is one, has
      received every status in order. */
  lemma CreateOutcome(answer: (nat, Call) -> Reply, decode: string -> Option<seq<ListedLabel>>, at: nat, o: CreateOpts)
    requires answer(at, CreateRepo(Nwo(o), o.description, o.public)).Done?
    ensures var run := CreateWithDefaultsRun(answer, decode, at, o);
            && run.url == answer(at, CreateRepo(Nwo(o), o.description, o.public)).out
            && (run.result.Fail? <==> CountFailed(run.statuses) > 0)
            && (run.result.Fail? ==> run.result.error == StepsFailed(CountFailed(run.statuses)))
            && (o.hasProgress ==> Reports(run.events) == run.statuses)
            && (!o.hasProgress ==> Reports(run.events) == [])
  {
    var call := CreateRepo(Nwo(o), o.description, o.public);
    var url := answer(at, call).out;
    var nwo := TargetNwo(o, url);
    var empty := Progress([], [], []);
    assert Reports([]) == [];
    assert Consistent(o, empty);
    assert CallsOnly([Called(call)]);
    RecordConsistent(o, empty, [Called(call)], CreatedName, None);
    var p0 := Record(o, empty, [Called(call)], CreatedName, None);
    SettingsStepConsistent(answer, at, o, nwo, p0);
    var p1 := SettingsStep(answer, at, o, nwo, p0);
    LabelsStepConsistent(answer, decode, at, o, nwo, p1);
    var p2 := LabelsStep(answer, decode, at, o, nwo, p1);
    BoilerplateStepConsistent(answer, at, o, nwo, p2);
    var p3 := BoilerplateStep(answer, at, o, nwo, p2);
    ProtectionStepConsistent(answer, at, o, nwo, p3);
  }

  /** With every request answered, a step adds no error. */
  lemma SettingsStepClean(answer: (nat, Call) -> Reply, at: nat, o: CreateOpts, nwo: string, p: Progress)
    requires forall i: nat, call: Call :: answer(i, call).Done?
    ensures SettingsStep(answer, at, o, nwo, p).errs == p.errs
  {
    var call := UpdateSettings(nwo, SettingsFromRepoSettings(o.profile.settings));
    assert answer(at + |p.events|, call).Done?;
  }

  lemma LabelsStepClean(answer: (nat, Call) -> Reply, decode: string -> Option<seq<ListedLabel>>,
                        at: nat, o: CreateOpts, nwo: string, p: Progress)
    requires forall i: nat, call: Call :: answer(i, call).Done?
    requires forall out: string :: decode(out).Some?
    ensures LabelsStep(answer, decode, at, o, nwo, p).errs == p.errs
  {
    var cfg := o.profile.labels;
    var from := at + |p.events|;
    var run := SyncLabelsRun(answer, decode, from, nwo, cfg);
    if cfg.clearExisting {
      var reply := answer(from, Gh(ListLabelsArgs(nwo)));
      assert reply.Done? && decode(reply.out).Some?;
      var names := ListOutcome(reply, decode).value;
      SyncWithClearingClean(answer, decode, from, nwo, cfg);
      assert DeletesSucceed(answer, from + 1, nwo, names);
      assert CreatesSucceed(answer, from + 1 + |names|, nwo, cfg.items);
    } else {
      SyncWithoutClearing(answer, decode, from, nwo, cfg);
      assert CreatesSucceed(answer, from, nwo, cfg.items);
    }
    assert run.errs == [];
  }

  lemma BoilerplateStepClean(answer: (nat, Call) -> Reply, at: nat, o: CreateOpts, nwo: string, p: Progress)
    requires forall i: nat, call: Call :: answer(i, call).Done?
    ensures BoilerplateStep(answer, at, o, nwo, p).errs == p.errs
  {
    var call := ScaffoldAndPush(nwo, o.profile.boilerplate, o.name);
    assert answer(at + |p.events|, call).Done?;
  }

  lemma ProtectionStepClean(answer: (nat, Call) -> Reply, at: nat, o: CreateOpts, nwo: string, p: Progress)
    requires forall i: nat, call: Call :: answer(i, call).Done?
    requires o.profile.branchProtection.branch != "" ==>
               ValidateNWO(nwo).Pass? && ValidateBranchName(o.profile.branchProtection.branch).Pass?
    ensures ProtectionStep(answer, at, o, nwo, p).errs == p.errs
  {
    var run := ProtectionRun(answer, at + |p.events|, nwo, o.profile.branchProtection);
    if o.profile.branchProtection.branch != "" {
      var call := PutProtection(Endpoint(nwo, o.profile.branchProtection.branch), ProtectionPayload(o.profile.branchProtection));
      assert answer(at + |p.events|, call).Done?;
      assert run.result == Pass;
    }
    assert ProtectionStep(answer, at, o, nwo, p) == RecordProtection(o, p, run);
  }

  /** When every request succeeds the run succeeds and every status is a success. */
  lemma AllSucceed(answer: (nat, Call) -> Reply, decode: string -> Option<seq<ListedLabel>>, at: nat, o: CreateOpts)
    requires forall i: nat, call: Call :: answer(i, call).Done?
    requires forall out: string :: decode(out).Some?
    requires o.profile.branchProtection.branch != "" ==>
               ValidateNWO(TargetNwo(o, answer(at, CreateRepo(Nwo(o), o.description, o.public)).out)).Pass?
               && ValidateBranchName(o.profile.branchProtection.branch).Pass?
    ensures CreateWithDefaultsRun(answer, decode, at, o).result == Pass
  {
    var call := CreateRepo(Nwo(o), o.description, o.public);
    assert answer(at, call).Done?;
    var nwo := TargetNwo(o, answer(at, call).out);
    var p0 := Record(o, Progress([], [], []), [Called(call)], CreatedName, None);
    SettingsStepClean(answer, at, o, nwo, p0);
    var p1 := SettingsStep(answer, at, o, nwo, p0);
    LabelsStepClean(answer, decode, at, o, nwo, p1);
    var p2 := LabelsStep(answer, decode, at, o, nwo, p1);
    BoilerplateStepClean(answer, at, o, nwo, p2);
    var p3 := BoilerplateStep(answer, at, o, nwo, p2);
    ProtectionStepClean(answer, at, o, nwo, p3);
  }

  /** The settings step of CreateWithDefaults. */
  method ApplySettings(c: Client, o: CreateOpts, nwo: string, ghost t0: seq<Event>, ghost p: Progress, errs0: seq<Error>)
    returns (errs: seq<Error>)
    requires c.trace == t0 + p.events && errs0 == p.errs
    modifies c
    ensures var q := SettingsStep(c.answer, |t0|, o, nwo, p);
            c.trace == t0 + q.events && errs == q.errs
  {
    errs := errs0;
    var settings := SettingsFromRepoSettings(o.profile.settings);
    var updated := c.Invoke(UpdateSettings(nwo, settings));
    var err := if updated.Failed? then Some(UpdateSettingsFailed(updated.detail)) else None;
    Report(c, o, "Applied repo settings", err);
    if err.Some? {
      errs := errs + [err.value];
    }
  }

  /** The label step of CreateWithDefaults: a synchronisation with any errors
      counts as one failed step. */
  method ApplyLabels(c: Client, o: CreateOpts, nwo: string, ghost t0: seq<Event>, ghost p: Progress, errs0: seq<Error>)
    returns (errs: seq<Error>)
    requires c.trace == t0 + p.events && errs0 == p.errs
    modifies c
    ensures var q := LabelsStep(c.answer, c.decodeLabels, |t0|, o, nwo, p);
            c.trace == t0 + q.events && errs == q.errs
  {
    ghost var before := c.trace;
    var deleted, created, labelErrs := SyncLabels(c, nwo, o.profile.labels);
    ghost var mid := c.trace;
    var labelErr: Option<Error> := None;
    if |labelErrs| > 0 {
      labelErr := Some(LabelErrors(|labelErrs|));
    }
    Report(c, o, LabelsStepName(deleted, created), labelErr);
    errs := errs0 + ErrorList(labelErr);
    LabelsStepTaken(c.answer, c.decodeLabels, t0, o, nwo, p, before, mid, c.trace,
                    SyncLabelsRun(c.answer, c.decodeLabels, |before|, nwo, o.profile.labels), labelErr);
  }

  /** The trace and errors left by one synchronisation and its report are
      those of LabelsStep. */
  lemma LabelsStepTaken(answer: (nat, Call) -> Reply, decode: string -> Option<seq<ListedLabel>>, t0: seq<Event>,
                        o: CreateOpts, nwo: string, p: Progress, before: seq<Event>, mid: seq<Event>, after: seq<Event>,
                        run: SyncRun, labelErr: Option<Error>)
    requires before == t0 + p.events
    requires run == SyncLabelsRun(answer, decode, |before|, nwo, o.profile.labels)
    requires mid == before + run.events
    requires labelErr == if |run.errs| > 0 then Some(LabelErrors(|run.errs|)) else None
    requires after == mid + ReportEvents(o, LabelsStepName(run.deleted, run.created), labelErr)
    ensures after == t0 + LabelsStep(answer, decode, |t0|, o, nwo, p).events
    ensures p.errs + ErrorList(labelErr) == LabelsStep(answer, decode, |t0|, o, nwo, p).errs
  {
    assert |before| == |t0| + |p.events|;
    RecordTaken(t0, o, p, run.events, LabelsStepName(run.deleted, run.created), labelErr, before, mid, after);
    assert LabelsStep(answer, decode, |t0|, o, nwo, p) == Record(o, p, run.events, LabelsStepName(run.deleted, run.created), labelErr);
  }

  /** A step's calls and report, appended to the trace of the progress so far,
      give the trace of the recorded progress. */
  lemma RecordTaken(t0: seq<Event>, o: CreateOpts, p: Progress, calls: seq<Event>, name: string, err: Option<Error>,
                    before: seq<Event>, mid: seq<Event>, after: seq<Event>)
    requires before == t0 + p.events
    requires mid == before + calls
    requires after == mid + ReportEvents(o, name, err)
    ensures after == t0 + Record(o, p, calls, name, err).events
  {
    assert after == t0 + (p.events + calls + ReportEvents(o, name, err));
  }

  /** The boilerplate step of CreateWithDefaults, taken only when files are configured. */
  method PushBoilerplate(c: Client, o: CreateOpts, nwo: string, ghost t0: seq<Event>, ghost p: Progress, errs0: seq<Error>)
    returns (errs: seq<Error>)
    requires c.trace == t0 + p.events && errs0 == p.errs
    modifies c
    ensures var q := BoilerplateStep(c.answer, |t0|, o, nwo, p);
            c.trace == t0 + q.events && errs == q.errs
  {
    errs := errs0;
    if |o.profile.boilerplate.files| > 0 {
      var pushed := c.Invoke(ScaffoldAndPush(nwo, o.profile.boilerplate, o.name));
      var err := if pushed.Failed? then Some(ScaffoldFailed(pushed.detail)) else None;
      Report(c, o, "Pushed boilerplate files", err);
      if err.Some? {
        errs := errs + [err.value];
      }
    }
  }

  lemma ProtectionStepTaken(answer: (nat, Call) -> Reply, t0: seq<Event>, o: CreateOpts, nwo: string, p: Progress,
                            before: seq<Event>, mid: seq<Event>, after: seq<Event>, r: Outcome<Error>)
    requires o.profile.branchProtection.branch != ""
    requires before == t0 + p.events
    requires mid == before + ProtectionRun(answer, |before|, nwo, o.profile.branchProtection).events
    requires r == ProtectionRun(answer, |before|, nwo, o.profile.branchProtection).result
    requires after == mid + ReportEvents(o, "Set branch protection", FailureOf(r))
    ensures after == t0 + ProtectionStep(answer, |t0|, o, nwo, p).events
    ensures p.errs + ErrorList(FailureOf(r)) == ProtectionStep(answer, |t0|, o, nwo, p).errs
  {
    var run := ProtectionRun(answer, |before|, nwo, o.profile.branchProtection);
    assert |before| == |t0| + |p.events|;
    RecordTaken(t0, o, p, run.events, "Set branch protection", FailureOf(r), before, mid, after);
    assert ProtectionStep(answer, |t0|, o, nwo, p) == Record(o, p, run.events, "Set branch protection", FailureOf(r));
  }

  /** The protection step of CreateWithDefaults, taken only when a branch is configured. */
  method ApplyProtection(c: Client, o: CreateOpts, nwo: string, ghost t0: seq<Event>, ghost p: Progress, errs0: seq<Error>)
    returns (errs: seq<Error>)
    requires c.trace == t0 + p.events && errs0 == p.errs
    modifies c
    ensures var q := ProtectionStep(c.answer, |t0|, o, nwo, p);
            c.trace == t0 + q.events && errs == q.errs
  {
    errs := errs0;
    if o.profile.branchProtection.branch != "" {
      ghost var before := c.trace;
      var protected := SetBranchProtection(c, nwo, o.profile.branchProtection);
      ghost var mid := c.trace;
      var err := FailureOf(protected);
      Report(c, o, "Set branch protection", err);
      errs := errs + ErrorList(err);
      ProtectionStepTaken(c.answer, t0, o, nwo, p, before, mid, c.trace, protected);
    }
  }

  /** The steps after creation, each reporting its status. */
  method ApplyLaterSteps(c: Client, o: CreateOpts, nwo: string, ghost t0: seq<Event>, ghost p: Progress, errs0: seq<Error>)
    returns (errs: seq<Error>)
    requires c.trace == t0 + p.events && errs0 == p.errs
    modifies c
    ensures var q := LaterSteps(c.answer, c.decodeLabels, |t0|, o, nwo, p);
            c.trace == t0 + q.events && errs == q.errs
  {
    ghost var q := p;
    errs := ApplySettings(c, o, nwo, t0, q, errs0);
    q := SettingsStep(c.answer, |t0|, o, nwo, q);
    errs := ApplyLabels(c, o, nwo, t0, q, errs);
    q := LabelsStep(c.answer, c.decodeLabels, |t0|, o, nwo, q);
    errs := PushBoilerplate(c, o, nwo, t0, q, errs);
    q := BoilerplateStep(c.answer, |t0|, o, nwo, q);
    errs := ApplyProtection(c, o, nwo, t0, q, errs);
  }

  /** What CreateWithDefaults does once the repository exists: the identifier
      the later steps use, then the steps, then the overall result. */
  method FinishCreation(c: Client, o: CreateOpts, url: string, ghost t0: seq<Event>) returns (result: Outcome<Error>)
    requires c.trace == t0 + Record(o, Progress([], [], []), [Called(CreateRepo(Nwo(o), o.description, o.public))], CreatedName, None).events
    modifies c
    ensures var q := LaterSteps(c.answer, c.decodeLabels, |t0|, o, TargetNwo(o, url),
                                Record(o, Progress([], [], []), [Called(CreateRepo(Nwo(o), o.description, o.public))], CreatedName, None));
            && c.trace == t0 + q.events
            && result == if |q.errs| > 0 then Fail(StepsFailed(|q.errs|)) else Pass
  {
    var nwo := Nwo(o);
    if url != "" && nwo == o.name {
      var parts := SplitRepoURL(url);
      if parts != "" {
        nwo := parts;
      }
    }
    assert nwo == TargetNwo(o, url);
    ghost var p := Record(o, Progress([], [], []), [Called(CreateRepo(Nwo(o), o.description, o.public))], CreatedName, None);
    var errs := ApplyLaterSteps(c, o, nwo, t0, p, []);
    if |errs| > 0 {
      return Fail(StepsFailed(|errs|));
    }
    return Pass;
  }

  /** CreateWithDefaults: creation, then every later step, reporting each. */
  method CreateWithDefaults(c: Client, o: CreateOpts) returns (url: string, result: Outcome<Error>)
    modifies c
    ensures var run := CreateWithDefaultsRun(c.answer, c.decodeLabels, |old(c.trace)|, o);
            && c.trace == old(c.trace) + run.events
            && url == run.url && result == run.result
  {
    ghost var t0 := c.trace;
    var repoArg := o.name;
    if o.owner != "" {
      repoArg := o.owner + "/" + o.name;
    }
    var created := c.Invoke(CreateRepo(repoArg, o.description, o.public));
    var err: Option<Error> := if created.Failed? then Some(CreateRepoFailed(created.detail)) else None;
    Report(c, o, CreatedName, err);
    if created.Failed? {
      return "", Fail(CreateRepoFailed(created.detail));
    }
    url := created.out;
    result := FinishCreation(c, o, url, t0);
  }

}
