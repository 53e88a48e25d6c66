/** Label management (internal/github/labels.go): the `gh label` argument
    lists, the three single-label operations, the synchronisation of a
    repository's labels with a profile, and the one-line label summary. */
module Labels {
  import opened Wrappers
  import opened Strings
  import opened Config
  import opened Remote

  /** `gh label create <name> --color <color> --repo <nwo>`, with
      `--description <text>` appended only for a non-empty description. */
  function CreateLabelArgs(nwo: string, l: Label): (args: seq<string>)
    ensures |args| == if l.description == "" then 7 else 9
  {
    var base := ["label", "create", l.name, "--color", l.color, "--repo", nwo];
    if l.description != "" then base + ["--description", l.description] else base
  }

  /** `gh label delete <name> --repo <nwo> --yes`. */
  function DeleteLabelArgs(nwo: string, name: string): seq<string> {
    ["label", "delete", name, "--repo", nwo, "--yes"]
  }

  /** `gh label list --repo <nwo> --json name`. */
  function ListLabelsArgs(nwo: string): seq<string> {
    ["label", "list", "--repo", nwo, "--json", "name"]
  }

  /** What a `gh label` argument list asks for, read back from the arguments. */
  datatype LabelCommand =
    | CreateCmd(repo: string, created: Label)
    | DeleteCmd(repo: string, labelName: string)
    | ListCmd(repo: string)

  /** How `gh` reads the three argument shapes; None for anything else. */
  function ParseLabelCommand(args: seq<string>): Option<LabelCommand> {
    if |args| < 2 || args[0] != "label" then None
    else if args[1] == "create" && |args| >= 7 && args[3] == "--color" && args[5] == "--repo" then
      if |args| == 7 then Some(CreateCmd(args[6], Label(args[2], args[4], "")))
      else if |args| == 9 && args[7] == "--description" then Some(CreateCmd(args[6], Label(args[2], args[4], args[8])))
      else None
    else if args[1] == "delete" && |args| == 6 && args[3] == "--repo" && args[5] == "--yes" then
      Some(DeleteCmd(args[4], args[2]))
    else if args[1] == "list" && |args| == 6 && args[2] == "--repo" && args[4] == "--json" && args[5] == "name" then
      Some(ListCmd(args[3]))
    else None
  }

  /** Each argument list carries exactly its command: the label (description
      included, an empty one by omission) and the repository. */
  lemma LabelArgsRoundTrip(nwo: string, l: Label, name: string)
    ensures ParseLabelCommand(CreateLabelArgs(nwo, l)) == Some(CreateCmd(nwo, l))
    ensures ParseLabelCommand(DeleteLabelArgs(nwo, name)) == Some(DeleteCmd(nwo, name))
    ensures ParseLabelCommand(ListLabelsArgs(nwo)) == Some(ListCmd(nwo))
  {
  }

  /** The request is a `gh label` command aimed at repository `nwo`. */
  predicate TargetsRepo(e: Event, nwo: string) {
    e.Called? && e.call.Gh? && ParseLabelCommand(e.call.args).Some? && ParseLabelCommand(e.call.args).value.repo == nwo
  }

  function CreateOutcome(reply: Reply, l: Label): Outcome<Error> {
    if reply.Failed? then Fail(CreateLabelFailed(l.name, reply.detail)) else Pass
  }

  function DeleteOutcome(reply: Reply, name: string): Outcome<Error> {
    if reply.Failed? then Fail(DeleteLabelFailed(name, reply.detail)) else Pass
  }

  /** The names of listed labels, in order. */
  function NamesOf(ls: seq<ListedLabel>): seq<string> {
    seq(|ls|, i requires 0 <= i < |ls| => ls[i].name)
  }

  /** ListLabels as a value: a failed request, undecodable output, or the names. */
  function ListOutcome(reply: Reply, decode: string -> Option<seq<ListedLabel>>): Result<seq<string>, Error> {
    match reply
    case Failed(d) => Err(ListLabelsFailed(d))
    case Done(out) =>
      match decode(out)
      case None => Err(ParseLabelsFailed)
      case Some(ls) => Ok(NamesOf(ls))
  }

  method CreateLabel(c: Client, nwo: string, l: Label) returns (r: Outcome<Error>)
    modifies c
    ensures c.trace == old(c.trace) + [Called(Gh(CreateLabelArgs(nwo, l)))]
    ensures r == CreateOutcome(c.answer(|old(c.trace)|, Gh(CreateLabelArgs(nwo, l))), l)
  {
    var reply := c.Invoke(Gh(CreateLabelArgs(nwo, l)));
    if reply.Failed? {
      return Fail(CreateLabelFailed(l.name, reply.detail));
    }
    return Pass;
  }

  method DeleteLabel(c: Client, nwo: string, name: string) returns (r: Outcome<Error>)
    modifies c
    ensures c.trace == old(c.trace) + [Called(Gh(DeleteLabelArgs(nwo, name)))]
    ensures r == DeleteOutcome(c.answer(|old(c.trace)|, Gh(DeleteLabelArgs(nwo, name))), name)
  {
    var reply := c.Invoke(Gh(DeleteLabelArgs(nwo, name)));
    if reply.Failed? {
      return Fail(DeleteLabelFailed(name, reply.detail));
    }
    return Pass;
  }

  /** ListLabels: one `gh label list` request, its output decoded, and the
      names copied out of the decoded records. */
  method ListLabels(c: Client, nwo: string) returns (r: Result<seq<string>, Error>)
    modifies c
    ensures c.trace == old(c.trace) + [Called(Gh(ListLabelsArgs(nwo)))]
    ensures r == ListOutcome(c.answer(|old(c.trace)|, Gh(ListLabelsArgs(nwo))), c.decodeLabels)
  {
    var reply := c.Invoke(Gh(ListLabelsArgs(nwo)));
    if reply.Failed? {
      return Err(ListLabelsFailed(reply.detail));
    }
    var decoded := c.decodeLabels(reply.out);
    if decoded.None? {
      return Err(ParseLabelsFailed);
    }
    var labels := decoded.value;
    var names := new string[|labels|];
    for i := 0 to |labels|
      invariant c.trace == old(c.trace) + [Called(Gh(ListLabelsArgs(nwo)))]
      invariant forall j :: 0 <= j < i ==> names[j] == labels[j].name
    {
      names[i] := labels[i].name;
    }
    assert names[..] == NamesOf(labels);
    return Ok(names[..]);
  }

  /** The running totals of a synchronisation and the requests it made. */
  datatype SyncRun = SyncRun(deleted: nat, created: nat, errs: seq<Error>, events: seq<Event>)

  /** One delete request appended to a run: made at the next position of the
      trace after `at`, and counted as a deletion or as an error. */
  function DeleteStep(answer: (nat, Call) -> Reply, at: nat, nwo: string, prev: SyncRun, name: string): SyncRun {
    var call := Gh(DeleteLabelArgs(nwo, name));
    var r := DeleteOutcome(answer(at + |prev.events|, call), name);
    SyncRun(if r.Pass? then prev.deleted + 1 else prev.deleted,
            prev.created,
            if r.Fail? then prev.errs + [r.error] else prev.errs,
            prev.events + [Called(call)])
  }

  /** One create request appended to a run. */
  function CreateStep(answer: (nat, Call) -> Reply, at: nat, nwo: string, prev: SyncRun, l: Label): SyncRun {
    var call := Gh(CreateLabelArgs(nwo, l));
    var r := CreateOutcome(answer(at + |prev.events|, call), l);
    SyncRun(prev.deleted,
            if r.Pass? then prev.created + 1 else prev.created,
            if r.Fail? then prev.errs + [r.error] else prev.errs,
            prev.events + [Called(call)])
  }

  /** Deleting `names` one after another, continuing from `init`. */
  function DeleteAll(answer: (nat, Call) -> Reply, at: nat, nwo: string, names: seq<string>, init: SyncRun): SyncRun
    decreases |names|
  {
    if names == [] then init
    else DeleteStep(answer, at, nwo, DeleteAll(answer, at, nwo, names[..|names| - 1], init), names[|names| - 1])
  }

  /** Creating `labels` one after another, continuing from `init`. */
  function CreateAll(answer: (nat, Call) -> Reply, at: nat, nwo: string, labels: seq<Label>, init: SyncRun): SyncRun
    decreases |labels|
  {
    if labels == [] then init
    else CreateStep(answer, at, nwo, CreateAll(answer, at, nwo, labels[..|labels| - 1], init), labels[|labels| - 1])
  }

  /** SyncLabels as a value: with clearing requested, the current labels are
      listed (a failure ends the synchronisation with that one error) and each
      is deleted; then every configured label is created. A failed delete or
      create is collected and the loop goes on. */
  function SyncLabelsRun(answer: (nat, Call) -> Reply, decode: string -> Option<seq<ListedLabel>>,
                         at: nat, nwo: string, cfg: LabelConfig): SyncRun
  {
    if !cfg.clearExisting then CreateAll(answer, at, nwo, cfg.items, SyncRun(0, 0, [], []))
    else
      var listCall := Gh(ListLabelsArgs(nwo));
      var listed := ListOutcome(answer(at, listCall), decode);
      var afterList := SyncRun(0, 0, [], [Called(listCall)]);
      if listed.Err? then afterList.(errs := [listed.error])
      else CreateAll(answer, at, nwo, cfg.items, DeleteAll(answer, at, nwo, listed.value, afterList))
  }

  /** Every delete request succeeds, the first one being made at position `from`. */
  predicate DeletesSucceed(answer: (nat, Call) -> Reply, from: nat, nwo: string, names: seq<string>) {
    forall i :: 0 <= i < |names| ==> answer(from + i, Gh(DeleteLabelArgs(nwo, names[i]))).Done?
  }

  /** Every create request succeeds, the first one being made at position `from`. */
  predicate CreatesSucceed(answer: (nat, Call) -> Reply, from: nat, nwo: string, labels: seq<Label>) {
    forall i :: 0 <= i < |labels| ==> answer(from + i, Gh(CreateLabelArgs(nwo, labels[i]))).Done?
  }

  /** The delete loop makes one request per name, in order, after the
      requests that came before. */
  lemma {:induction false} DeleteAllEvents(answer: (nat, Call) -> Reply, at: nat, nwo: string, names: seq<string>, init: SyncRun)
    ensures var r := DeleteAll(answer, at, nwo, names, init);
            && |r.events| == |init.events| + |names| && r.events[..|init.events|] == init.events
            && (forall i :: 0 <= i < |names| ==> r.events[|init.events| + i] == Called(Gh(DeleteLabelArgs(nwo, names[i]))))
    decreases |names|
  {
    if names != [] {
      var front := names[..|names| - 1];
      DeleteAllEvents(answer, at, nwo, front, init);
      var prev := DeleteAll(answer, at, nwo, front, init);
      var r := DeleteAll(answer, at, nwo, names, init);
      assert r.events == prev.events + [Called(Gh(DeleteLabelArgs(nwo, names[|names| - 1])))];
      assert forall i :: 0 <= i < |front| ==> front[i] == names[i];
    }
  }

  /** The errors of the failing deletes among `names`, in order: one
      DeleteLabelFailed per delete request whose reply is a failure, the first
      request being made at position `from`. */
  function DeleteErrors(answer: (nat, Call) -> Reply, from: nat, nwo: string, names: seq<string>): (errs: seq<Error>)
    ensures |errs| <= |names|
    ensures forall j :: 0 <= j < |errs| ==> errs[j].DeleteLabelFailed? && errs[j].labelName in names
    decreases |names|
  {
    if names == [] then []
    else
      var last := names[|names| - 1];
      var reply := answer(from + |names| - 1, Gh(DeleteLabelArgs(nwo, last)));
      DeleteErrors(answer, from, nwo, names[..|names| - 1])
        + (if reply.Failed? then [DeleteLabelFailed(last, reply.detail)] else [])
  }

  /** One delete that fails adds its error; one that succeeds counts a deletion. */
  lemma DeleteStepCounts(answer: (nat, Call) -> Reply, at: nat, nwo: string, prev: SyncRun, name: string,
                         reply: Reply, tail: seq<Error>)
    requires reply == answer(at + |prev.events|, Gh(DeleteLabelArgs(nwo, name)))
    requires tail == if reply.Failed? then [DeleteLabelFailed(name, reply.detail)] else []
    ensures var r := DeleteStep(answer, at, nwo, prev, name);
            r.created == prev.created && r.errs == prev.errs + tail && r.deleted == prev.deleted + 1 - |tail|
  {
  }

  /** The delete loop adds exactly the errors of the failing deletes, after the
      errors that came before, and counts every other name as deleted; nothing
      is created. */
  lemma {:induction false} DeleteAllCounts(answer: (nat, Call) -> Reply, at: nat, nwo: string, names: seq<string>, init: SyncRun)
    ensures var r := DeleteAll(answer, at, nwo, names, init);
            var failed := DeleteErrors(answer, at + |init.events|, nwo, names);
            && r.created == init.created
            && r.errs == init.errs + failed
            && r.deleted == init.deleted + |names| - |failed|
    decreases |names|
  {
    if names != [] {
      var front := names[..|names| - 1];
      var last := names[|names| - 1];
      var from := at + |init.events|;
      var prev := DeleteAll(answer, at, nwo, front, init);
      DeleteAllCounts(answer, at, nwo, front, init);
      assert at + |prev.events| == from + |names| - 1 by {
        DeleteAllEvents(answer, at, nwo, front, init);
      }
      var reply := answer(from + |names| - 1, Gh(DeleteLabelArgs(nwo, last)));
      var tail := if reply.Failed? then [DeleteLabelFailed(last, reply.detail)] else [];
      DeleteStepCounts(answer, at, nwo, prev, last, reply, tail);
      assert DeleteAll(answer, at, nwo, names, init) == DeleteStep(answer, at, nwo, prev, last);
      assert DeleteErrors(answer, from, nwo, names) == DeleteErrors(answer, from, nwo, front) + tail;
      assert init.errs + DeleteErrors(answer, from, nwo, front) + tail
          == init.errs + (DeleteErrors(answer, from, nwo, front) + tail);
    }
  }

  /** The delete loop only appends to the errors that came before. */
  lemma DeleteAllExtends(answer: (nat, Call) -> Reply, at: nat, nwo: string, names: seq<string>, init: SyncRun)
    ensures var r := DeleteAll(answer, at, nwo, names, init);
            |init.errs| <= |r.errs| && r.errs[..|init.errs|] == init.errs
  {
    DeleteAllCounts(answer, at, nwo, names, init);
    var failed := DeleteErrors(answer, at + |init.events|, nwo, names);
    assert (init.errs + failed)[..|init.errs|] == init.errs;
  }

  lemma DeletesSucceedSnoc(answer: (nat, Call) -> Reply, from: nat, nwo: string, names: seq<string>)
    requires names != []
    ensures DeletesSucceed(answer, from, nwo, names) <==>
            DeletesSucceed(answer, from, nwo, names[..|names| - 1])
            && answer(from + |names| - 1, Gh(DeleteLabelArgs(nwo, names[|names| - 1]))).Done?
  {
    var front := names[..|names| - 1];
    assert forall i :: 0 <= i < |front| ==> front[i] == names[i];
  }

  /** One delete adds no error exactly when its request succeeds. */
  lemma DeleteStepClean(answer: (nat, Call) -> Reply, at: nat, nwo: string, prev: SyncRun, name: string)
    ensures var r := DeleteStep(answer, at, nwo, prev, name);
            (r.errs == prev.errs <==> answer(at + |prev.events|, Gh(DeleteLabelArgs(nwo, name))).Done?)
            && |r.events| == |prev.events| + 1
  {
    var r := DeleteStep(answer, at, nwo, prev, name);
    if answer(at + |prev.events|, Gh(DeleteLabelArgs(nwo, name))).Failed? {
      assert |r.errs| == |prev.errs| + 1;
    }
  }

  /** The delete loop adds no error exactly when every delete request succeeds. */
  lemma {:induction false} DeleteAllClean(answer: (nat, Call) -> Reply, at: nat, nwo: string, names: seq<string>, init: SyncRun, from: nat)
    requires from == at + |init.events|
    ensures DeleteAll(answer, at, nwo, names, init).errs == init.errs <==> DeletesSucceed(answer, from, nwo, names)
    decreases |names|
  {
    if names != [] {
      var front := names[..|names| - 1];
      var prev := DeleteAll(answer, at, nwo, front, init);
      DeleteAllClean(answer, at, nwo, front, init, from);
      DeleteAllEvents(answer, at, nwo, front, init);
      DeleteAllExtends(answer, at, nwo, front, init);
      DeletesSucceedSnoc(answer, from, nwo, names);
      assert at + |prev.events| == from + |names| - 1;
      DeleteStepClean(answer, at, nwo, prev, names[|names| - 1]);
      assert DeleteAll(answer, at, nwo, names, init) == DeleteStep(answer, at, nwo, prev, names[|names| - 1]);
    }
  }

  /** The create loop makes one request per label, in order, after the
      requests that came before. */
  lemma {:induction false} CreateAllEvents(answer: (nat, Call) -> Reply, at: nat, nwo: string, labels: seq<Label>, init: SyncRun)
    ensures var r := CreateAll(answer, at, nwo, labels, init);
            && |r.events| == |init.events| + |labels| && r.events[..|init.events|] == init.events
            && (forall i :: 0 <= i < |labels| ==> r.events[|init.events| + i] == Called(Gh(CreateLabelArgs(nwo, labels[i]))))
    decreases |labels|
  {
    if labels != [] {
      var front := labels[..|labels| - 1];
      CreateAllEvents(answer, at, nwo, front, init);
      var prev := CreateAll(answer, at, nwo, front, init);
      var r := CreateAll(answer, at, nwo, labels, init);
      assert r.events == prev.events + [Called(Gh(CreateLabelArgs(nwo, labels[|labels| - 1])))];
      assert forall i :: 0 <= i < |front| ==> front[i] == labels[i];
    }
  }

  /** The errors of the failing creates among `labels`, in order: one
      CreateLabelFailed per create request whose reply is a failure, the first
      request being made at position `from`. */
  function CreateErrors(answer: (nat, Call) -> Reply, from: nat, nwo: string, labels: seq<Label>): (errs: seq<Error>)
    ensures |errs| <= |labels|
    ensures forall j :: 0 <= j < |errs| ==> errs[j].CreateLabelFailed?
    decreases |labels|
  {
    if labels == [] then []
    else
      var last := labels[|labels| - 1];
      var reply := answer(from + |labels| - 1, Gh(CreateLabelArgs(nwo, last)));
      CreateErrors(answer, from, nwo, labels[..|labels| - 1])
        + (if reply.Failed? then [CreateLabelFailed(last.name, reply.detail)] else [])
  }

  /** One create that fails adds its error; one that succeeds counts a creation. */
  lemma CreateStepCounts(answer: (nat, Call) -> Reply, at: nat, nwo: string, prev: SyncRun, l: Label,
                         reply: Reply, tail: seq<Error>)
    requires reply == answer(at + |prev.events|, Gh(CreateLabelArgs(nwo, l)))
    requires tail == if reply.Failed? then [CreateLabelFailed(l.name, reply.detail)] else []
    ensures var r := CreateStep(answer, at, nwo, prev, l);
            r.deleted == prev.deleted && r.errs == prev.errs + tail && r.created == prev.created + 1 - |tail|
  {
  }

  /** The create loop adds exactly the errors of the failing creates, after the
      errors that came before, and counts every other label as created; nothing
      is deleted. */
  lemma {:induction false} CreateAllCounts(answer: (nat, Call) -> Reply, at: nat, nwo: string, labels: seq<Label>, init: SyncRun)
    ensures var r := CreateAll(answer, at, nwo, labels, init);
            var failed := CreateErrors(answer, at + |init.events|, nwo, labels);
            && r.deleted == init.deleted
            && r.errs == init.errs + failed
            && r.created == init.created + |labels| - |failed|
    decreases |labels|
  {
    if labels != [] {
      var front := labels[..|labels| - 1];
      var last := labels[|labels| - 1];
      var from := at + |init.events|;
      var prev := CreateAll(answer, at, nwo, front, init);
      CreateAllCounts(answer, at, nwo, front, init);
      assert at + |prev.events| == from + |labels| - 1 by {
        CreateAllEvents(answer, at, nwo, front, init);
      }
      var reply := answer(from + |labels| - 1, Gh(CreateLabelArgs(nwo, last)));
      var tail := if reply.Failed? then [CreateLabelFailed(last.name, reply.detail)] else [];
      CreateStepCounts(answer, at, nwo, prev, last, reply, tail);
      assert CreateAll(answer, at, nwo, labels, init) == CreateStep(answer, at, nwo, prev, last);
      assert CreateErrors(answer, from, nwo, labels) == CreateErrors(answer, from, nwo, front) + tail;
      assert init.errs + CreateErrors(answer, from, nwo, front) + tail
          == init.errs + (CreateErrors(answer, from, nwo, front) + tail);
    }
  }

  /** The create loop only appends to the errors that came before. */
  lemma CreateAllExtends(answer: (nat, Call) -> Reply, at: nat, nwo: string, labels: seq<Label>, init: SyncRun)
    ensures var r := CreateAll(answer, at, nwo, labels, init);
            |init.errs| <= |r.errs| && r.errs[..|init.errs|] == init.errs
  {
    CreateAllCounts(answer, at, nwo, labels, init);
    var failed := CreateErrors(answer, at + |init.events|, nwo, labels);
    assert (init.errs + failed)[..|init.errs|] == init.errs;
  }

  lemma CreatesSucceedSnoc(answer: (nat, Call) -> Reply, from: nat, nwo: string, labels: seq<Label>)
    requires labels != []
    ensures CreatesSucceed(answer, from, nwo, labels) <==>
            CreatesSucceed(answer, from, nwo, labels[..|labels| - 1])
            && answer(from + |labels| - 1, Gh(CreateLabelArgs(nwo, labels[|labels| - 1]))).Done?
  {
    var front := labels[..|labels| - 1];
    assert forall i :: 0 <= i < |front| ==> front[i] == labels[i];
  }

  /** One create adds no error exactly when its request succeeds. */
  lemma CreateStepClean(answer: (nat, Call) -> Reply, at: nat, nwo: string, prev: SyncRun, l: Label)
    ensures var r := CreateStep(answer, at, nwo, prev, l);
            (r.errs == prev.errs <==> answer(at + |prev.events|, Gh(CreateLabelArgs(nwo, l))).Done?)
            && |r.events| == |prev.events| + 1
  {
    var r := CreateStep(answer, at, nwo, prev, l);
    if answer(at + |prev.events|, Gh(CreateLabelArgs(nwo, l))).Failed? {
      assert |r.errs| == |prev.errs| + 1;
    }
  }

  /** The create loop adds no error exactly when every create request succeeds. */
  lemma {:induction false} CreateAllClean(answer: (nat, Call) -> Reply, at: nat, nwo: string, labels: seq<Label>, init: SyncRun, from: nat)
    requires from == at + |init.events|
    ensures CreateAll(answer, at, nwo, labels, init).errs == init.errs <==> CreatesSucceed(answer, from, nwo, labels)
    decreases |labels|
  {
    if labels != [] {
      var front := labels[..|labels| - 1];
      var prev := CreateAll(answer, at, nwo, front, init);
      CreateAllClean(answer, at, nwo, front, init, from);
      CreateAllEvents(answer, at, nwo, front, init);
      CreateAllExtends(answer, at, nwo, front, init);
      CreatesSucceedSnoc(answer, from, nwo, labels);
      assert at + |prev.events| == from + |labels| - 1;
      CreateStepClean(answer, at, nwo, prev, labels[|labels| - 1]);
      assert CreateAll(answer, at, nwo, labels, init) == CreateStep(answer, at, nwo, prev, labels[|labels| - 1]);
    }
  }

  /** Without clearing, labels are only created: one request per configured
      label; the errors are those of the failing creates, every other label is
      counted as created, and none is deleted. */
  lemma SyncWithoutClearing(answer: (nat, Call) -> Reply, decode: string -> Option<seq<ListedLabel>>,
                            at: nat, nwo: string, cfg: LabelConfig)
    requires !cfg.clearExisting
    ensures var r := SyncLabelsRun(answer, decode, at, nwo, cfg);
            && r.deleted == 0
            && r.errs == CreateErrors(answer, at, nwo, cfg.items)
            && r.created == |cfg.items| - |r.errs|
            && |r.events| == |cfg.items|
            && (forall i :: 0 <= i < |cfg.items| ==> r.events[i] == Called(Gh(CreateLabelArgs(nwo, cfg.items[i]))))
            && (r.errs == [] <==> CreatesSucceed(answer, at, nwo, cfg.items))
  {
    var init := SyncRun(0, 0, [], []);
    var r := CreateAll(answer, at, nwo, cfg.items, init);
    assert SyncLabelsRun(answer, decode, at, nwo, cfg) == r;
    assert r.deleted == 0 && r.errs == CreateErrors(answer, at, nwo, cfg.items) && r.created == |cfg.items| - |r.errs| by {
      CreateAllCounts(answer, at, nwo, cfg.items, init);
    }
    assert |r.events| == |cfg.items| && forall i :: 0 <= i < |cfg.items| ==> r.events[i] == Called(Gh(CreateLabelArgs(nwo, cfg.items[i]))) by {
      CreateAllEvents(answer, at, nwo, cfg.items, init);
      forall i | 0 <= i < |cfg.items|
        ensures r.events[i] == Called(Gh(CreateLabelArgs(nwo, cfg.items[i])))
      {
        assert r.events[|init.events| + i] == Called(Gh(CreateLabelArgs(nwo, cfg.items[i])));
      }
    }
    assert r.errs == [] <==> CreatesSucceed(answer, at, nwo, cfg.items) by {
      CreateAllClean(answer, at, nwo, cfg.items, init, at);
    }
  }

  /** With clearing, a failed listing ends the synchronisation: nothing is
      deleted and, although labels are configured, nothing is created. */
  lemma SyncListFailureStops(answer: (nat, Call) -> Reply, decode: string -> Option<seq<ListedLabel>>,
                             at: nat, nwo: string, cfg: LabelConfig)
    requires cfg.clearExisting
    requires ListOutcome(answer(at, Gh(ListLabelsArgs(nwo))), decode).Err?
    ensures var r := SyncLabelsRun(answer, decode, at, nwo, cfg);
            && r.deleted == 0 && r.created == 0
            && r.events == [Called(Gh(ListLabelsArgs(nwo)))]
            && |r.errs| == 1 && (r.errs[0].ListLabelsFailed? || r.errs[0].ParseLabelsFailed?)
  {
  }

  /** The run that follows a successful listing: the deletes, then the creates. */
  lemma SyncAfterListing(answer: (nat, Call) -> Reply, decode: string -> Option<seq<ListedLabel>>,
                         at: nat, nwo: string, cfg: LabelConfig)
    requires cfg.clearExisting
    requires ListOutcome(answer(at, Gh(ListLabelsArgs(nwo))), decode).Ok?
    ensures var names := ListOutcome(answer(at, Gh(ListLabelsArgs(nwo))), decode).value;
            var afterList := SyncRun(0, 0, [], [Called(Gh(ListLabelsArgs(nwo)))]);
            SyncLabelsRun(answer, decode, at, nwo, cfg)
              == CreateAll(answer, at, nwo, cfg.items, DeleteAll(answer, at, nwo, names, afterList))
  {
  }

  /** With clearing and a successful listing, the errors are those of the
      failing deletes followed by those of the failing creates; every other
      listed label is counted as deleted and every other configured label as
      created. */
  lemma SyncWithClearingCounts(answer: (nat, Call) -> Reply, decode: string -> Option<seq<ListedLabel>>,
                               at: nat, nwo: string, cfg: LabelConfig)
    requires cfg.clearExisting
    requires ListOutcome(answer(at, Gh(ListLabelsArgs(nwo))), decode).Ok?
    ensures var names := ListOutcome(answer(at, Gh(ListLabelsArgs(nwo))), decode).value;
            var r := SyncLabelsRun(answer, decode, at, nwo, cfg);
            var failedDeletes := DeleteErrors(answer, at + 1, nwo, names);
            var failedCreates := CreateErrors(answer, at + 1 + |names|, nwo, cfg.items);
            && r.errs == failedDeletes + failedCreates
            && r.deleted == |names| - |failedDeletes|
            && r.created == |cfg.items| - |failedCreates|
  {
    var names := ListOutcome(answer(at, Gh(ListLabelsArgs(nwo))), decode).value;
    var afterList := SyncRun(0, 0, [], [Called(Gh(ListLabelsArgs(nwo)))]);
    var mid := DeleteAll(answer, at, nwo, names, afterList);
    var r := CreateAll(answer, at, nwo, cfg.items, mid);
    assert SyncLabelsRun(answer, decode, at, nwo, cfg) == r by {
      SyncAfterListing(answer, decode, at, nwo, cfg);
    }
    assert at + |mid.events| == at + 1 + |names| by {
      DeleteAllEvents(answer, at, nwo, names, afterList);
    }
    assert mid.errs == DeleteErrors(answer, at + 1, nwo, names) && mid.deleted == |names| - |mid.errs| && mid.created == 0 by {
      DeleteAllCounts(answer, at, nwo, names, afterList);
    }
    CreateAllCounts(answer, at, nwo, cfg.items, mid);
  }

  /** With clearing and a successful listing, the requests are the listing,
      then one delete per listed label, then one create per configured label. */
  lemma SyncWithClearingEvents(answer: (nat, Call) -> Reply, decode: string -> Option<seq<ListedLabel>>,
                               at: nat, nwo: string, cfg: LabelConfig)
    requires cfg.clearExisting
    requires ListOutcome(answer(at, Gh(ListLabelsArgs(nwo))), decode).Ok?
    ensures var names := ListOutcome(answer(at, Gh(ListLabelsArgs(nwo))), decode).value;
            var r := SyncLabelsRun(answer, decode, at, nwo, cfg);
            && |r.events| == 1 + |names| + |cfg.items|
            && r.events[0] == Called(Gh(ListLabelsArgs(nwo)))
            && (forall i :: 0 <= i < |names| ==> r.events[1 + i] == Called(Gh(DeleteLabelArgs(nwo, names[i]))))
            && (forall i :: 0 <= i < |cfg.items| ==>
                  r.events[1 + |names| + i] == Called(Gh(CreateLabelArgs(nwo, cfg.items[i]))))
  {
    var names := ListOutcome(answer(at, Gh(ListLabelsArgs(nwo))), decode).value;
    var afterList := SyncRun(0, 0, [], [Called(Gh(ListLabelsArgs(nwo)))]);
    var mid := DeleteAll(answer, at, nwo, names, afterList);
    var r := CreateAll(answer, at, nwo, cfg.items, mid);
    assert SyncLabelsRun(answer, decode, at, nwo, cfg) == r by {
      SyncAfterListing(answer, decode, at, nwo, cfg);
    }
    assert && |mid.events| == 1 + |names| && mid.events[..1] == afterList.events
           && forall i :: 0 <= i < |names| ==> mid.events[1 + i] == Called(Gh(DeleteLabelArgs(nwo, names[i]))) by {
      DeleteAllEvents(answer, at, nwo, names, afterList);
    }
    assert && |r.events| == |mid.events| + |cfg.items| && r.events[..|mid.events|] == mid.events
           && forall i :: 0 <= i < |cfg.items| ==> r.events[|mid.events| + i] == Called(Gh(CreateLabelArgs(nwo, cfg.items[i]))) by {
      CreateAllEvents(answer, at, nwo, cfg.items, mid);
    }
    assert r.events[0] == r.events[..|mid.events|][0] == mid.events[..1][0];
    forall i | 0 <= i < |names|
      ensures r.events[1 + i] == Called(Gh(DeleteLabelArgs(nwo, names[i])))
    {
      assert r.events[1 + i] == r.events[..|mid.events|][1 + i];
    }
  }

  /** Listing then deleting `names` then creating `items` adds no error
      exactly when every delete and every create succeeds. */
  /** Two phases' errors, the second phase only appending: none at all exactly
      when the first phase has none and the second adds none. */
  lemma ErrorsOfTwoPhases(first: seq<Error>, both: seq<Error>)
    requires |first| <= |both| && both[..|first|] == first
    ensures both == [] <==> first == [] && both == first
  {
  }

  lemma DeleteThenCreateClean(answer: (nat, Call) -> Reply, at: nat, nwo: string, names: seq<string>, items: seq<Label>)
    ensures var afterList := SyncRun(0, 0, [], [Called(Gh(ListLabelsArgs(nwo)))]);
            CreateAll(answer, at, nwo, items, DeleteAll(answer, at, nwo, names, afterList)).errs == [] <==>
              DeletesSucceed(answer, at + 1, nwo, names) && CreatesSucceed(answer, at + 1 + |names|, nwo, items)
  {
    var afterList := SyncRun(0, 0, [], [Called(Gh(ListLabelsArgs(nwo)))]);
    var mid := DeleteAll(answer, at, nwo, names, afterList);
    var r := CreateAll(answer, at, nwo, items, mid);
    var from := at + 1 + |names|;
    assert at + |mid.events| == from by {
      DeleteAllEvents(answer, at, nwo, names, afterList);
    }
    assert mid.errs == [] <==> DeletesSucceed(answer, at + 1, nwo, names) by {
      DeleteAllClean(answer, at, nwo, names, afterList, at + 1);
    }
    assert r.errs == mid.errs <==> CreatesSucceed(answer, from, nwo, items) by {
      CreateAllClean(answer, at, nwo, items, mid, from);
    }
    CreateAllExtends(answer, at, nwo, items, mid);
    ErrorsOfTwoPhases(mid.errs, r.errs);
  }

  /** With clearing and a successful listing, there are no errors exactly when
      every delete and every create request succeeds. */
  lemma SyncWithClearingClean(answer: (nat, Call) -> Reply, decode: string -> Option<seq<ListedLabel>>,
                              at: nat, nwo: string, cfg: LabelConfig)
    requires cfg.clearExisting
    requires ListOutcome(answer(at, Gh(ListLabelsArgs(nwo))), decode).Ok?
    ensures var names := ListOutcome(answer(at, Gh(ListLabelsArgs(nwo))), decode).value;
            SyncLabelsRun(answer, decode, at, nwo, cfg).errs == [] <==>
              DeletesSucceed(answer, at + 1, nwo, names) && CreatesSucceed(answer, at + 1 + |names|, nwo, cfg.items)
  {
    var names := ListOutcome(answer(at, Gh(ListLabelsArgs(nwo))), decode).value;
    SyncAfterListing(answer, decode, at, nwo, cfg);
    DeleteThenCreateClean(answer, at, nwo, names, cfg.items);
  }


  /** Every request a synchronisation makes is a `gh label` command for the
      repository it was given, never for another one. */
  lemma SyncTargetsOnlyRepo(answer: (nat, Call) -> Reply, decode: string -> Option<seq<ListedLabel>>,
                            at: nat, nwo: string, cfg: LabelConfig)
    ensures var r := SyncLabelsRun(answer, decode, at, nwo, cfg);
            forall i :: 0 <= i < |r.events| ==> TargetsRepo(r.events[i], nwo)
  {
    var r := SyncLabelsRun(answer, decode, at, nwo, cfg);
    LabelArgsRoundTrip(nwo, Label("", "", ""), "");
    if !cfg.clearExisting {
      assert |r.events| == |cfg.items|
             && forall i :: 0 <= i < |cfg.items| ==> r.events[i] == Called(Gh(CreateLabelArgs(nwo, cfg.items[i]))) by {
        SyncWithoutClearing(answer, decode, at, nwo, cfg);
      }
      forall i | 0 <= i < |r.events|
        ensures TargetsRepo(r.events[i], nwo)
      {
        LabelArgsRoundTrip(nwo, cfg.items[i], "");
      }
    } else if ListOutcome(answer(at, Gh(ListLabelsArgs(nwo))), decode).Ok? {
      SyncWithClearingEvents(answer, decode, at, nwo, cfg);
      var names := ListOutcome(answer(at, Gh(ListLabelsArgs(nwo))), decode).value;
      forall i | 0 <= i < |r.events|
        ensures TargetsRepo(r.events[i], nwo)
      {
        if 1 <= i < 1 + |names| {
          LabelArgsRoundTrip(nwo, Label("", "", ""), names[i - 1]);
        } else if 1 + |names| <= i {
          assert r.events[1 + |names| + (i - 1 - |names|)] == Called(Gh(CreateLabelArgs(nwo, cfg.items[i - 1 - |names|])));
          LabelArgsRoundTrip(nwo, cfg.items[i - 1 - |names|], "");
        }
      }
    }
  }

  /** The delete loop of SyncLabels: deletes `names` in order, continuing the
      running totals of `init`, whose requests follow `t0` in the trace. */
  method DeleteEach(c: Client, nwo: string, names: seq<string>, ghost t0: seq<Event>, ghost init: SyncRun,
                    deleted0: nat, created0: nat, errs0: seq<Error>)
    returns (deleted: nat, created: nat, errs: seq<Error>)
    requires c.trace == t0 + init.events
    requires deleted0 == init.deleted && created0 == init.created && errs0 == init.errs
    modifies c
    ensures var run := DeleteAll(c.answer, |t0|, nwo, names, init);
            && c.trace == t0 + run.events
            && deleted == run.deleted && created == run.created && errs == run.errs
  {
    deleted, created, errs := deleted0, created0, errs0;
    ghost var run := init;
    for i := 0 to |names|
      invariant run == DeleteAll(c.answer, |t0|, nwo, names[..i], init)
      invariant c.trace == t0 + run.events
      invariant deleted == run.deleted && created == run.created && errs == run.errs
    {
      ghost var prev := run;
      var r := DeleteLabel(c, nwo, names[i]);
      if r.Fail? {
        errs := errs + [r.error];
      } else {
        deleted := deleted + 1;
      }
      run := DeleteStep(c.answer, |t0|, nwo, prev, names[i]);
      assert names[..i + 1][..i] == names[..i];
    }
    assert names[..|names|] == names;
  }

  /** The create loop of SyncLabels: creates `labels` in order, continuing the
      running totals of `init`, whose requests follow `t0` in the trace. */
  method CreateEach(c: Client, nwo: string, labels: seq<Label>, ghost t0: seq<Event>, ghost init: SyncRun,
                    deleted0: nat, created0: nat, errs0: seq<Error>)
    returns (deleted: nat, created: nat, errs: seq<Error>)
    requires c.trace == t0 + init.events
    requires deleted0 == init.deleted && created0 == init.created && errs0 == init.errs
    modifies c
    ensures var run := CreateAll(c.answer, |t0|, nwo, labels, init);
            && c.trace == t0 + run.events
            && deleted == run.deleted && created == run.created && errs == run.errs
  {
    deleted, created, errs := deleted0, created0, errs0;
    ghost var run := init;
    for i := 0 to |labels|
      invariant run == CreateAll(c.answer, |t0|, nwo, labels[..i], init)
      invariant c.trace == t0 + run.events
      invariant deleted == run.deleted && created == run.created && errs == run.errs
    {
      ghost var prev := run;
      var r := CreateLabel(c, nwo, labels[i]);
      if r.Fail? {
        errs := errs + [r.error];
      } else {
        created := created + 1;
      }
      run := CreateStep(c.answer, |t0|, nwo, prev, labels[i]);
      assert labels[..i + 1][..i] == labels[..i];
    }
    assert labels[..|labels|] == labels;
  }

  /** SyncLabels: returns the number deleted, the number created and every
      error collected on the way. */
  method SyncLabels(c: Client, nwo: string, cfg: LabelConfig) returns (deleted: nat, created: nat, errs: seq<Error>)
    modifies c
    ensures var run := SyncLabelsRun(c.answer, c.decodeLabels, |old(c.trace)|, nwo, cfg);
            && c.trace == old(c.trace) + run.events
            && deleted == run.deleted && created == run.created && errs == run.errs
  {
    ghost var t0 := c.trace;
    ghost var run := SyncRun(0, 0, [], []);
    deleted, created, errs := 0, 0, [];
    if cfg.clearExisting {
      var existing := ListLabels(c, nwo);
      if existing.Err? {
        errs := errs + [existing.error];
        return;
      }
      run := SyncRun(0, 0, [], [Called(Gh(ListLabelsArgs(nwo)))]);
      deleted, created, errs := DeleteEach(c, nwo, existing.value, t0, run, deleted, created, errs);
      run := DeleteAll(c.answer, |t0|, nwo, existing.value, run);
      SyncAfterListing(c.answer, c.decodeLabels, |t0|, nwo, cfg);
    }
    deleted, created, errs := CreateEach(c, nwo, cfg.items, t0, run, deleted, created, errs);
  }

  /** The names of the configured labels, in order. */
  function LabelNames(items: seq<Label>): seq<string> {
    seq(|items|, i requires 0 <= i < |items| => items[i].name)
  }

  /** The summary line: the label count, then the names separated by commas. */
  function SummaryText(cfg: LabelConfig): string {
    Decimal(|cfg.items|) + " labels (" + Join(LabelNames(cfg.items), ", ") + ")"
  }

  /** LabelSummary: collects the names, then formats the line. */
  method LabelSummary(cfg: LabelConfig) returns (s: string)
    ensures s == SummaryText(cfg)
  {
    var names := new string[|cfg.items|];
    for i := 0 to |cfg.items|
      invariant forall j :: 0 <= j < i ==> names[j] == cfg.items[j].name
    {
      names[i] := cfg.items[i].name;
    }
    assert names[..] == LabelNames(cfg.items);
    s := Decimal(|cfg.items|) + " labels (" + Join(names[..], ", ") + ")";
  }

  /** The summary opens with the label count in decimal, up to the first
      space, and closes with a parenthesis. */
  lemma SummaryCount(cfg: LabelConfig)
    ensures var s := SummaryText(cfg);
            exists k :: 0 < k < |s| && AllDigits(s[..k]) && s[k] == ' '
                        && ParseDecimal(s[..k]) == |cfg.items| && HasSuffix(s, ")")
  {
    var s := SummaryText(cfg);
    var d := Decimal(|cfg.items|);
    assert s[..|d|] == d && s[|d|] == ' ';
    DecimalRoundTrip(|cfg.items|);
    assert s[|s| - 1..] == ")";
  }
}
