/** The client of the hosting platform (the `Client` of internal/github). The
    processes it starts (`gh ...`, `gh api ...`) and the boilerplate
    clone-and-push are replaced by one gateway whose replies come from an
    oracle. Everything the engine does that can be observed from outside, its
    requests and the progress statuses it hands to the caller's sink, is
    recorded in order in a trace. */
module Remote {
  import opened Wrappers
  import opened Config
  import opened Validation

  /** The JSON values of a request body. */
  datatype Json =
    | JNull
    | JBool(b: bool)
    | JInt(n: int)
    | JArray(items: seq<Json>)
    | JObject(fields: map<string, Json>)

  /** One request leaving the engine. */
  datatype Call =
      /** Repository creation, given `owner/name` or `name`. */
    | CreateRepo(repo: string, description: string, public: bool)
      /** The settings update, carrying only the keys that are set. */
    | UpdateSettings(nwo: string, settings: map<string, bool>)
      /** A `gh` invocation with these arguments (label list, create, delete). */
    | Gh(args: seq<string>)
      /** `gh api <endpoint> -X PUT --input -` with this JSON body. */
    | PutProtection(endpoint: string, body: map<string, Json>)
      /** Clone into a fresh directory, scaffold, `git add/commit/push`: one opaque step. */
    | ScaffoldAndPush(nwo: string, boilerplate: BoilerplateConfig, repoName: string)

  /** What a request returns: its output, or a failure with its detail. */
  datatype Reply = Done(out: string) | Failed(detail: string)

  /** The errors of the github package. */
  datatype Error =
    | CreateRepoFailed(detail: string)
    | UpdateSettingsFailed(detail: string)
    | ListLabelsFailed(detail: string)
    | ParseLabelsFailed
    | CreateLabelFailed(labelName: string, detail: string)
    | DeleteLabelFailed(labelName: string, detail: string)
    | LabelErrors(count: nat)
    | ScaffoldFailed(detail: string)
    | InvalidNwo(cause: ValidationError)
    | InvalidBranch(cause: ValidationError)
    | ProtectionFailed(detail: string)
    | StepsFailed(count: nat)

  /** The outcome of one step, as delivered to the progress sink; the text of
      the error (Go's Message field) is carried by the error itself. */
  datatype StepStatus = StepStatus(name: string, success: bool, err: Option<Error>)

  datatype Event = Called(call: Call) | Reported(status: StepStatus)

  /** One element of the JSON array printed by `gh label list --json name`. */
  datatype ListedLabel = ListedLabel(name: string)

  class Client {
    /** The reply to the request made at a given position of the trace. */
    const answer: (nat, Call) -> Reply
    /** json.Unmarshal of `gh label list --json name` output; None when it is not such an array. */
    const decodeLabels: string -> Option<seq<ListedLabel>>
    var trace: seq<Event>

    constructor (answer: (nat, Call) -> Reply, decodeLabels: string -> Option<seq<ListedLabel>>)
      ensures this.answer == answer && this.decodeLabels == decodeLabels
      ensures trace == []
    {
      this.answer := answer;
      this.decodeLabels := decodeLabels;
      trace := [];
    }

    /** Makes one request; its reply is the oracle's answer at this position. */
    method Invoke(call: Call) returns (reply: Reply)
      modifies this
      ensures trace == old(trace) + [Called(call)]
      ensures reply == answer(|old(trace)|, call)
    {
      reply := answer(|trace|, call);
      trace := trace + [Called(call)];
    }

    /** Hands one status to the progress sink. */
    method Deliver(status: StepStatus)
      modifies this
      ensures trace == old(trace) + [Reported(status)]
    {
      trace := trace + [Reported(status)];
    }
  }

  /** The progress statuses in a stretch of trace, in order. */
  function Reports(events: seq<Event>): (r: seq<StepStatus>)
    ensures |r| <= |events|
  {
    if events == [] then []
    else
      (if events[0].Reported? then [events[0].status] else []) + Reports(events[1..])
  }

  /** Only requests, no progress statuses. */
  predicate CallsOnly(events: seq<Event>) {
    forall i :: 0 <= i < |events| ==> events[i].Called?
  }

  lemma {:induction false} ReportsAppend(a: seq<Event>, b: seq<Event>)
    ensures Reports(a + b) == Reports(a) + Reports(b)
  {
    if a == [] {
      assert a + b == b;
    } else {
      assert (a + b)[0] == a[0] && (a + b)[1..] == a[1..] + b;
      ReportsAppend(a[1..], b);
    }
  }

  lemma {:induction false} ReportsOfCalls(events: seq<Event>)
    requires CallsOnly(events)
    ensures Reports(events) == []
  {
    if events != [] {
      ReportsOfCalls(events[1..]);
    }
  }
}
