/** Branch protection (internal/github/protection.go): the request body built
    from a profile's protection settings, the guards that run before the
    request, and the endpoint it goes to. */
module Protection {
  import opened Wrappers
  import opened Config
  import opened Validation
  import opened Remote

  const EnforceAdmins := "enforce_admins"
  const RequiredStatusChecks := "required_status_checks"
  const Restrictions := "restrictions"
  const RequiredReviews := "required_pull_request_reviews"

  /** The review block sent when at least one approving review is required. */
  function ReviewsBlock(bp: BranchProtection): Json {
    JObject(map[
      "dismiss_stale_reviews" := JBool(bp.dismissStaleReviews),
      "required_approving_review_count" := JInt(bp.requiredReviews)])
  }

  /** The status-check block: strict, with no required contexts. */
  const StatusChecksBlock: Json := JObject(map["strict" := JBool(true), "contexts" := JArray([])])

  /** The request body as one value: four keys, admins never enforced, no
      push restrictions, a review block only for a positive review count, a
      status-check block only when status checks are required. */
  function ProtectionPayload(bp: BranchProtection): map<string, Json> {
    map[
      EnforceAdmins := JBool(false),
      RequiredStatusChecks := if bp.requireStatusChecks then StatusChecksBlock else JNull,
      Restrictions := JNull,
      RequiredReviews := if bp.requiredReviews > 0 then ReviewsBlock(bp) else JNull]
  }

  /** buildProtectionPayload: starts from the four keys with null blocks, then
      overwrites the review block and the status-check block when they apply. */
  method BuildProtectionPayload(bp: BranchProtection) returns (payload: map<string, Json>)
    ensures payload.Keys == {EnforceAdmins, RequiredStatusChecks, Restrictions, RequiredReviews}
    ensures payload[EnforceAdmins] == JBool(false) && payload[Restrictions] == JNull
    ensures payload[RequiredReviews] == JNull <==> bp.requiredReviews <= 0
    ensures bp.requiredReviews > 0 ==> payload[RequiredReviews] == JObject(map[
              "dismiss_stale_reviews" := JBool(bp.dismissStaleReviews),
              "required_approving_review_count" := JInt(bp.requiredReviews)])
    ensures payload[RequiredStatusChecks] == JNull <==> !bp.requireStatusChecks
    ensures bp.requireStatusChecks ==>
              payload[RequiredStatusChecks] == JObject(map["strict" := JBool(true), "contexts" := JArray([])])
    ensures payload == ProtectionPayload(bp)
  {
    payload := map[
      EnforceAdmins := JBool(false),
      RequiredStatusChecks := JNull,
      Restrictions := JNull,
      RequiredReviews := JNull];
    if bp.requiredReviews > 0 {
      payload := payload[RequiredReviews := ReviewsBlock(bp)];
    }
    if bp.requireStatusChecks {
      payload := payload[RequiredStatusChecks := StatusChecksBlock];
    }
  }

  /** What a protection body asks the platform to enforce. */
  datatype ProtectionRule = ProtectionRule(requiredReviews: nat, dismissStaleReviews: bool, requireStatusChecks: bool)

  /** Reads a protection body back, as the platform would; None for a body
      outside the four-key shape. */
  function DecodePayload(payload: map<string, Json>): Option<ProtectionRule> {
    if payload.Keys != {EnforceAdmins, RequiredStatusChecks, Restrictions, RequiredReviews} then None
    else if payload[EnforceAdmins] != JBool(false) || payload[Restrictions] != JNull then None
    else
      var reviews :=
        match payload[RequiredReviews]
        case JNull => Some((0, false))
        case JObject(f) =>
          if "required_approving_review_count" in f && "dismiss_stale_reviews" in f
             && f["required_approving_review_count"].JInt? && f["required_approving_review_count"].n > 0
             && f["dismiss_stale_reviews"].JBool?
          then Some((f["required_approving_review_count"].n as nat, f["dismiss_stale_reviews"].b))
          else None
        case _ => None;
      var checks :=
        match payload[RequiredStatusChecks]
        case JNull => Some(false)
        case JObject(f) => if f == map["strict" := JBool(true), "contexts" := JArray([])] then Some(true) else None
        case _ => None;
      if reviews.None? || checks.None? then None
      else Some(ProtectionRule(reviews.value.0, reviews.value.1, checks.value))
  }

  /** The body carries the profile's rule: the review count when it is
      positive (and with it the stale-review flag), no reviews otherwise, and
      the status-check flag. */
  lemma PayloadRoundTrip(bp: BranchProtection)
    ensures DecodePayload(ProtectionPayload(bp)) == Some(ProtectionRule(
              if bp.requiredReviews > 0 then bp.requiredReviews else 0,
              bp.requiredReviews > 0 && bp.dismissStaleReviews,
              bp.requireStatusChecks))
  {
  }

  /** The endpoint of the protection update. */
  function Endpoint(nwo: string, branch: string): string {
    "repos/" + nwo + "/branches/" + branch + "/protection"
  }

  /** A valid identifier followed by a slash is delimited by that slash: its
      length is fixed by the text it starts, whatever follows. */
  lemma NwoLengthFixed(m: string, n1: string, n2: string)
    requires ValidateNWO(n1).Pass? && ValidateNWO(n2).Pass?
    requires |n1| < |m| && |n2| < |m|
    requires m[..|n1|] == n1 && m[|n1|] == '/'
    requires m[..|n2|] == n2 && m[|n2|] == '/'
    ensures |n1| == |n2|
  {
    NwoAccepted(n1);
    NwoAccepted(n2);
    var k1 :| NwoSplitAt(n1, k1);
    var k2 :| NwoSplitAt(n2, k2);
    assert forall i :: 0 <= i < |n1| ==> m[i] == n1[i];
    assert forall i :: 0 <= i < |n2| ==> m[i] == n2[i];
    if k1 < k2 {
      assert false;
    }
    if k2 < k1 {
      assert false;
    }
    if |n1| < |n2| {
      assert false;
    }
    if |n2| < |n1| {
      assert false;
    }
  }

  /** Between the fixed prefix and suffix, the endpoint holds `nwo/branches/branch`. */
  lemma EndpointMiddle(nwo: string, branch: string)
    ensures var e := Endpoint(nwo, branch);
            |e| >= 17 && e[6..|e| - 11] == nwo + "/branches/" + branch
  {
    var m := nwo + "/branches/" + branch;
    assert Endpoint(nwo, branch) == "repos/" + m + "/protection";
  }

  /** Once the identifier is valid, the endpoint names one repository and one
      branch: no identifier and branch can masquerade as another pair. */
  lemma EndpointDeterminesTarget(n1: string, b1: string, n2: string, b2: string)
    requires ValidateNWO(n1).Pass? && ValidateNWO(n2).Pass?
    requires Endpoint(n1, b1) == Endpoint(n2, b2)
    ensures n1 == n2 && b1 == b2
  {
    var m1 := n1 + "/branches/" + b1;
    var m2 := n2 + "/branches/" + b2;
    EndpointMiddle(n1, b1);
    EndpointMiddle(n2, b2);
    assert m1 == m2;
    assert m1[..|n1|] == n1 && m1[|n1|] == '/';
    assert m2[..|n2|] == n2 && m2[|n2|] == '/';
    NwoLengthFixed(m1, n1, n2);
    assert b1 == m1[|n1| + 10..] && b2 == m2[|n2| + 10..];
  }

  /** The outcome of one step and the part of the trace it produced. */
  datatype StepRun = StepRun(result: Outcome<Error>, events: seq<Event>)

  /** SetBranchProtection as a value: nothing to do without a branch; an
      invalid identifier, then an invalid branch name, is refused before any
      request; otherwise one PUT of the payload to the endpoint. */
  function ProtectionRun(answer: (nat, Call) -> Reply, at: nat, nwo: string, bp: BranchProtection): StepRun {
    if bp.branch == "" then StepRun(Pass, [])
    else if ValidateNWO(nwo).Fail? then StepRun(Fail(InvalidNwo(ValidateNWO(nwo).error)), [])
    else if ValidateBranchName(bp.branch).Fail? then StepRun(Fail(InvalidBranch(ValidateBranchName(bp.branch).error)), [])
    else
      var call := PutProtection(Endpoint(nwo, bp.branch), ProtectionPayload(bp));
      match answer(at, call)
      case Failed(d) => StepRun(Fail(ProtectionFailed(d)), [Called(call)])
      case Done(_) => StepRun(Pass, [Called(call)])
  }

  /** A request is made exactly when a branch is configured and both the
      identifier and the branch name are valid, and then it is the single PUT
      of the payload to the endpoint; otherwise the step fails with the first
      guard that refused, or succeeds silently when no branch is set. */
  lemma ProtectionGuards(answer: (nat, Call) -> Reply, at: nat, nwo: string, bp: BranchProtection)
    ensures var run := ProtectionRun(answer, at, nwo, bp);
            && (run.events != [] <==>
                  bp.branch != "" && ValidateNWO(nwo).Pass? && ValidateBranchName(bp.branch).Pass?)
            && (run.events != [] ==>
                  run.events == [Called(PutProtection(Endpoint(nwo, bp.branch), ProtectionPayload(bp)))]
                  && (run.result.Pass? <==> answer(at, run.events[0].call).Done?))
            && (bp.branch == "" ==> run.result.Pass?)
            && (bp.branch != "" && ValidateNWO(nwo).Fail? ==> run.result.Fail? && run.result.error.InvalidNwo?)
            && (bp.branch != "" && ValidateNWO(nwo).Pass? && ValidateBranchName(bp.branch).Fail? ==>
                  run.result.Fail? && run.result.error.InvalidBranch?)
            && CallsOnly(run.events)
  {
  }

  /** The step makes requests only. */
  lemma ProtectionCallsOnly(answer: (nat, Call) -> Reply, at: nat, nwo: string, bp: BranchProtection)
    ensures CallsOnly(ProtectionRun(answer, at, nwo, bp).events)
  {
  }

  /** The PUT never reaches an identifier that is not `owner/repo`. */
  lemma ProtectionTargetsValidIdentifier(answer: (nat, Call) -> Reply, at: nat, nwo: string, bp: BranchProtection, n: string, b: string)
    requires var run := ProtectionRun(answer, at, nwo, bp);
             run.events != [] && run.events[0].call.PutProtection? && run.events[0].call.endpoint == Endpoint(n, b)
    requires ValidateNWO(n).Pass?
    ensures n == nwo && b == bp.branch
  {
    EndpointDeterminesTarget(n, b, nwo, bp.branch);
  }

  /** SetBranchProtection: the guards, the payload, then the request. */
  method SetBranchProtection(c: Client, nwo: string, bp: BranchProtection) returns (r: Outcome<Error>)
    modifies c
    ensures var run := ProtectionRun(c.answer, |old(c.trace)|, nwo, bp);
            c.trace == old(c.trace) + run.events && r == run.result
  {
    if bp.branch == "" {
      return Pass;
    }
    var nwoCheck := ValidateNWO(nwo);
    if nwoCheck.Fail? {
      return Fail(InvalidNwo(nwoCheck.error));
    }
    var branchCheck := ValidateBranchName(bp.branch);
    if branchCheck.Fail? {
      return Fail(InvalidBranch(branchCheck.error));
    }
    var payload := BuildProtectionPayload(bp);
    var endpoint := Endpoint(nwo, bp.branch);
    var reply := c.Invoke(PutProtection(endpoint, payload));
    if reply.Failed? {
      return Fail(ProtectionFailed(reply.detail));
    }
    return Pass;
  }
}
