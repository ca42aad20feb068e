// Policy versions and approvals together, over whole runs.
module Authority {
  import opened Wrappers
  import opened Text
  import opened Policy
  import opened PolicyStore
  import opened Approvals

  datatype World = World(policy: PolicyState, approvals: Table)

  datatype WorldStep = PolicyMove(policy: PolicyStep) | ApprovalMove(approval: ApprovalStep)

  function ApplyWorld(w: World, s: WorldStep): World {
    match s
    case PolicyMove(p) => w.(policy := ApplyPolicy(w.policy, p).0)
    case ApprovalMove(a) => w.(approvals := ApplyApproval(w.approvals, a).0)
  }

  predicate Allowed(w: World, s: WorldStep) {
    s.ApprovalMove? ==> IssuedByGate(w.approvals, s.approval)
  }

  ghost predicate WorldValid(w: World) {
    PolicyValid(w.policy) && Keyed(w.approvals)
  }

  lemma WorldValidKept(w: World, s: WorldStep)
    requires WorldValid(w)
    ensures WorldValid(ApplyWorld(w, s)) && Current(ApplyWorld(w, s).policy) >= Current(w.policy)
  {
    if s.PolicyMove? {
      PolicyValidKept(w.policy, s.policy);
      VersionMoves(w.policy, s.policy);
    }
  }

  ghost predicate WorldRun(worlds: seq<World>, steps: seq<WorldStep>) {
    && |worlds| == |steps| + 1
    && forall i {:trigger steps[i]} :: 0 <= i < |steps| ==>
         Allowed(worlds[i], steps[i]) && worlds[i+1] == ApplyWorld(worlds[i], steps[i])
  }

  lemma {:induction false} VersionNeverDecreases(worlds: seq<World>, steps: seq<WorldStep>, i: nat, j: nat)
    requires WorldRun(worlds, steps) && i <= j < |worlds| && WorldValid(worlds[i])
    ensures WorldValid(worlds[j]) && Current(worlds[j].policy) >= Current(worlds[i].policy)
    decreases j
  {
    if i < j {
      VersionNeverDecreases(worlds, steps, i, j - 1);
      assert worlds[j] == ApplyWorld(worlds[j-1], steps[j-1]);
      WorldValidKept(worlds[j-1], steps[j-1]);
    }
  }

  lemma {:induction false} BindingKept(worlds: seq<World>, steps: seq<WorldStep>, i: nat, j: nat, id: Text)
    requires WorldRun(worlds, steps) && i <= j < |worlds| && id in worlds[i].approvals
    ensures id in worlds[j].approvals && worlds[j].approvals[id].binding == worlds[i].approvals[id].binding
    decreases j
  {
    if i < j {
      BindingKept(worlds, steps, i, j - 1, id);
      assert worlds[j] == ApplyWorld(worlds[j-1], steps[j-1]) && Allowed(worlds[j-1], steps[j-1]);
    }
  }

  // Staleness is permanent: an approval whose version is behind the current one is never
  // valid again, for any action, version, risk level and clock readings.
  lemma StaleApprovalNeverValidates(worlds: seq<World>, steps: seq<WorldStep>, i: nat, j: nat, id: Text,
                                    a: Action, version: nat, risk: Option<Risk>, now: int, later: int)
    requires WorldRun(worlds, steps) && i <= j < |worlds| && WorldValid(worlds[i]) && now <= later
    requires id in worlds[i].approvals && worlds[i].approvals[id].binding.version < Current(worlds[i].policy)
    ensures ValidFor(worlds[j].approvals, id, a, version, risk, Current(worlds[j].policy), now, later) != Ok(true)
  {
    VersionNeverDecreases(worlds, steps, i, j);
    BindingKept(worlds, steps, i, j, id);
    ValidForMeaning(worlds[j].approvals, id, a, version, risk, Current(worlds[j].policy), now, later);
  }

  // A committed rule change between two states leaves a strictly larger version behind it, so
  // every approval that existed before it is stale from then on.
  lemma RuleChangeRetiresApprovals(worlds: seq<World>, steps: seq<WorldStep>, i: nat, k: nat, j: nat, id: Text,
                                   a: Action, version: nat, risk: Option<Risk>, now: int, later: int)
    requires WorldRun(worlds, steps) && i <= k < j < |worlds| && WorldValid(worlds[i]) && now <= later
    requires id in worlds[i].approvals && worlds[i].approvals[id].binding.version <= Current(worlds[i].policy)
    requires steps[k].PolicyMove? && ChangesRules(steps[k].policy) && ApplyPolicy(worlds[k].policy, steps[k].policy).1
    ensures ValidFor(worlds[j].approvals, id, a, version, risk, Current(worlds[j].policy), now, later) != Ok(true)
  {
    VersionNeverDecreases(worlds, steps, i, k);
    BindingKept(worlds, steps, i, k + 1, id);
    assert worlds[k+1] == ApplyWorld(worlds[k], steps[k]);
    WorldValidKept(worlds[k], steps[k]);
    VersionMoves(worlds[k].policy, steps[k].policy);
    StaleApprovalNeverValidates(worlds, steps, k + 1, j, id, a, version, risk, now, later);
  }

  // ---- Approvals carry a decision's version ----------------------------------------------------

  // The gate stores the version of the decision that asked for the approval, which was made
  // before the submission.
  predicate CarriesDecision(w: World, s: WorldStep) {
    s.ApprovalMove? && s.approval.Submit? ==> s.approval.request.binding.version <= Current(w.policy)
  }

  ghost predicate NoneAhead(w: World) {
    forall id :: id in w.approvals ==> w.approvals[id].binding.version <= Current(w.policy)
  }

  lemma NoneAheadKept(w: World, s: WorldStep)
    requires WorldValid(w) && NoneAhead(w) && CarriesDecision(w, s)
    ensures NoneAhead(ApplyWorld(w, s))
  {
    WorldValidKept(w, s);
  }

  // No approval is ever ahead of the current version.
  lemma {:induction false} ApprovalsAreNeverAhead(worlds: seq<World>, steps: seq<WorldStep>, j: nat)
    requires WorldRun(worlds, steps) && j < |worlds| && WorldValid(worlds[0]) && NoneAhead(worlds[0])
    requires forall i {:trigger steps[i]} :: 0 <= i < |steps| ==> CarriesDecision(worlds[i], steps[i])
    ensures WorldValid(worlds[j]) && NoneAhead(worlds[j])
  {
    if j > 0 {
      ApprovalsAreNeverAhead(worlds, steps, j - 1);
      assert worlds[j] == ApplyWorld(worlds[j-1], steps[j-1]) && CarriesDecision(worlds[j-1], steps[j-1]);
      WorldValidKept(worlds[j-1], steps[j-1]);
      NoneAheadKept(worlds[j-1], steps[j-1]);
    }
  }

  // So every committed rule change retires every approval there is, for good.
  lemma RuleChangeRetiresEveryApproval(worlds: seq<World>, steps: seq<WorldStep>, k: nat, j: nat, id: Text,
                                       a: Action, version: nat, risk: Option<Risk>, now: int, later: int)
    requires WorldRun(worlds, steps) && k < j < |worlds| && WorldValid(worlds[0]) && NoneAhead(worlds[0])
             && now <= later
    requires forall i {:trigger steps[i]} :: 0 <= i < |steps| ==> CarriesDecision(worlds[i], steps[i])
    requires steps[k].PolicyMove? && ChangesRules(steps[k].policy) && ApplyPolicy(worlds[k].policy, steps[k].policy).1
    requires id in worlds[k].approvals
    ensures ValidFor(worlds[j].approvals, id, a, version, risk, Current(worlds[j].policy), now, later) != Ok(true)
  {
    ApprovalsAreNeverAhead(worlds, steps, k);
    RuleChangeRetiresApprovals(worlds, steps, k, k, j, id, a, version, risk, now, later);
  }

  // ---- Where a valid approval comes from -------------------------------------------------------

  // Step i submitted the approval for an action with these fields.
  ghost predicate SubmittedFor(steps: seq<WorldStep>, i: int, id: Text, a: Action, version: nat, risk: Risk) {
    && 0 <= i < |steps| && steps[i].ApprovalMove? && steps[i].approval.Submit?
    && var b := steps[i].approval.request.binding;
    && b.id == id && b.task == a.task && b.action == a.action && b.tool == a.tool && b.capabilities == a.requested
    && b.goal == a.goal && b.fingerprint == a.fingerprint && b.risk == risk && b.version == version
  }

  ghost predicate ApprovedAt(worlds: seq<World>, steps: seq<WorldStep>, k: int, id: Text) {
    && 0 <= k < |steps| && k < |worlds| - 1 && steps[k].ApprovalMove? && steps[k].approval.Transition?
    && steps[k].approval.request.binding.id == id && steps[k].approval.request.status == APPROVED
    && id in worlds[k].approvals && worlds[k].approvals[id].status == PENDING
    && id in worlds[k+1].approvals && worlds[k+1].approvals[id] == steps[k].approval.request
  }

  lemma {:induction false} RowOrigin(worlds: seq<World>, steps: seq<WorldStep>, j: nat, id: Text) returns (i: nat)
    requires WorldRun(worlds, steps) && WorldValid(worlds[0]) && worlds[0].approvals == map[] && j < |worlds|
    requires id in worlds[j].approvals
    ensures i < j && steps[i].ApprovalMove? && steps[i].approval.Submit? && id !in worlds[i].approvals
    ensures steps[i].approval.request.status == PENDING && steps[i].approval.request.binding.id == id
    ensures steps[i].approval.request.binding == worlds[j].approvals[id].binding
    decreases j
  {
    assert worlds[j] == ApplyWorld(worlds[j-1], steps[j-1]) && Allowed(worlds[j-1], steps[j-1]);
    if id in worlds[j-1].approvals {
      i := RowOrigin(worlds, steps, j - 1, id);
    } else {
      i := j - 1;
    }
  }

  lemma {:induction false} ApprovalOrigin(worlds: seq<World>, steps: seq<WorldStep>, i: nat, j: nat, id: Text)
    returns (k: nat)
    requires WorldRun(worlds, steps) && WorldValid(worlds[0]) && i <= j < |worlds|
    requires id !in worlds[i].approvals && id in worlds[j].approvals && worlds[j].approvals[id].status == APPROVED
    ensures i <= k < j && ApprovedAt(worlds, steps, k, id)
    decreases j
  {
    assert worlds[j] == ApplyWorld(worlds[j-1], steps[j-1]) && Allowed(worlds[j-1], steps[j-1]);
    VersionNeverDecreases(worlds, steps, 0, j - 1);
    if id in worlds[j-1].approvals && worlds[j-1].approvals[id].status == APPROVED {
      k := ApprovalOrigin(worlds, steps, i, j - 1, id);
    } else {
      k := j - 1;
    }
  }

  // In every run over an empty approval table, an approval that validates was submitted for an
  // action equal in every bound field, at this risk and version, and was granted after that.
  lemma ValidApprovalWasSubmitted(worlds: seq<World>, steps: seq<WorldStep>, j: nat, id: Text, a: Action,
                                  version: nat, risk: Option<Risk>, now: int, later: int)
    returns (i: nat, k: nat)
    requires WorldRun(worlds, steps) && WorldValid(worlds[0]) && worlds[0].approvals == map[] && j < |worlds|
    requires now <= later
    requires ValidFor(worlds[j].approvals, id, a, version, risk, Current(worlds[j].policy), now, later) == Ok(true)
    ensures risk.Some? && version == Current(worlds[j].policy)
    ensures i < k < j && SubmittedFor(steps, i, id, a, version, risk.value) && ApprovedAt(worlds, steps, k, id)
  {
    VersionNeverDecreases(worlds, steps, 0, j);
    ValidForMeaning(worlds[j].approvals, id, a, version, risk, Current(worlds[j].policy), now, later);
    i := RowOrigin(worlds, steps, j, id);
    k := ApprovalOrigin(worlds, steps, i, j, id);
  }

  // If every submission carried the version of a decision made before it, no rule was created
  // or disabled between that submission and a question the approval answers with yes.
  lemma NoRuleChangeSinceSubmission(worlds: seq<World>, steps: seq<WorldStep>, i: nat, l: nat, j: nat)
    requires WorldRun(worlds, steps) && WorldValid(worlds[0]) && i <= l < j < |worlds|
    requires steps[i].ApprovalMove? && steps[i].approval.Submit? && CarriesDecision(worlds[i], steps[i])
    requires steps[i].approval.request.binding.version == Current(worlds[j].policy)
    ensures !(steps[l].PolicyMove? && ChangesRules(steps[l].policy) && ApplyPolicy(worlds[l].policy, steps[l].policy).1)
  {
    VersionNeverDecreases(worlds, steps, 0, i);
    VersionNeverDecreases(worlds, steps, i, l);
    assert worlds[l+1] == ApplyWorld(worlds[l], steps[l]);
    WorldValidKept(worlds[l], steps[l]);
    VersionNeverDecreases(worlds, steps, l + 1, j);
    if steps[l].PolicyMove? {
      VersionMoves(worlds[l].policy, steps[l].policy);
    }
  }
}
