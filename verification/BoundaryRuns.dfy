// One-shot execution over whole runs of the boundary.
module BoundaryRuns {
  import opened Wrappers
  import opened Text
  import opened Policy
  import opened PolicyStore
  import opened Approvals
  import opened Authority
  import opened Boundary

  // Ids in use were handed out before; a call's authorization is in flight or its evidence is
  // gone; no two calls, receipts or audit events share an authorization.
  ghost predicate IdsOk(c: Controller) {
    && (forall a :: a in c.evidence ==> a < c.authorizations)
    && (forall a :: a in c.inflight ==> a < c.authorizations)
    && (forall i :: 0 <= i < |c.calls| ==> c.calls[i].auth < c.authorizations)
    && (forall i :: 0 <= i < |c.calls| && c.calls[i].auth in c.evidence ==> c.calls[i].auth in c.inflight)
    && (forall i, j :: 0 <= i < j < |c.calls| ==> c.calls[i].auth != c.calls[j].auth)
  }

  ghost predicate ReceiptsOk(c: Controller) {
    forall r :: 0 <= r < |c.receipts| ==>
      c.receipts[r].call < |c.calls| && c.calls[c.receipts[r].call].phase == RECEIPTED
      && c.calls[c.receipts[r].call].auth == c.receipts[r].auth
      && c.calls[c.receipts[r].call].action == c.receipts[r].action
  }

  ghost predicate AuditOk(c: Controller) {
    && (forall e :: 0 <= e < |c.audit| ==> c.audit[e].auth < c.authorizations && c.audit[e].auth !in c.evidence)
    && (forall e, f :: 0 <= e < f < |c.audit| ==> c.audit[e].auth != c.audit[f].auth)
  }

  ghost predicate ControllerValid(c: Controller) {
    IdsOk(c) && ReceiptsOk(c) && AuditOk(c) && WorldValid(c.world)
  }

  predicate Fresh(c: Controller) {
    && c.evidence == map[] && c.inflight == {} && c.calls == [] && c.receipts == [] && c.audit == []
    && c.authorizations == 0
  }

  lemma IdsKept(c: Controller, s: BoundaryStep)
    requires IdsOk(c)
    ensures IdsOk(ApplyBoundary(c, s).0)
  {
    match s
    case Begin(auth, presented, a, clock) => BeginKeepsIds(c, s);
    case Record(r, clock) => RecordKeepsIds(c, s);
    case _ =>
  }

  lemma RecordKeepsIds(c: Controller, s: BoundaryStep)
    requires IdsOk(c) && s.Record?
    ensures IdsOk(ApplyBoundary(c, s).0)
  {
  }

  lemma BeginKeepsIds(c: Controller, s: BoundaryStep)
    requires IdsOk(c) && s.Begin?
    ensures IdsOk(ApplyBoundary(c, s).0)
  {
  }

  lemma ReceiptsKept(c: Controller, s: BoundaryStep)
    requires ReceiptsOk(c)
    ensures ReceiptsOk(ApplyBoundary(c, s).0)
  {
    match s
    case Issue(k, presented, clock) => IssueKeepsReceipts(c, s);
    case Record(r, clock) => RecordKeepsReceipts(c, s);
    case _ =>
  }

  lemma IssueKeepsReceipts(c: Controller, s: BoundaryStep)
    requires ReceiptsOk(c) && s.Issue?
    ensures ReceiptsOk(ApplyBoundary(c, s).0)
  {
  }

  lemma RecordKeepsReceipts(c: Controller, s: BoundaryStep)
    requires ReceiptsOk(c) && s.Record?
    ensures ReceiptsOk(ApplyBoundary(c, s).0)
  {
  }

  lemma AuditKept(c: Controller, s: BoundaryStep)
    requires AuditOk(c) && IdsOk(c)
    ensures AuditOk(ApplyBoundary(c, s).0)
  {
    match s
    case Record(r, clock) => RecordKeepsAudit(c, s);
    case _ =>
  }

  lemma RecordKeepsAudit(c: Controller, s: BoundaryStep)
    requires AuditOk(c) && IdsOk(c) && s.Record?
    ensures AuditOk(ApplyBoundary(c, s).0)
  {
  }

  lemma ControllerValidKept(c: Controller, s: BoundaryStep)
    requires ControllerValid(c)
    ensures ControllerValid(ApplyBoundary(c, s).0)
    ensures Current(ApplyBoundary(c, s).0.world.policy) >= Current(c.world.policy)
  {
    IdsKept(c, s);
    ReceiptsKept(c, s);
    AuditKept(c, s);
    if s.Elsewhere? {
      WorldValidKept(c.world, s.step);
    }
  }

  ghost predicate BoundaryRun(cs: seq<Controller>, steps: seq<BoundaryStep>) {
    && |cs| == |steps| + 1
    && Fresh(cs[0]) && WorldValid(cs[0].world)
    && forall i {:trigger steps[i]} :: 0 <= i < |steps| ==> cs[i+1] == ApplyBoundary(cs[i], steps[i]).0
  }

  lemma {:induction false} BoundaryValid(cs: seq<Controller>, steps: seq<BoundaryStep>, i: nat)
    requires BoundaryRun(cs, steps) && i < |cs|
    ensures ControllerValid(cs[i])
  {
    if i > 0 {
      BoundaryValid(cs, steps, i - 1);
      assert cs[i] == ApplyBoundary(cs[i-1], steps[i-1]).0;
      ControllerValidKept(cs[i-1], steps[i-1]);
    }
  }

  ghost predicate OperatedAt(cs: seq<Controller>, steps: seq<BoundaryStep>, i: int, call: nat, success: bool) {
    && 0 <= i < |steps| && i < |cs|
    && steps[i] == Operate(call, success) && call < |cs[i].calls| && cs[i].calls[call].phase == STARTED
  }

  // A call keeps its authorization and action, and its phase never goes back to STARTED.
  lemma {:induction false} CallsPersist(cs: seq<Controller>, steps: seq<BoundaryStep>, i: nat, j: nat, k: nat)
    requires BoundaryRun(cs, steps) && i <= j < |cs| && k < |cs[i].calls|
    ensures k < |cs[j].calls| && cs[j].calls[k].auth == cs[i].calls[k].auth
            && cs[j].calls[k].action == cs[i].calls[k].action
    ensures cs[i].calls[k].phase != STARTED ==> cs[j].calls[k].phase != STARTED
    decreases j
  {
    if i < j {
      CallsPersist(cs, steps, i, j - 1, k);
      assert cs[j] == ApplyBoundary(cs[j-1], steps[j-1]).0;
    }
  }

  // The operation behind one authorization runs at most once.
  lemma OperationRunsAtMostOnce(cs: seq<Controller>, steps: seq<BoundaryStep>, i: nat, j: nat, k: nat, l: nat, x: bool,
                                y: bool)
    requires BoundaryRun(cs, steps) && i < j && OperatedAt(cs, steps, i, k, x) && OperatedAt(cs, steps, j, l, y)
    ensures cs[i].calls[k].auth != cs[j].calls[l].auth
  {
    BoundaryValid(cs, steps, j);
    assert cs[i+1] == ApplyBoundary(cs[i], steps[i]).0;
    CallsPersist(cs, steps, i + 1, j, k);
    assert k != l;
  }

  // At most one ACTION_EXECUTED or ACTION_FAILED event is recorded per authorization.
  lemma AtMostOneEventPerAuthorization(cs: seq<Controller>, steps: seq<BoundaryStep>, i: nat, e: nat, f: nat)
    requires BoundaryRun(cs, steps) && i < |cs| && e < f < |cs[i].audit|
    ensures cs[i].audit[e].auth != cs[i].audit[f].auth
  {
    BoundaryValid(cs, steps, i);
  }

  // ---- What a boundary authorization covers ----------------------------------------------

  // b is a but for the fields that only influence evaluation.
  predicate ActsAs(a: Action, b: Action) {
    b == a.(riskHint := b.riskHint, networkRequired := b.networkRequired, filesystemRequired := b.filesystemRequired,
            sensitiveData := b.sensitiveData)
  }

  lemma ActsAsFieldwise(a: Action, b: Action)
    ensures ActsAs(a, b) <==>
              && a.task == b.task && a.action == b.action && a.tool == b.tool && a.requested == b.requested
              && a.declared == b.declared && a.fingerprint == b.fingerprint && a.goal == b.goal
              && a.kind == b.kind && a.skillStatus == b.skillStatus
  {}

  // The approval named exists, is APPROVED and unexpired, and was asked for this very action,
  // risk and version.
  ghost predicate Approved(c: Controller, id: Text, a: Action, d: Decision, clock: Clock) {
    && id != [] && id in c.world.approvals && c.world.approvals[id].status == APPROVED
    && !c.world.approvals[id].legacy && d.version == Current(c.world.policy)
    && c.world.approvals[id].binding.expiresAt.Some? && c.world.approvals[id].binding.expiresAt.value > clock.later
    && SharesBinding(c.world.approvals[id].binding, a, d.version, d.risk)
  }

  lemma ApprovedExactly(c: Controller, id: Text, a: Action, d: Decision, clock: Clock)
    requires Keyed(c.world.approvals) && clock.approval <= clock.later
    ensures ApprovalHolds(c, id, a, d, clock) == Ok(true) <==> Approved(c, id, a, d, clock)
  {
    ValidForMeaning(c.world.approvals, id, a, d.version, Some(d.risk), Current(c.world.policy), clock.approval,
                    clock.later);
  }

  // An authorization is granted exactly when the policy allows the action outright, or wants
  // an approval and the one presented is for it; the grant names decision and action.
  lemma GrantsExactly(c: Controller, a: Action, approval: Text, clock: Clock)
    requires Keyed(c.world.approvals) && clock.approval <= clock.later
    ensures var d := Decide(c.world.policy, a, clock.rules);
      var (after, error) := ApplyBoundary(c, Authorize(a, approval, clock));
      var approved := d.verdict == REQUIRE_APPROVAL && Approved(c, approval, a, d, clock);
      && (error == None <==> d.verdict == ALLOW || approved)
      && after.authorizations == c.authorizations + 1
      && (error != None ==> after.evidence == c.evidence)
      && (error == None ==>
            after.evidence == c.evidence[c.authorizations :=
              Evidence(Grant(ALLOW, d.risk, d.version, if approved then approval else [], a), a)])
  {
    ApprovedExactly(c, approval, a, Now(c, a, clock), clock);
  }

  // A call begins exactly with stored, unmodified evidence that allows, not in flight, for an
  // action equal in every bound field, while a fresh decision still gives the granted version
  // and risk and allows the action or finds the granted approval valid.
  lemma BeginsExactly(c: Controller, auth: nat, presented: Grant, a: Action, clock: Clock)
    requires Keyed(c.world.approvals) && clock.approval <= clock.later
    ensures var d := Decide(c.world.policy, a, clock.rules);
      var (after, error) := ApplyBoundary(c, Begin(auth, presented, a, clock));
      && (error == None <==>
            && auth !in c.inflight && auth in c.evidence && c.evidence[auth].grant == presented
            && presented.verdict == ALLOW && ActsAs(c.evidence[auth].action, a)
            && d.version == presented.version && d.risk == presented.risk
            && (d.verdict == ALLOW || (d.verdict == REQUIRE_APPROVAL && Approved(c, presented.approval, a, d, clock))))
      && (error == None ==>
            after == c.(inflight := c.inflight + {auth}, calls := c.calls + [Call(auth, a, STARTED)]))
      && (error != None ==> after == c)
  {
    ApprovedExactly(c, presented.approval, a, Now(c, a, clock), clock);
    if auth in c.evidence {
      ActsAsFieldwise(c.evidence[auth].action, a);
    }
  }

  // Whatever the policy says, an action that differs from the granted one in any bound field
  // does not begin.
  lemma OtherActionsAreRefused(c: Controller, auth: nat, presented: Grant, a: Action, clock: Clock)
    requires auth in c.evidence && !ActsAs(c.evidence[auth].action, a)
    ensures var (after, error) := ApplyBoundary(c, Begin(auth, presented, a, clock));
      after == c && error.Some?
      && (auth !in c.inflight && c.evidence[auth].grant == presented && presented.verdict == ALLOW ==>
            error == Some(MISMATCH))
  {
    ActsAsFieldwise(c.evidence[auth].action, a);
  }

  // ---- Where evidence, calls and receipts come from --------------------------------------

  ghost predicate GrantedAt(cs: seq<Controller>, steps: seq<BoundaryStep>, i: int, auth: nat, e: Evidence) {
    && 0 <= i < |steps| && i < |cs|
    && steps[i].Authorize? && cs[i].authorizations == auth
    && e.action == steps[i].action
    && GrantFor(cs[i], steps[i].action, steps[i].approval, steps[i].clock) == Some(e.grant)
  }

  lemma {:induction false} EvidenceOrigin(cs: seq<Controller>, steps: seq<BoundaryStep>, j: nat, auth: nat)
    returns (i: nat)
    requires BoundaryRun(cs, steps) && j < |cs| && auth in cs[j].evidence
    ensures i < j && GrantedAt(cs, steps, i, auth, cs[j].evidence[auth])
    decreases j
  {
    assert cs[j] == ApplyBoundary(cs[j-1], steps[j-1]).0;
    if auth in cs[j-1].evidence && cs[j].evidence[auth] == cs[j-1].evidence[auth] {
      i := EvidenceOrigin(cs, steps, j - 1, auth);
    } else {
      i := j - 1;
    }
  }

  ghost predicate BegunAt(cs: seq<Controller>, steps: seq<BoundaryStep>, i: int, call: nat, auth: nat) {
    && 0 <= i < |steps| && i < |cs|
    && steps[i].Begin? && steps[i].auth == auth && call == |cs[i].calls| && ApplyBoundary(cs[i], steps[i]).1 == None
  }

  lemma {:induction false} CallOrigin(cs: seq<Controller>, steps: seq<BoundaryStep>, j: nat, k: nat) returns (i: nat)
    requires BoundaryRun(cs, steps) && j < |cs| && k < |cs[j].calls|
    ensures i < j && BegunAt(cs, steps, i, k, cs[j].calls[k].auth) && steps[i].action == cs[j].calls[k].action
    decreases j
  {
    assert cs[j] == ApplyBoundary(cs[j-1], steps[j-1]).0;
    CallStep(cs[j-1], steps[j-1], k);
    if k < |cs[j-1].calls| {
      i := CallOrigin(cs, steps, j - 1, k);
    } else {
      i := j - 1;
    }
  }

  lemma CallStep(c: Controller, s: BoundaryStep, k: nat)
    requires k < |ApplyBoundary(c, s).0.calls|
    ensures var call := ApplyBoundary(c, s).0.calls[k];
      if k < |c.calls| then call == c.calls[k].(phase := call.phase)
      else k == |c.calls| && s.Begin? && call == Call(s.auth, s.action, STARTED) && ApplyBoundary(c, s).1 == None
  {
  }

  lemma {:induction false} ReturnOrigin(cs: seq<Controller>, steps: seq<BoundaryStep>, j: nat, k: nat) returns (i: nat)
    requires BoundaryRun(cs, steps) && j < |cs| && k < |cs[j].calls| && cs[j].calls[k].phase.RETURNED?
    ensures i < j && OperatedAt(cs, steps, i, k, cs[j].calls[k].phase.success)
    decreases j
  {
    assert cs[j] == ApplyBoundary(cs[j-1], steps[j-1]).0;
    if k < |cs[j-1].calls| && cs[j-1].calls[k].phase == cs[j].calls[k].phase {
      i := ReturnOrigin(cs, steps, j - 1, k);
    } else {
      i := j - 1;
    }
  }

  lemma ReceiptStep(c: Controller, s: BoundaryStep, r: nat)
    requires r < |ApplyBoundary(c, s).0.receipts|
    ensures var receipt := ApplyBoundary(c, s).0.receipts[r];
      if r < |c.receipts| then receipt == c.receipts[r].(spent := receipt.spent)
      else receipt.call < |c.calls| && c.calls[receipt.call].phase == RETURNED(receipt.success)
  {
  }

  // A receipt was issued while its call had returned with that result.
  lemma {:induction false} ReceiptOrigin(cs: seq<Controller>, steps: seq<BoundaryStep>, j: nat, r: nat) returns (i: nat)
    requires BoundaryRun(cs, steps) && j < |cs| && r < |cs[j].receipts|
    ensures i < j && cs[j].receipts[r].call < |cs[i].calls|
    ensures cs[i].calls[cs[j].receipts[r].call].phase == RETURNED(cs[j].receipts[r].success)
    decreases j
  {
    ReceiptStep(cs[j-1], steps[j-1], r);
    if r < |cs[j-1].receipts| {
      i := ReceiptOrigin(cs, steps, j - 1, r);
    } else {
      i := j - 1;
    }
  }

  ghost predicate RecordedAt(cs: seq<Controller>, steps: seq<BoundaryStep>, j: int, r: nat) {
    && 0 <= j < |steps| && j < |cs|
    && steps[j].Record? && steps[j].receipt == r && r < |cs[j].receipts| && ApplyBoundary(cs[j], steps[j]).1 == None
  }

  lemma {:induction false} RunVersions(cs: seq<Controller>, steps: seq<BoundaryStep>, i: nat, j: nat)
    requires BoundaryRun(cs, steps) && i <= j < |cs|
    ensures Current(cs[i].world.policy) <= Current(cs[j].world.policy)
    decreases j
  {
    if i < j {
      RunVersions(cs, steps, i, j - 1);
      BoundaryValid(cs, steps, j - 1);
      assert cs[j] == ApplyBoundary(cs[j-1], steps[j-1]).0;
      ControllerValidKept(cs[j-1], steps[j-1]);
    }
  }

  predicate RuleChange(c: Controller, s: BoundaryStep) {
    s.Elsewhere? && s.step.PolicyMove? && ChangesRules(s.step.policy) && ApplyPolicy(c.world.policy, s.step.policy).1
  }

  // What an ACTION_EXECUTED record rests on: the authorization was granted, then the call
  // began for that action, then the operation returned successfully, then the record was written while the
  // policy still gave the granted version and risk, did not deny or quarantine, and any
  // approval it asks for was valid. No owner rule was created or disabled from the grant on.
  ghost predicate Justifies(cs: seq<Controller>, steps: seq<BoundaryStep>, a: nat, b: nat, o: nat, j: nat, r: nat)
    requires RecordedAt(cs, steps, j, r)
  {
    var receipt := cs[j].receipts[r];
    var d := Now(cs[j], receipt.action, steps[j].clock);
    && a < b < o < j
    && receipt.auth in cs[j].evidence && cs[j].evidence[receipt.auth].grant == receipt.grant
    && GrantedAt(cs, steps, a, receipt.auth, cs[j].evidence[receipt.auth])
    && BegunAt(cs, steps, b, receipt.call, receipt.auth)
    && steps[b].action == receipt.action && ActsAs(steps[a].action, receipt.action)
    && OperatedAt(cs, steps, o, receipt.call, true)
    && d.version == receipt.grant.version && d.risk == receipt.grant.risk && d.verdict in {ALLOW, REQUIRE_APPROVAL}
    && (d.verdict == REQUIRE_APPROVAL ==>
        ApprovalHolds(cs[j], receipt.grant.approval, receipt.action, d, steps[j].clock) == Ok(true))
    && (forall i :: a <= i < j ==> !RuleChange(cs[i], steps[i]))
  }

  lemma RecordedMeans(c: Controller, s: BoundaryStep)
    requires s.Record? && s.receipt < |c.receipts| && ApplyBoundary(c, s).1 == None
    ensures var receipt := c.receipts[s.receipt];
      && receipt.auth in c.evidence && c.evidence[receipt.auth].grant == receipt.grant
      && ActsAs(c.evidence[receipt.auth].action, receipt.action)
      && (receipt.success ==>
            var d := Now(c, receipt.action, s.clock);
            && d.version == receipt.grant.version && d.risk == receipt.grant.risk
            && d.verdict in {ALLOW, REQUIRE_APPROVAL}
            && (d.verdict == REQUIRE_APPROVAL ==>
                ApprovalHolds(c, receipt.grant.approval, receipt.action, d, s.clock) == Ok(true)))
      && ApplyBoundary(c, s).0.audit ==
           c.audit + [AuditEvent(receipt.auth, receipt.call, receipt.success, receipt.grant.version)]
  {
    var d := c.(receipts := c.receipts[s.receipt := c.receipts[s.receipt].(spent := true)]);
    assert Now(d, c.receipts[s.receipt].action, s.clock) == Now(c, c.receipts[s.receipt].action, s.clock);
    ActsAsFieldwise(c.evidence[c.receipts[s.receipt].auth].action, c.receipts[s.receipt].action);
  }

  lemma NoRuleChangeBetween(cs: seq<Controller>, steps: seq<BoundaryStep>, a: nat, j: nat)
    requires BoundaryRun(cs, steps) && a <= j < |cs|
    requires Current(cs[a].world.policy) == Current(cs[j].world.policy)
    ensures forall i :: a <= i < j ==> !RuleChange(cs[i], steps[i])
  {
    forall i | a <= i < j ensures !RuleChange(cs[i], steps[i]) {
      RunVersions(cs, steps, a, i);
      RunVersions(cs, steps, i + 1, j);
      BoundaryValid(cs, steps, i);
      assert cs[i+1] == ApplyBoundary(cs[i], steps[i]).0;
      if RuleChange(cs[i], steps[i]) {
        VersionMoves(cs[i].world.policy, steps[i].step.policy);
      }
    }
  }

  lemma GrantCarriesCurrentVersion(cs: seq<Controller>, steps: seq<BoundaryStep>, i: nat, auth: nat, e: Evidence)
    requires BoundaryRun(cs, steps) && GrantedAt(cs, steps, i, auth, e)
    ensures e.grant.version == Current(cs[i].world.policy)
  {
    BoundaryValid(cs, steps, i);
    DecisionIsCurrent(cs[i].world.policy, steps[i].action, steps[i].clock.rules);
  }

  lemma ExecutedRecordIsJustified(cs: seq<Controller>, steps: seq<BoundaryStep>, j: nat, r: nat)
    returns (a: nat, b: nat, o: nat)
    requires BoundaryRun(cs, steps) && RecordedAt(cs, steps, j, r) && cs[j].receipts[r].success
    ensures Justifies(cs, steps, a, b, o, j, r)
  {
    var receipt := cs[j].receipts[r];
    RecordedMeans(cs[j], steps[j]);
    a, b := RecordedReceiptActsAsGranted(cs, steps, j, r);
    var i := ReceiptOrigin(cs, steps, j, r);
    o := ReturnOrigin(cs, steps, i, receipt.call);
    BeginBeforeOperation(cs, steps, b, o, receipt.call);
    BoundaryValid(cs, steps, j);
    GrantCarriesCurrentVersion(cs, steps, a, receipt.auth, cs[j].evidence[receipt.auth]);
    DecisionIsCurrent(cs[j].world.policy, receipt.action, steps[j].clock.rules);
    NoRuleChangeBetween(cs, steps, a, j);
  }

  // A call begins only for the action its authorization was granted for, with that grant
  // presented unchanged.
  lemma BegunCallActsAsGranted(cs: seq<Controller>, steps: seq<BoundaryStep>, b: nat, call: nat, auth: nat)
    returns (a: nat)
    requires BoundaryRun(cs, steps) && BegunAt(cs, steps, b, call, auth)
    ensures a < b && auth in cs[b].evidence && GrantedAt(cs, steps, a, auth, cs[b].evidence[auth])
    ensures GrantFor(cs[a], steps[a].action, steps[a].approval, steps[a].clock) == Some(steps[b].presented)
    ensures steps[a].action.task == steps[b].action.task && steps[a].action.action == steps[b].action.action
    ensures steps[a].action.tool == steps[b].action.tool && steps[a].action.requested == steps[b].action.requested
    ensures steps[a].action.declared == steps[b].action.declared && steps[a].action.goal == steps[b].action.goal
    ensures steps[a].action.fingerprint == steps[b].action.fingerprint && steps[a].action.kind == steps[b].action.kind
    ensures steps[a].action.skillStatus == steps[b].action.skillStatus
  {
    assert auth in cs[b].evidence && cs[b].evidence[auth].grant == steps[b].presented;
    a := EvidenceOrigin(cs, steps, b, auth);
    if !ActsAs(steps[a].action, steps[b].action) {
      OtherActionsAreRefused(cs[b], auth, steps[b].presented, steps[b].action, steps[b].clock);
    }
    ActsAsFieldwise(steps[a].action, steps[b].action);
  }

  // Every receipt that is recorded, of a success or a failure, carries the action its call
  // began with, which is the one its authorization was granted for.
  lemma RecordedReceiptActsAsGranted(cs: seq<Controller>, steps: seq<BoundaryStep>, j: nat, r: nat)
    returns (a: nat, b: nat)
    requires BoundaryRun(cs, steps) && RecordedAt(cs, steps, j, r)
    ensures var receipt := cs[j].receipts[r];
      && a < b < j && receipt.auth in cs[j].evidence
      && GrantedAt(cs, steps, a, receipt.auth, cs[j].evidence[receipt.auth])
      && BegunAt(cs, steps, b, receipt.call, receipt.auth)
      && steps[b].action == receipt.action && ActsAs(steps[a].action, receipt.action)
  {
    var receipt := cs[j].receipts[r];
    RecordedMeans(cs[j], steps[j]);
    BoundaryValid(cs, steps, j);
    a := EvidenceOrigin(cs, steps, j, receipt.auth);
    b := CallOrigin(cs, steps, j, receipt.call);
    GrantBeforeBegin(cs, steps, a, b, receipt.auth, cs[j].evidence[receipt.auth]);
  }

  lemma GrantBeforeBegin(cs: seq<Controller>, steps: seq<BoundaryStep>, a: nat, b: nat, auth: nat, e: Evidence)
    requires BoundaryRun(cs, steps) && GrantedAt(cs, steps, a, auth, e)
    requires 0 <= b < |steps| && steps[b].Begin? && steps[b].auth == auth && ApplyBoundary(cs[b], steps[b]).1 == None
    ensures a < b
  {
    BoundaryValid(cs, steps, b);
    if b < a {
      AuthorizationsGrow(cs, steps, b, a);
    }
  }

  // A call is opened once, before anything happens to it.
  lemma BeginBeforeOperation(cs: seq<Controller>, steps: seq<BoundaryStep>, b: nat, o: nat, k: nat)
    requires BoundaryRun(cs, steps) && b < |steps| && o < |cs| && k == |cs[b].calls| && k < |cs[o].calls|
    ensures b < o
  {
    if o <= b {
      CallsPersist(cs, steps, o, b, k);
    }
  }

  lemma {:induction false} AuthorizationsGrow(cs: seq<Controller>, steps: seq<BoundaryStep>, i: nat, j: nat)
    requires BoundaryRun(cs, steps) && i <= j < |cs|
    ensures cs[i].authorizations <= cs[j].authorizations
    decreases j
  {
    if i < j {
      AuthorizationsGrow(cs, steps, i, j - 1);
      assert cs[j] == ApplyBoundary(cs[j-1], steps[j-1]).0;
    }
  }
}
