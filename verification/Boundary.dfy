// The execution boundary of SecurityController as a state machine. Every section the source
// runs under its evidence lock is one step, evaluation included; between two of them any other
// call, of any thread, and any change of policy and approvals may happen. PolicyReads says when
// an evaluation that a change lands in is still that of one state.
module Boundary {
  import opened Wrappers
  import opened Text
  import opened Policy
  import opened PolicyStore
  import opened Approvals
  import opened Authority

  // AuthorizationEvidenceSnapshot; the caller holds a mutable decision with the same fields.
  datatype Grant = Grant(verdict: Verdict, risk: Risk, version: nat, approval: Text, binding: Action)

  // What a boundary authorization stored: the frozen grant, which is also its signature, and
  // the action it was issued for.
  datatype Evidence = Evidence(grant: Grant, action: Action)

  datatype Phase = STARTED | RETURNED(success: bool) | ABANDONED | RECEIPTED

  // One execute_authorized call that got past _begin_execution.
  datatype Call = Call(auth: nat, action: Action, phase: Phase)

  datatype Receipt = Receipt(auth: nat, call: nat, action: Action, grant: Grant, success: bool, spent: bool)

  // ACTION_EXECUTED when success, ACTION_FAILED otherwise.
  datatype AuditEvent = AuditEvent(auth: nat, call: nat, success: bool, version: nat)

  // Authorization ids are object identities; an id in `evidence` keeps its object alive, and
  // `authorizations` counts the objects created so far, so no id is ever used twice.
  datatype Controller = Controller(
    world: World, evidence: map<nat, Evidence>, inflight: set<nat>, calls: seq<Call>,
    receipts: seq<Receipt>, audit: seq<AuditEvent>, authorizations: nat)

  datatype Clock = Clock(rules: int, approval: int, later: int)

  datatype BoundaryStep =
    | Authorize(action: Action, approval: Text, clock: Clock)
    | Begin(auth: nat, presented: Grant, action: Action, clock: Clock)
    | Abandon(call: nat)
    | Operate(call: nat, success: bool)
    | Issue(call: nat, presented: Grant, clock: Clock)
    | Record(receipt: nat, clock: Clock)
    | Elsewhere(step: WorldStep)

  datatype BoundaryError =
    | UNTRUSTED | MUTATED | REQUIRED | MISMATCH | STALE | BLOCKED_NOW | APPROVAL_INVALID | APPROVAL_RAISED
    | IN_FLIGHT | NOT_IN_FLIGHT | NO_SUCH_CALL

  // _authorization_binding leaves out the fields that only influence evaluation.
  predicate SameBinding(a: Action, b: Action) {
    && a.task == b.task && a.action == b.action && a.tool == b.tool && a.requested == b.requested
    && a.declared == b.declared && a.fingerprint == b.fingerprint && a.goal == b.goal
    && a.kind == b.kind && a.skillStatus == b.skillStatus
  }

  function Now(c: Controller, a: Action, clock: Clock): Decision {
    Decide(c.world.policy, a, clock.rules)
  }

  function ApprovalHolds(c: Controller, id: Text, a: Action, d: Decision, clock: Clock): Result<bool, ApprovalError> {
    if id == [] then Ok(false)
    else ValidFor(c.world.approvals, id, a, d.version, Some(d.risk), Current(c.world.policy), clock.approval,
                  clock.later)
  }

  // authorize(boundary=True): the decision, and the grant it becomes when it allows.
  function GrantFor(c: Controller, a: Action, approval: Text, clock: Clock): Option<Grant> {
    var d := Now(c, a, clock);
    match d.verdict
    case ALLOW => Some(Grant(ALLOW, d.risk, d.version, [], a))
    case REQUIRE_APPROVAL =>
      if ApprovalHolds(c, approval, a, d, clock) == Ok(true)
      then Some(Grant(ALLOW, d.risk, d.version, approval, a)) else None
    case _ => None
  }

  // The checks _pending_boundary and record_execution make against the present policy.
  function Recheck(c: Controller, g: Grant, a: Action, clock: Clock): Option<BoundaryError> {
    var d := Now(c, a, clock);
    if d.version != g.version then Some(STALE)
    else if d.verdict in {DENY, QUARANTINE} then Some(BLOCKED_NOW)
    else if d.verdict == REQUIRE_APPROVAL && ApprovalHolds(c, g.approval, a, d, clock).Err? then Some(APPROVAL_RAISED)
    else if d.verdict == REQUIRE_APPROVAL && ApprovalHolds(c, g.approval, a, d, clock) != Ok(true)
    then Some(APPROVAL_INVALID)
    else if d.risk != g.risk then Some(MISMATCH)
    else None
  }

  // _pending_boundary.
  function Pending(c: Controller, auth: nat, presented: Grant, a: Action, clock: Clock): Option<BoundaryError> {
    if auth !in c.evidence then Some(UNTRUSTED)
    else
      var e := c.evidence[auth];
      if e.grant != presented then Some(MUTATED)
      else if presented.verdict != ALLOW then Some(REQUIRED)
      else if !SameBinding(e.action, a) then Some(MISMATCH)
      else Recheck(c, e.grant, a, clock)
  }

  function Drop(c: Controller, auth: nat): Controller {
    c.(evidence := c.evidence - {auth}, inflight := c.inflight - {auth})
  }

  function ApplyBoundary(c: Controller, s: BoundaryStep): (Controller, Option<BoundaryError>) {
    match s
    case Authorize(a, approval, clock) =>
      var g := GrantFor(c, a, approval, clock);
      var d := c.(authorizations := c.authorizations + 1);
      if g.None? then (d, Some(REQUIRED))
      else (d.(evidence := d.evidence[c.authorizations := Evidence(g.value, a)]), None)
    case Begin(auth, presented, a, clock) =>
      if auth in c.inflight then (c, Some(IN_FLIGHT))
      else
        var refused := Pending(c, auth, presented, a, clock);
        if refused.Some? then (c, refused)
        else (c.(inflight := c.inflight + {auth}, calls := c.calls + [Call(auth, a, STARTED)]), None)
    case Abandon(k) =>
      if k >= |c.calls| || c.calls[k].phase != STARTED then (c, Some(NO_SUCH_CALL))
      else (Drop(c, c.calls[k].auth).(calls := c.calls[k := c.calls[k].(phase := ABANDONED)]), None)
    case Operate(k, success) =>
      if k >= |c.calls| || c.calls[k].phase != STARTED then (c, Some(NO_SUCH_CALL))
      else (c.(calls := c.calls[k := c.calls[k].(phase := RETURNED(success))]), None)
    case Issue(k, presented, clock) =>
      if k >= |c.calls| || !c.calls[k].phase.RETURNED? then (c, Some(NO_SUCH_CALL))
      else
        var call := c.calls[k];
        var refused := Pending(c, call.auth, presented, call.action, clock);
        if refused.Some? then (c, refused)
        else if call.auth !in c.inflight then (c, Some(NOT_IN_FLIGHT))
        else
          var receipt := Receipt(call.auth, k, call.action, c.evidence[call.auth].grant, call.phase.success, false);
          (c.(receipts := c.receipts + [receipt], calls := c.calls[k := call.(phase := RECEIPTED)]), None)
    case Record(r, clock) =>
      if r >= |c.receipts| || c.receipts[r].spent then (c, Some(UNTRUSTED))
      else
        var receipt := c.receipts[r];
        var d := c.(receipts := c.receipts[r := receipt.(spent := true)]);
        if receipt.auth !in d.evidence || d.evidence[receipt.auth].grant != receipt.grant then (d, Some(UNTRUSTED))
        else if !SameBinding(d.evidence[receipt.auth].action, receipt.action) then (d, Some(MISMATCH))
        else
          var current := Now(d, receipt.action, clock);
          if receipt.success && (current.version != receipt.grant.version || current.risk != receipt.grant.risk
                                 || current.verdict in {DENY, QUARANTINE}) then
            (Drop(d, receipt.auth), Some(STALE))
          else if receipt.success && current.verdict == REQUIRE_APPROVAL
                  && ApprovalHolds(d, receipt.grant.approval, receipt.action, current, clock).Err? then
            (d, Some(APPROVAL_RAISED))
          else if receipt.success && current.verdict == REQUIRE_APPROVAL
                  && ApprovalHolds(d, receipt.grant.approval, receipt.action, current, clock) != Ok(true) then
            (Drop(d, receipt.auth), Some(APPROVAL_INVALID))
          else
            var event := AuditEvent(receipt.auth, receipt.call, receipt.success, receipt.grant.version);
            (Drop(d, receipt.auth).(audit := d.audit + [event]), None)
    case Elsewhere(w) =>
      if Allowed(c.world, w) then (c.(world := ApplyWorld(c.world, w)), None) else (c, Some(UNTRUSTED))
  }
}
