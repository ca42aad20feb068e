// SecurityController as an object: evidence, in-flight set, receipts and audit trail change in
// place, one method per locked section, and execute_authorized on top of them.
module SecurityControl {
  import opened Wrappers
  import opened Text
  import opened Policy
  import opened PolicyStore
  import opened Approvals
  import opened Authority
  import opened Boundary
  import opened BoundaryRuns

  datatype Execution = NotAllowed | Refused(error: BoundaryError) | Blocked | Recorded(success: bool)

  // A step other threads may take while a thread is inside its own call k.
  predicate Foreign(s: BoundaryStep, k: nat) {
    match s
    case Abandon(c) => c != k
    case Operate(c, _) => c != k
    case Issue(c, _, _) => c != k
    case _ => true
  }

  predicate CallIs(c: Controller, k: nat, auth: nat, phase: Phase) {
    k < |c.calls| && c.calls[k].auth == auth && c.calls[k].phase == phase
  }

  // The operation of call k ran and its result is with the call or in its receipt.
  predicate Finished(c: Controller, k: nat, auth: nat, success: bool) {
    CallIs(c, k, auth, RETURNED(success)) || CallIs(c, k, auth, RECEIPTED)
  }

  predicate HasEvent(c: Controller, auth: nat, success: bool) {
    exists e :: 0 <= e < |c.audit| && c.audit[e].auth == auth && c.audit[e].success == success
  }

  lemma ForeignKeepsCall(c: Controller, s: BoundaryStep, k: nat, auth: nat, phase: Phase)
    requires CallIs(c, k, auth, phase) && Foreign(s, k)
    ensures CallIs(ApplyBoundary(c, s).0, k, auth, phase)
  {
  }

  lemma EventsPersist(c: Controller, s: BoundaryStep, auth: nat, success: bool)
    requires HasEvent(c, auth, success)
    ensures HasEvent(ApplyBoundary(c, s).0, auth, success)
  {
    var e :| 0 <= e < |c.audit| && c.audit[e].auth == auth && c.audit[e].success == success;
    assert ApplyBoundary(c, s).0.audit[e] == c.audit[e];
  }

  predicate ReceiptIs(c: Controller, r: int, auth: nat, success: bool) {
    0 <= r < |c.receipts| && c.receipts[r].auth == auth && c.receipts[r].success == success
  }

  lemma ReceiptsPersist(c: Controller, s: BoundaryStep, r: int, auth: nat, success: bool)
    requires ReceiptIs(c, r, auth, success)
    ensures ReceiptIs(ApplyBoundary(c, s).0, r, auth, success)
  {
    assert |ApplyBoundary(c, s).0.receipts| >= |c.receipts|;
    ReceiptStep(c, s, r);
  }

  lemma RecordLeavesEvent(c: Controller, r: nat, clock: Clock, auth: nat, success: bool)
    requires ReceiptIs(c, r, auth, success) && ApplyBoundary(c, Record(r, clock)).1 == None && IdsOk(c)
    ensures HasEvent(ApplyBoundary(c, Record(r, clock)).0, auth, success)
    ensures Gone(ApplyBoundary(c, Record(r, clock)).0, auth)
  {
    RecordedMeans(c, Record(r, clock));
    var d := ApplyBoundary(c, Record(r, clock)).0;
    assert d.audit[|c.audit|].auth == auth && d.audit[|c.audit|].success == success;
  }

  // Evidence that was dropped never comes back.
  predicate Gone(c: Controller, auth: nat) {
    auth < c.authorizations && auth !in c.evidence
  }

  lemma GoneStays(c: Controller, s: BoundaryStep, auth: nat)
    requires Gone(c, auth)
    ensures Gone(ApplyBoundary(c, s).0, auth)
  {
  }

  class SecurityController {
    var world: World
    var evidence: map<nat, Evidence>
    var inflight: set<nat>
    var calls: seq<Call>
    var receipts: seq<Receipt>
    var audit: seq<AuditEvent>
    var authorizations: nat

    function View(): Controller
      reads this
    {
      Controller(world, evidence, inflight, calls, receipts, audit, authorizations)
    }

    constructor (w: World)
      requires WorldValid(w)
      ensures Fresh(View()) && ControllerValid(View()) && View().world == w
    {
      world, evidence, inflight, calls, receipts, audit, authorizations := w, map[], {}, [], [], [], 0;
    }

    method AuthorizeBoundary(action: Action, approval: Text, clock: Clock) returns (error: Option<BoundaryError>)
      modifies this
      ensures (View(), error) == ApplyBoundary(old(View()), Authorize(action, approval, clock))
    {
      var id := authorizations;
      var decision := Now(View(), action, clock);
      var used := [];
      authorizations := authorizations + 1;
      if decision.verdict in {DENY, QUARANTINE} {
        return Some(REQUIRED);
      }
      if decision.verdict == REQUIRE_APPROVAL {
        if approval == [] || ApprovalHolds(View(), approval, action, decision, clock) != Ok(true) {
          return Some(REQUIRED);
        }
        used := approval;
      }
      evidence := evidence[id := Evidence(Grant(ALLOW, decision.risk, decision.version, used, action), action)];
      return None;
    }

    method BeginExecution(auth: nat, presented: Grant, action: Action, clock: Clock)
      returns (error: Option<BoundaryError>)
      modifies this
      ensures (View(), error) == ApplyBoundary(old(View()), Begin(auth, presented, action, clock))
    {
      if auth in inflight {
        return Some(IN_FLIGHT);
      }
      error := Pending(View(), auth, presented, action, clock);
      if error.None? {
        inflight := inflight + {auth};
        calls := calls + [Call(auth, action, STARTED)];
      }
    }

    method AbandonExecution(k: nat)
      requires k < |calls| && calls[k].phase == STARTED
      modifies this
      ensures View() == ApplyBoundary(old(View()), Abandon(k)).0
    {
      evidence := evidence - {calls[k].auth};
      inflight := inflight - {calls[k].auth};
      calls := calls[k := calls[k].(phase := ABANDONED)];
    }

    method RunOperation(k: nat, success: bool)
      requires k < |calls| && calls[k].phase == STARTED
      modifies this`calls
      ensures View() == ApplyBoundary(old(View()), Operate(k, success)).0
    {
      calls := calls[k := calls[k].(phase := RETURNED(success))];
    }

    method NewExecutionReceipt(k: nat, presented: Grant, clock: Clock) returns (error: Option<BoundaryError>)
      requires k < |calls| && calls[k].phase.RETURNED?
      modifies this
      ensures (View(), error) == ApplyBoundary(old(View()), Issue(k, presented, clock))
    {
      var call := calls[k];
      error := Pending(View(), call.auth, presented, call.action, clock);
      if error.Some? {
        return;
      }
      if call.auth !in inflight {
        return Some(NOT_IN_FLIGHT);
      }
      receipts := receipts + [Receipt(call.auth, k, call.action, evidence[call.auth].grant, call.phase.success, false)];
      calls := calls[k := call.(phase := RECEIPTED)];
    }

    method RecordExecution(r: nat, clock: Clock) returns (error: Option<BoundaryError>)
      modifies this
      ensures (View(), error) == ApplyBoundary(old(View()), Record(r, clock))
    {
      if r >= |receipts| || receipts[r].spent {
        return Some(UNTRUSTED);
      }
      var receipt := receipts[r];
      receipts := receipts[r := receipt.(spent := true)];
      if receipt.auth !in evidence || evidence[receipt.auth].grant != receipt.grant {
        return Some(UNTRUSTED);
      }
      if !SameBinding(evidence[receipt.auth].action, receipt.action) {
        return Some(MISMATCH);
      }
      var current := Now(View(), receipt.action, clock);
      var held := ApprovalHolds(View(), receipt.grant.approval, receipt.action, current, clock);
      var stale := current.version != receipt.grant.version || current.risk != receipt.grant.risk
                   || current.verdict in {DENY, QUARANTINE};
      if receipt.success && !stale && current.verdict == REQUIRE_APPROVAL && held.Err? {
        return Some(APPROVAL_RAISED);
      }
      evidence := evidence - {receipt.auth};
      inflight := inflight - {receipt.auth};
      if receipt.success && stale {
        return Some(STALE);
      }
      if receipt.success && current.verdict == REQUIRE_APPROVAL && held != Ok(true) {
        return Some(APPROVAL_INVALID);
      }
      audit := audit + [AuditEvent(receipt.auth, receipt.call, receipt.success, receipt.grant.version)];
      return None;
    }

    method Perform(s: BoundaryStep)
      modifies this
      ensures View() == ApplyBoundary(old(View()), s).0
    {
      var error;
      match s
      case Authorize(a, approval, clock) => error := AuthorizeBoundary(a, approval, clock);
      case Begin(auth, presented, a, clock) => error := BeginExecution(auth, presented, a, clock);
      case Abandon(k) => if k < |calls| && calls[k].phase == STARTED { AbandonExecution(k); }
      case Operate(k, success) => if k < |calls| && calls[k].phase == STARTED { RunOperation(k, success); }
      case Issue(k, presented, clock) =>
        if k < |calls| && calls[k].phase.RETURNED? { error := NewExecutionReceipt(k, presented, clock); }
      case Record(r, clock) => error := RecordExecution(r, clock);
      case Elsewhere(w) => if Allowed(world, w) { world := ApplyWorld(world, w); }
    }

    // Other threads run; none of them is inside call k.
    method Yield(steps: seq<BoundaryStep>, k: nat, ghost auth: nat, ghost phase: Phase)
      requires ControllerValid(View())
      requires forall i :: 0 <= i < |steps| ==> Foreign(steps[i], k)
      modifies this
      ensures ControllerValid(View()) && |calls| >= old(|calls|)
      ensures old(CallIs(View(), k, auth, phase)) ==> CallIs(View(), k, auth, phase)
      ensures old(Gone(View(), auth)) ==> Gone(View(), auth)
      ensures forall success :: old(HasEvent(View(), auth, success)) ==> HasEvent(View(), auth, success)
      ensures forall r, success :: old(ReceiptIs(View(), r, auth, success)) ==> ReceiptIs(View(), r, auth, success)
    {
      for i := 0 to |steps|
        invariant ControllerValid(View()) && |calls| >= old(|calls|)
        invariant old(CallIs(View(), k, auth, phase)) ==> CallIs(View(), k, auth, phase)
        invariant old(Gone(View(), auth)) ==> Gone(View(), auth)
        invariant forall success :: old(HasEvent(View(), auth, success)) ==> HasEvent(View(), auth, success)
        invariant forall r, success :: old(ReceiptIs(View(), r, auth, success)) ==> ReceiptIs(View(), r, auth, success)
      {
        ghost var before := View();
        ControllerValidKept(before, steps[i]);
        Perform(steps[i]);
        assert |View().calls| >= |before.calls|;
        if CallIs(before, k, auth, phase) {
          ForeignKeepsCall(before, steps[i], k, auth, phase);
        }
        if Gone(before, auth) {
          GoneStays(before, steps[i], auth);
        }
        forall success | HasEvent(before, auth, success) ensures HasEvent(View(), auth, success) {
          EventsPersist(before, steps[i], auth, success);
        }
        forall r, success | ReceiptIs(before, r, auth, success) ensures ReceiptIs(View(), r, auth, success) {
          ReceiptsPersist(before, steps[i], r, auth, success);
        }
      }
    }

    // The receipt of a returned call.
    method IssueReceipt(k: nat, auth: nat, presented: Grant, success: bool, clock: Clock)
      returns (error: Option<BoundaryError>, receipt: nat)
      requires ControllerValid(View()) && CallIs(View(), k, auth, RETURNED(success))
      modifies this
      ensures ControllerValid(View()) && |calls| == old(|calls|)
      ensures error.Some? ==> CallIs(View(), k, auth, RETURNED(success))
      ensures error.None? ==> ReceiptIs(View(), receipt, auth, success) && CallIs(View(), k, auth, RECEIPTED)
    {
      ControllerValidKept(View(), Issue(k, presented, clock));
      receipt := |receipts|;
      error := NewExecutionReceipt(k, presented, clock);
    }

    // record_execution of that receipt.
    method RecordReceipt(receipt: nat, k: nat, auth: nat, success: bool, clock: Clock)
      returns (error: Option<BoundaryError>)
      requires ControllerValid(View()) && ReceiptIs(View(), receipt, auth, success)
               && CallIs(View(), k, auth, RECEIPTED)
      modifies this
      ensures ControllerValid(View()) && CallIs(View(), k, auth, RECEIPTED) && |calls| == old(|calls|)
      ensures error.None? ==> HasEvent(View(), auth, success) && Gone(View(), auth)
    {
      ghost var before := View();
      ControllerValidKept(before, Record(receipt, clock));
      error := RecordExecution(receipt, clock);
      if error.None? {
        RecordLeavesEvent(before, receipt, clock, auth, success);
      }
    }

    // The tail of execute_authorized: issue the receipt of a returned call and record it.
    method RecordResult(k: nat, auth: nat, presented: Grant, success: bool,
                        others: (nat, nat) -> seq<BoundaryStep>, clock: nat -> Clock) returns (r: Execution)
      requires ControllerValid(View()) && CallIs(View(), k, auth, RETURNED(success))
      requires forall n, i :: 0 <= i < |others(n, k)| ==> Foreign(others(n, k)[i], k)
      modifies this
      ensures ControllerValid(View()) && Finished(View(), k, auth, success) && |calls| >= old(|calls|)
      ensures r.Refused? || r.Recorded?
      ensures r.Recorded? ==> r.success == success && HasEvent(View(), auth, success) && Gone(View(), auth)
    {
      var issued, receipt := IssueReceipt(k, auth, presented, success, clock(1));
      if issued.Some? {
        return Refused(issued.value);
      }
      Yield(others(3, k), k, auth, RECEIPTED);
      var recorded := RecordReceipt(receipt, k, auth, success, clock(2));
      if recorded.Some? {
        return Refused(recorded.value);
      }
      Yield(others(4, k), k, auth, RECEIPTED);
      return Recorded(success);
    }

    // execute_authorized for an already issued boundary authorization. If the operation ran, it
    // ran in call k, opened by this method, and no other call of any thread belongs to this
    // authorization; if it did not, the call was abandoned or nothing changed. Recorded is
    // reported only for its own result and leaves the event in the audit trail, and a blocked
    // or recorded authorization cannot be used again.
    method ExecuteAuthorized(auth: nat, presented: Grant, action: Action, checkFails: bool, success: bool,
                             others: (nat, nat) -> seq<BoundaryStep>, clock: nat -> Clock)
      returns (r: Execution, ghost ran: bool, ghost k: nat)
      requires ControllerValid(View())
      requires forall n, k, i :: 0 <= i < |others(n, k)| ==> Foreign(others(n, k)[i], k)
      modifies this
      ensures ControllerValid(View())
      ensures ran ==> old(|calls|) == k && Finished(View(), k, auth, success)
                      && forall l :: 0 <= l < |calls| && calls[l].auth == auth ==> l == k
      ensures !ran ==> View() == old(View()) || (old(|calls|) == k && CallIs(View(), k, auth, ABANDONED))
      ensures r == Blocked ==> !ran && Gone(View(), auth)
      ensures r == NotAllowed ==> !ran && View() == old(View())
      ensures r.Recorded? ==> ran && r.success == success && HasEvent(View(), auth, success) && Gone(View(), auth)
      ensures auth !in old(evidence) ==> !ran && r in {NotAllowed, Refused(UNTRUSTED), Refused(IN_FLIGHT)}
      ensures auth in old(inflight) ==> !ran && r in {NotAllowed, Refused(IN_FLIGHT)}
      ensures auth in old(evidence) && !ActsAs(old(evidence)[auth].action, action) ==> !ran && View() == old(View())
      ensures auth in old(evidence) && old(evidence)[auth].grant != presented ==> !ran && View() == old(View())
    {
      ran, k := false, |calls|;
      if presented.verdict != ALLOW {
        return NotAllowed, ran, k;
      }
      var begun := StartCall(auth, presented, action, clock(0));
      if begun.Some? {
        return Refused(begun.value), ran, k;
      }
      var own := |calls| - 1;
      Yield(others(0, own), own, auth, STARTED);
      if checkFails {
        BlockCall(own, auth);
        Yield(others(1, own), own, auth, ABANDONED);
        return Blocked, ran, k;
      }
      FinishCall(own, auth, success);
      ran := true;
      Yield(others(2, own), own, auth, RETURNED(success));
      r := RecordResult(own, auth, presented, success, others, clock);
    }

    method StartCall(auth: nat, presented: Grant, action: Action, clock: Clock) returns (error: Option<BoundaryError>)
      requires ControllerValid(View())
      modifies this
      ensures ControllerValid(View())
      ensures error.None? ==> auth in old(evidence) && auth !in old(inflight) && auth in inflight
      ensures error.None? ==> |calls| == old(|calls|) + 1 && CallIs(View(), |calls| - 1, auth, STARTED)
      ensures error.Some? ==> View() == old(View())
      ensures auth in old(inflight) ==> error == Some(IN_FLIGHT)
      ensures auth !in old(evidence) && auth !in old(inflight) ==> error == Some(UNTRUSTED)
      ensures error.None? ==> calls[|calls| - 1].action == action && old(evidence)[auth].grant == presented
      ensures error.None? ==> ActsAs(old(evidence)[auth].action, action)
      ensures auth in old(evidence) && !ActsAs(old(evidence)[auth].action, action) && auth !in old(inflight) ==>
                error == if old(evidence)[auth].grant != presented then Some(MUTATED)
                         else if presented.verdict != ALLOW then Some(REQUIRED) else Some(MISMATCH)
    {
      if auth in evidence && !ActsAs(evidence[auth].action, action) {
        OtherActionsAreRefused(View(), auth, presented, action, clock);
      }
      ControllerValidKept(View(), Begin(auth, presented, action, clock));
      error := BeginExecution(auth, presented, action, clock);
    }

    method BlockCall(k: nat, auth: nat)
      requires ControllerValid(View()) && CallIs(View(), k, auth, STARTED)
      modifies this
      ensures ControllerValid(View()) && Gone(View(), auth) && CallIs(View(), k, auth, ABANDONED)
    {
      ControllerValidKept(View(), Abandon(k));
      AbandonExecution(k);
    }

    method FinishCall(k: nat, auth: nat, success: bool)
      requires ControllerValid(View()) && CallIs(View(), k, auth, STARTED)
      modifies this
      ensures ControllerValid(View()) && CallIs(View(), k, auth, RETURNED(success))
    {
      ControllerValidKept(View(), Operate(k, success));
      RunOperation(k, success);
    }
  }
}
