// Persisted approvals: the compare-and-set of storage.py and the store-backed ApprovalGate.
module Approvals {
  import opened Wrappers
  import opened Text
  import opened Policy

  datatype ApprovalStatus = PENDING | APPROVED | DENIED | CANCELLED | EXPIRED

  // The binding_fields that a transition must leave alone. expiresAt is None when the stored
  // expiry does not parse, which counts as expired.
  datatype Binding = Binding(
    id: Text, task: Text, action: Text, tool: Text, capabilities: set<Capability>, risk: Risk,
    reason: Text, plannedEffect: Text, fingerprint: Text, version: nat,
    requestedAt: int, expiresAt: Option<int>, goal: Text)

  datatype Request = Request(binding: Binding, status: ApprovalStatus, decidedAt: Option<int>, actor: Text,
                             legacy: bool)

  type Table = map<Text, Request>

  datatype ApprovalError = REQUIRES_GATE | INVALID_STATUS | NOT_FOUND | NOT_PENDING | BINDING_MISMATCH

  datatype ApprovalStep =
    | Submit(request: Request)
    | Transition(request: Request)

  // save_approval_request (INSERT OR REPLACE) and _save_approval_transition.
  function ApplyApproval(t: Table, s: ApprovalStep): (Table, Option<ApprovalError>) {
    var r := s.request;
    match s
    case Submit(_) =>
      if r.status != PENDING then (t, Some(REQUIRES_GATE)) else (t[r.binding.id := r], None)
    case Transition(_) =>
      if r.status == PENDING then (t, Some(INVALID_STATUS))
      else if r.binding.id !in t then (t, Some(NOT_FOUND))
      else if t[r.binding.id].status != PENDING then (t, Some(NOT_PENDING))
      else if t[r.binding.id].binding != r.binding then (t, Some(BINDING_MISMATCH))
      else (t[r.binding.id := r], None)
  }

  // The gate creates requests under uuid4 ids, so an id never names an existing row.
  predicate IssuedByGate(t: Table, s: ApprovalStep) {
    s.Submit? ==> s.request.binding.id !in t
  }

  ghost predicate ApprovalRun(tables: seq<Table>, steps: seq<ApprovalStep>) {
    && |tables| == |steps| + 1
    && forall i {:trigger steps[i]} :: 0 <= i < |steps| ==>
         tables[i+1] == ApplyApproval(tables[i], steps[i]).0 && IssuedByGate(tables[i], steps[i])
  }

  lemma {:induction false} BindingsNeverChange(tables: seq<Table>, steps: seq<ApprovalStep>, i: nat, j: nat, id: Text)
    requires ApprovalRun(tables, steps) && i <= j < |tables| && id in tables[i]
    ensures id in tables[j] && tables[j][id].binding == tables[i][id].binding
    decreases j
  {
    if i < j {
      BindingsNeverChange(tables, steps, i, j - 1, id);
      assert tables[j] == ApplyApproval(tables[j-1], steps[j-1]).0;
    }
  }

  // Compare-and-set over any interleaving of gate transactions: a row leaves PENDING at most
  // once, and from then on the whole row, decision, time and actor included, is frozen.
  lemma {:induction false} FirstDecisionStands(tables: seq<Table>, steps: seq<ApprovalStep>, i: nat, j: nat, id: Text)
    requires ApprovalRun(tables, steps) && i <= j < |tables|
    requires id in tables[i] && tables[i][id].status != PENDING
    ensures id in tables[j] && tables[j][id] == tables[i][id]
    decreases j
  {
    if i < j {
      FirstDecisionStands(tables, steps, i, j - 1, id);
      assert tables[j] == ApplyApproval(tables[j-1], steps[j-1]).0;
    }
  }

  // The freshness of ids carries that result: among all calls the store accepts, exactly a
  // submission under an already decided id undoes a decision.
  lemma DecisionUndoneExactlyByReusedId(t: Table, s: ApprovalStep, id: Text)
    requires id in t && t[id].status != PENDING
    ensures ApplyApproval(t, s).0[id] == t[id]
      <==> !(s.Submit? && s.request.status == PENDING && s.request.binding.id == id)
  {
  }

  predicate IsExpired(r: Request, now: int) {
    r.binding.expiresAt.None? || r.binding.expiresAt.value <= now
  }

  // _expire_if_needed: the row it leaves, and the request the caller goes on with. A raised
  // error is the store refusing to expire a row that is no longer PENDING.
  function ExpireIfNeeded(t: Table, r: Request, now: int): (Table, Result<Request, ApprovalError>) {
    if r.status in {PENDING, APPROVED} && IsExpired(r, now) then
      var e := r.(status := EXPIRED, decidedAt := Some(now));
      var (u, error) := ApplyApproval(t, Transition(e));
      if error.Some? then (t, Err(error.value)) else (u, Ok(e))
    else (t, Ok(r))
  }

  // _bound_request for a request that was just refreshed. An absent risk level is never bound.
  predicate BoundTo(r: Request, a: Action, version: nat, risk: Option<Risk>, current: nat) {
    && !r.legacy && risk.Some? && version == current
    && r.binding.task == a.task && r.binding.action == a.action && r.binding.tool == a.tool
    && r.binding.capabilities == a.requested && r.binding.goal == a.goal && r.binding.risk == risk.value
    && r.binding.fingerprint == a.fingerprint && r.binding.version == version
  }

  // valid_for: fetch and expire, check APPROVED, then fetch, expire and check the binding.
  // The two expiry checks read the clock on their own.
  function ValidFor(t: Table, id: Text, a: Action, version: nat, risk: Option<Risk>, current: nat, now: int, later: int)
    : Result<bool, ApprovalError>
  {
    if id !in t then Ok(false)
    else
      var (u, first) := ExpireIfNeeded(t, t[id], now);
      if first.Err? then Err(first.error)
      else if first.value.status != APPROVED then Ok(false)
      else
        var (v, second) := ExpireIfNeeded(u, u[id], later);
        if second.Err? then Err(second.error)
        else Ok(BoundTo(second.value, a, version, risk, current))
  }

  // Every approval is still there, bound as before; the decided ones unchanged.
  ghost predicate Later(was: Table, now: Table) {
    && was.Keys <= now.Keys
    && (forall k :: k in was ==> now[k].binding == was[k].binding)
    && (forall k :: k in was && was[k].status != PENDING ==> now[k] == was[k])
  }

  // The table after some gate transactions.
  function Ran(t: Table, steps: seq<ApprovalStep>): Table {
    if steps == [] then t else ApplyApproval(Ran(t, steps[..|steps| - 1]), steps[|steps| - 1]).0
  }

  // Every submission among them came under an id not yet in use.
  predicate FreshIds(t: Table, steps: seq<ApprovalStep>) {
    steps == [] || (FreshIds(t, steps[..|steps| - 1]) && IssuedByGate(Ran(t, steps[..|steps| - 1]), steps[|steps| - 1]))
  }

  lemma RanOne(t: Table, steps: seq<ApprovalStep>, s: ApprovalStep)
    ensures Ran(t, steps + [s]) == ApplyApproval(Ran(t, steps), s).0
  {
    assert (steps + [s])[..|steps|] == steps;
  }

  lemma {:induction false} RanMore(t: Table, steps: seq<ApprovalStep>, more: seq<ApprovalStep>)
    ensures Ran(t, steps + more) == Ran(Ran(t, steps), more)
  {
    if more == [] {
      assert steps + more == steps;
    } else {
      var n := |more| - 1;
      RanMore(t, steps, more[..n]);
      assert (steps + more)[..|steps| + n] == steps + more[..n];
    }
  }

  // Under fresh ids no transaction changes a binding or a decided row.
  lemma {:induction false} FreshIdsKeepRows(t: Table, steps: seq<ApprovalStep>)
    requires FreshIds(t, steps)
    ensures Later(t, Ran(t, steps))
  {
    if steps != [] {
      FreshIdsKeepRows(t, steps[..|steps| - 1]);
    }
  }

  // Rows are stored under their own id.
  predicate Keyed(t: Table) {
    forall id :: id in t ==> t[id].binding.id == id
  }

  // Every field the action has to share with the approval.
  ghost predicate SharesBinding(b: Binding, a: Action, version: nat, risk: Risk) {
    b == b.(task := a.task, action := a.action, tool := a.tool, capabilities := a.requested, goal := a.goal,
            fingerprint := a.fingerprint, risk := risk, version := version)
  }

  // valid_for answers yes exactly for an APPROVED, unexpired row that is not a legacy one and
  // shares task, action, tool, capabilities, goal, fingerprint, risk and the current version
  // with the question. On an expired APPROVED row it raises instead of answering no, because
  // the store does not write APPROVED to EXPIRED.
  lemma ValidForMeaning(t: Table, id: Text, a: Action, version: nat, risk: Option<Risk>, current: nat, now: int,
                        later: int)
    requires Keyed(t) && now <= later
    ensures var v := ValidFor(t, id, a, version, risk, current, now, later);
      && (v == Ok(true) <==>
            && id in t && t[id].status == APPROVED && !t[id].legacy
            && t[id].binding.expiresAt.Some? && t[id].binding.expiresAt.value > later
            && version == current && risk.Some? && SharesBinding(t[id].binding, a, version, risk.value))
      && (v.Err? <==> id in t && t[id].status == APPROVED
                      && (t[id].binding.expiresAt.None? || t[id].binding.expiresAt.value <= later))
      && (v.Err? ==> v.error == NOT_PENDING)
    ensures ValidFor(t, id, a, version, risk, current, now, later) == Ok(true) ==>
              && risk.Some? && t[id].binding.task == a.task && t[id].binding.action == a.action
              && t[id].binding.tool == a.tool && t[id].binding.capabilities == a.requested
              && t[id].binding.goal == a.goal && t[id].binding.fingerprint == a.fingerprint
              && t[id].binding.risk == risk.value && t[id].binding.version == version == current
  {
    if risk.Some? && id in t {
      var b := t[id].binding;
      assert SharesBinding(b, a, version, risk.value) <==>
             && b.task == a.task && b.action == a.action && b.tool == a.tool && b.capabilities == a.requested
             && b.goal == a.goal && b.fingerprint == a.fingerprint && b.risk == risk.value && b.version == version;
    }
  }

  // ApprovalGate.request: what is submitted for an action that was decided to need approval.
  function Requested(id: Text, a: Action, d: Decision, reason: Text, effect: Text, actor: Text, now: int, ttl: int)
    : Request
  {
    Request(Binding(id, a.task, a.action, a.tool, a.requested, d.risk, reason, effect, a.fingerprint, d.version, now,
                    Some(now + if ttl > 1 then ttl else 1), a.goal), PENDING, None, actor, false)
  }

  // An approval asked for one action, once granted and until it expires, validates exactly the
  // actions with the same task, id, tool, capabilities, goal and fingerprint, at the same risk,
  // while the version it was decided under is current.
  lemma ApprovedActionsExactly(t: Table, id: Text, a: Action, d: Decision, reason: Text, effect: Text, actor: Text,
                               asked: int, ttl: int, decided: Request, b: Action, version: nat, risk: Option<Risk>,
                               current: nat, now: int, later: int)
    requires Keyed(t) && now <= later < asked + (if ttl > 1 then ttl else 1)
    requires id in t && t[id] == decided && decided.status == APPROVED
    requires var r := Requested(id, a, d, reason, effect, actor, asked, ttl);
      decided.binding == r.binding && decided.legacy == r.legacy
    ensures ValidFor(t, id, b, version, risk, current, now, later) == Ok(true) <==>
              && b.task == a.task && b.action == a.action && b.tool == a.tool && b.requested == a.requested
              && b.goal == a.goal && b.fingerprint == a.fingerprint && risk == Some(d.risk)
              && version == d.version && current == d.version
  {
    ValidForMeaning(t, id, b, version, risk, current, now, later);
  }

  // The write approve, deny or cancel attempts on the row it read.
  function Attempt(r: Request, decision: ApprovalStatus, actor: Text, now: int): Option<Request> {
    if r.status in {PENDING, APPROVED} && IsExpired(r, now) then Some(r.(status := EXPIRED, decidedAt := Some(now)))
    else if r.status == PENDING then Some(r.(status := decision, decidedAt := Some(now), actor := actor))
    else None
  }

  // approve, deny and cancel: read the row, expire it if its time is over, and write the
  // decision, while others run their transactions. The steps are all that were run meanwhile,
  // the call's own included.
  function Deciding(t: Table, id: Text, decision: ApprovalStatus, actor: Text, now: int,
                    between: seq<ApprovalStep>, before: seq<ApprovalStep>)
    : (seq<ApprovalStep>, Result<Request, ApprovalError>)
  {
    if id !in t then ([], Err(NOT_FOUND))
    else
      var write := Attempt(t[id], decision, actor, now);
      if write.None? then (between, Err(NOT_PENDING))
      else
        var others := if IsExpired(t[id], now) then between else between + before;
        var refused := ApplyApproval(Ran(t, others), Transition(write.value)).1;
        (others + [Transition(write.value)],
         if refused.Some? then Err(refused.value)
         else if IsExpired(t[id], now) then Err(NOT_PENDING)
         else Ok(write.value))
  }

  // A decision succeeds exactly on a row that was PENDING and unexpired when it was read and
  // is still PENDING, under the same binding, when it is written; that row then holds it.
  // Under fresh ids nothing that runs meanwhile, and no outcome, touches a decided row.
  lemma DecidingMeans(t: Table, id: Text, decision: ApprovalStatus, actor: Text, now: int,
                      between: seq<ApprovalStep>, before: seq<ApprovalStep>)
    requires decision in {APPROVED, DENIED, CANCELLED} && Keyed(t)
    ensures var (ran, r) := Deciding(t, id, decision, actor, now, between, before);
      var atWrite := Ran(t, between + before);
      && (r.Ok? <==> id in t && t[id].status == PENDING
                     && t[id].binding.expiresAt.Some? && t[id].binding.expiresAt.value > now
                     && id in atWrite && atWrite[id].status == PENDING && atWrite[id].binding == t[id].binding)
      && (r.Ok? ==> r.value == t[id].(status := decision, decidedAt := Some(now), actor := actor)
                    && Ran(t, ran) == atWrite[id := r.value])
      && (FreshIds(t, ran) ==> Later(t, Ran(t, ran)))
  {
    var (ran, r) := Deciding(t, id, decision, actor, now, between, before);
    if FreshIds(t, ran) {
      FreshIdsKeepRows(t, ran);
    }
    if id in t && Attempt(t[id], decision, actor, now).Some? {
      RanOne(t, between + before, Transition(Attempt(t[id], decision, actor, now).value));
    }
  }

  // ---- The gate as an object over the table ----------------------------------------------

  class ApprovalStore {
    var rows: Table

    constructor ()
      ensures rows == map[]
    {
      rows := map[];
    }

    method SaveApprovalRequest(r: Request) returns (error: Option<ApprovalError>)
      modifies this
      ensures (rows, error) == ApplyApproval(old(rows), Submit(r))
    {
      if r.status != PENDING {
        return Some(REQUIRES_GATE);
      }
      rows := rows[r.binding.id := r];
      return None;
    }

    method SaveApprovalTransition(r: Request) returns (error: Option<ApprovalError>)
      modifies this
      ensures (rows, error) == ApplyApproval(old(rows), Transition(r))
    {
      if r.status !in {APPROVED, DENIED, CANCELLED, EXPIRED} {
        return Some(INVALID_STATUS);
      }
      if r.binding.id !in rows {
        return Some(NOT_FOUND);
      }
      var current := rows[r.binding.id];
      if current.status != PENDING {
        return Some(NOT_PENDING);
      }
      if current.binding != r.binding {
        return Some(BINDING_MISMATCH);
      }
      rows := rows[r.binding.id := r];
      return None;
    }

    // Other gate transactions may commit after the read and before the decision is written.
    method Decide(id: Text, decision: ApprovalStatus, actor: Text, now: int,
                  between: seq<ApprovalStep>, before: seq<ApprovalStep>)
      returns (r: Result<Request, ApprovalError>, ghost ran: seq<ApprovalStep>)
      requires decision in {APPROVED, DENIED, CANCELLED} && Keyed(rows)
      modifies this
      ensures (ran, r) == Deciding(old(rows), id, decision, actor, now, between, before)
      ensures rows == Ran(old(rows), ran)
    {
      ran := [];
      if id !in rows {
        return Err(NOT_FOUND), ran;
      }
      ghost var was := rows;
      var request := rows[id];
      Others(between);
      ran := between;
      if request.status in {PENDING, APPROVED} && IsExpired(request, now) {
        request := request.(status := EXPIRED, decidedAt := Some(now));
        RanOne(was, ran, Transition(request));
        ran := ran + [Transition(request)];
        var refused := SaveApprovalTransition(request);
        if refused.Some? {
          return Err(refused.value), ran;
        }
      }
      if request.status != PENDING {
        return Err(NOT_PENDING), ran;
      }
      RanMore(was, between, before);
      Others(before);
      request := request.(status := decision, decidedAt := Some(now), actor := actor);
      RanOne(was, between + before, Transition(request));
      ran := between + before + [Transition(request)];
      var refused := SaveApprovalTransition(request);
      return if refused.Some? then Err(refused.value) else Ok(request), ran;
    }

    method Others(steps: seq<ApprovalStep>)
      modifies this
      ensures rows == Ran(old(rows), steps)
    {
      for i := 0 to |steps|
        invariant rows == Ran(old(rows), steps[..i])
      {
        RanOne(old(rows), steps[..i], steps[i]);
        assert steps[..i + 1] == steps[..i] + [steps[i]];
        var refused;
        match steps[i] {
          case Submit(request) => refused := SaveApprovalRequest(request);
          case Transition(request) => refused := SaveApprovalTransition(request);
        }
      }
      assert steps[..|steps|] == steps;
    }
  }
}
