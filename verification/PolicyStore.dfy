// Owner rules and the policy version counter of storage.py, with the engine's own policy.
module PolicyStore {
  import opened Wrappers
  import opened Text
  import opened Policy

  // One row of owner_permission_rule_history.
  datatype Allocation = Allocation(rule: Text, version: nat, created: bool)

  datatype PolicyState = PolicyState(policy: SecurityPolicy, rules: seq<Rule>, stored: nat, history: seq<Allocation>)

  function Current(s: PolicyState): nat {
    CurrentVersion(s.policy, s.stored)
  }

  predicate HasRule(rules: seq<Rule>, id: Text) {
    exists i :: 0 <= i < |rules| && rules[i].id == id
  }

  // owner_permission_rules(active_only=True), up to order, which Evaluate ignores.
  function ActiveRules(rules: seq<Rule>, now: int): seq<Rule> {
    if rules == [] then []
    else
      var r := rules[|rules|-1];
      ActiveRules(rules[..|rules|-1], now)
      + if r.active && (r.expiresAt.None? || r.expiresAt.value > now) then [r] else []
  }

  // PolicyEngine.evaluate against the store.
  function Decide(s: PolicyState, a: Action, now: int): Decision {
    Evaluate(a, s.policy, ActiveRules(s.rules, now), s.stored)
  }

  datatype PolicyStep =
    | CreateRule(rule: Rule)
    | DisableRule(id: Text)
    | UpdatePolicy(policy: SecurityPolicy)
    | Restart(policy: SecurityPolicy)    // a new engine over the same store

  function Disabled(rules: seq<Rule>, id: Text, version: nat): seq<Rule> {
    if rules == [] then []
    else
      var r := rules[|rules|-1];
      Disabled(rules[..|rules|-1], id, version) + [if r.id == id then r.(active := false, version := version) else r]
  }

  // One transaction; a refused one changes nothing. A rule id is a primary key, so a
  // duplicate rolls the version allocation back as well.
  function ApplyPolicy(s: PolicyState, step: PolicyStep): (PolicyState, bool) {
    match step
    case CreateRule(r) =>
      if HasRule(s.rules, r.id) then (s, false)
      else (s.(rules := s.rules + [r.(version := s.stored + 1, active := true)], stored := s.stored + 1,
               history := s.history + [Allocation(r.id, s.stored + 1, true)]), true)
    case DisableRule(id) =>
      if !HasRule(s.rules, id) then (s, false)
      else (s.(rules := Disabled(s.rules, id, s.stored + 1), stored := s.stored + 1,
               history := s.history + [Allocation(id, s.stored + 1, false)]), true)
    case UpdatePolicy(p) =>
      if p.version <= s.policy.version then (s, false)
      else (Opened(p, s.rules, s.stored, s.history), true)
    case Restart(p) => (Opened(p, s.rules, s.stored, s.history), true)
  }

  // _persist_policy raises the stored counter to the engine's own version, never lowers it.
  function Opened(p: SecurityPolicy, rules: seq<Rule>, stored: nat, history: seq<Allocation>): PolicyState {
    PolicyState(p, rules, if p.version > stored then p.version else stored, history)
  }

  predicate ChangesRules(step: PolicyStep) { step.CreateRule? || step.DisableRule? }

  ghost predicate RulesOk(rules: seq<Rule>, stored: nat) {
    && (forall i :: 0 <= i < |rules| ==> rules[i].version <= stored)
    && (forall i, j :: 0 <= i < j < |rules| ==> rules[i].id != rules[j].id && rules[i].version != rules[j].version)
  }

  ghost predicate HistoryOk(history: seq<Allocation>, stored: nat) {
    && (forall i :: 0 <= i < |history| ==> history[i].version <= stored)
    && (forall i, j :: 0 <= i < j < |history| ==> history[i].version < history[j].version)
  }

  ghost predicate PolicyValid(s: PolicyState) {
    s.policy.version <= s.stored && RulesOk(s.rules, s.stored) && HistoryOk(s.history, s.stored)
  }

  lemma {:induction false} DisabledIs(rules: seq<Rule>, id: Text, version: nat)
    ensures var d := Disabled(rules, id, version);
      |d| == |rules| && forall i :: 0 <= i < |rules| ==>
        d[i] == if rules[i].id == id then rules[i].(active := false, version := version) else rules[i]
  {
    if rules != [] {
      DisabledIs(rules[..|rules|-1], id, version);
    }
  }

  // Versions are never reused: rules keep distinct versions, history versions strictly
  // increase, and the stored counter bounds them all and the engine's own version.
  lemma PolicyValidKept(s: PolicyState, step: PolicyStep)
    requires PolicyValid(s)
    ensures PolicyValid(ApplyPolicy(s, step).0)
  {
    if step.DisableRule? {
      DisabledIs(s.rules, step.id, s.stored + 1);
    }
  }

  // The version approvals are bound to never decreases; every committed rule change raises
  // it. A policy update or a restart raises it exactly when its version passes the stored
  // counter, which owner rules may already have pushed beyond the engine's own version.
  lemma VersionMoves(s: PolicyState, step: PolicyStep)
    requires PolicyValid(s)
    ensures var (t, done) := ApplyPolicy(s, step);
      && Current(t) >= Current(s)
      && (done && ChangesRules(step) ==> Current(t) == Current(s) + 1)
      && (done && !ChangesRules(step) ==> (Current(t) > Current(s) <==> step.policy.version > s.stored))
      && (!done ==> t == s)
  {}

  function FirstPolicy(): SecurityPolicy { SecurityPolicy(1, {HIGH, CRITICAL}, false, {}, {}, {}, true) }

  function StricterPolicy(): SecurityPolicy { FirstPolicy().(version := 2, denied := {READ_WORKSPACE}) }

  // A rule about tool [9] only.
  function OtherToolRule(): Rule {
    Rule([1], ALLOW, TOOL([9]), Conditions(None, None, None, None, None), 0, true, None)
  }

  // A read by tool [1].
  function ReadAction(): Action {
    Action([1], [1], [1], {READ_WORKSPACE}, {READ_WORKSPACE}, None, false, false, false, [1], TOOL_EXECUTION, [], [1])
  }

  // An engine opens an empty store with version 1, and the owner creates that rule.
  function Ruled(): PolicyState {
    ApplyPolicy(Opened(FirstPolicy(), [], 0, []), CreateRule(OtherToolRule())).0
  }

  lemma RuledIs()
    ensures Ruled() == PolicyState(FirstPolicy(), [OtherToolRule().(version := 2)], 2, [Allocation([1], 2, true)])
    ensures ApplyPolicy(Opened(FirstPolicy(), [], 0, []), CreateRule(OtherToolRule())).1
  {}

  lemma NoRuleMatches()
    ensures var rules := [OtherToolRule().(version := 2)];
      ActiveRules(rules, 0) == rules && Matching(rules, ReadAction(), RiskFor(ReadAction())) == []
      && !HasGoalRule(rules)
  {
    var rules := [OtherToolRule().(version := 2)];
    assert rules[..0] == [] && rules[1..] == [];
  }

  // A policy update that changes a decision while the version stays: the rule moved the stored
  // counter to 2 before policy 2 denies the capability.
  lemma UpdateCanKeepTheVersion()
    ensures var (updated, done) := ApplyPolicy(Ruled(), UpdatePolicy(StricterPolicy()));
      && done && Current(updated) == Current(Ruled()) == 2
      && Decide(Ruled(), ReadAction(), 0).verdict == ALLOW && Decide(updated, ReadAction(), 0).verdict == DENY
  {
    RuledIs();
    NoRuleMatches();
    assert READ_WORKSPACE in ReadAction().requested * {READ_WORKSPACE};
  }

  lemma {:induction false} ActiveIsListed(rules: seq<Rule>, now: int, x: Rule)
    ensures x in ActiveRules(rules, now) <==> x in rules && x.active && (x.expiresAt.None? || x.expiresAt.value > now)
  {
    if rules != [] {
      ActiveIsListed(rules[..|rules|-1], now, x);
      assert rules == rules[..|rules|-1] + [rules[|rules|-1]];
    }
  }

  // Decisions of a reachable policy state always carry the current version.
  lemma DecisionIsCurrent(s: PolicyState, a: Action, now: int)
    requires PolicyValid(s)
    ensures Decide(s, a, now).version == Current(s)
  {
    forall x | x in ActiveRules(s.rules, now) ensures x.version <= s.stored {
      ActiveIsListed(s.rules, now, x);
    }
    DecisionCarriesCurrentVersion(a, s.policy, ActiveRules(s.rules, now), s.stored);
  }

  // The tables and the engine as objects that change in place.
  class PolicyAuthority {
    var policy: SecurityPolicy
    var rules: seq<Rule>
    var stored: nat
    var history: seq<Allocation>

    function View(): PolicyState
      reads this
    {
      PolicyState(policy, rules, stored, history)
    }

    // PolicyEngine.__init__ over a store that may already hold rules and a counter: it persists
    // its policy, which takes the larger of the two versions.
    constructor (p: SecurityPolicy, rules: seq<Rule>, stored: nat, history: seq<Allocation>)
      requires RulesOk(rules, stored) && HistoryOk(history, stored)
      ensures PolicyValid(View()) && View() == Opened(p, rules, stored, history)
    {
      policy := p;
      this.rules, this.history := rules, history;
      this.stored := if p.version > stored then p.version else stored;
    }

    method CreateOwnerPermissionRule(rule: Rule) returns (done: bool)
      requires PolicyValid(View())
      modifies this
      ensures (View(), done) == ApplyPolicy(old(View()), CreateRule(rule)) && PolicyValid(View())
    {
      PolicyValidKept(View(), CreateRule(rule));
      for i := 0 to |rules|
        invariant View() == old(View())
        invariant forall j :: 0 <= j < i ==> rules[j].id != rule.id
      {
        if rules[i].id == rule.id {
          return false;
        }
      }
      stored := stored + 1;
      rules := rules + [rule.(version := stored, active := true)];
      history := history + [Allocation(rule.id, stored, true)];
      return true;
    }

    method DisableOwnerPermissionRule(id: Text) returns (done: bool)
      requires PolicyValid(View())
      modifies this
      ensures (View(), done) == ApplyPolicy(old(View()), DisableRule(id)) && PolicyValid(View())
    {
      PolicyValidKept(View(), DisableRule(id));
      var at := 0;
      while at < |rules| && rules[at].id != id
        invariant 0 <= at <= |rules|
        invariant forall j :: 0 <= j < at ==> rules[j].id != id
      {
        at := at + 1;
      }
      if at == |rules| {
        return false;
      }
      stored := stored + 1;
      DisabledIs(rules, id, stored);
      rules := rules[at := rules[at].(active := false, version := stored)];
      assert rules == Disabled(old(rules), id, stored);
      history := history + [Allocation(id, stored, false)];
      return true;
    }

    method UpdatePolicy(p: SecurityPolicy) returns (done: bool)
      requires PolicyValid(View())
      modifies this
      ensures (View(), done) == ApplyPolicy(old(View()), PolicyStep.UpdatePolicy(p)) && PolicyValid(View())
    {
      PolicyValidKept(View(), PolicyStep.UpdatePolicy(p));
      if p.version <= policy.version {
        return false;
      }
      policy := p;
      stored := if p.version > stored then p.version else stored;
      return true;
    }
  }
}
