// PolicyEngine.evaluate as a pure function of the action, the engine's policy, the active
// owner rules as the database returns them, and the stored policy version.
module Policy {
  import opened Wrappers
  import opened Text

  datatype Capability =
    | READ_WORKSPACE | WRITE_WORKSPACE | NETWORK_ACCESS | EXTERNAL_API | DATABASE_READ | DATABASE_WRITE
    | SENSITIVE_DATA_ACCESS | SYSTEM_COMMAND | LONG_RUNNING_TASK | SKILL_ACTIVATION | SKILL_UPDATE
    | Unlisted(name: Text)

  datatype Risk = LOW | MEDIUM | HIGH | CRITICAL

  datatype Kind =
    | TOOL_EXECUTION | SKILL_INVOCATION | SKILL_ACTIVATION_KIND
    | MODIFY_POLICY | GRANT_PERMISSION | BYPASS_APPROVAL
    | OtherKind(name: Text)

  datatype Verdict = ALLOW | DENY | REQUIRE_APPROVAL | QUARANTINE

  // ActionRequest; empty text stands for an absent goal or skill status, and riskHint is None
  // when the hint is not one of the risk levels.
  datatype Action = Action(
    task: Text, action: Text, tool: Text, requested: set<Capability>, declared: set<Capability>,
    riskHint: Option<Risk>, networkRequired: bool, filesystemRequired: bool, sensitiveData: bool,
    fingerprint: Text, kind: Kind, skillStatus: Text, goal: Text)

  datatype SecurityPolicy = SecurityPolicy(
    version: nat, approvalRequiredRisks: set<Risk>, mediumRequiresApproval: bool,
    alwaysApproval: set<Capability>, denied: set<Capability>, quarantined: set<Text>,
    allowSkillActivation: bool)

  datatype Scope =
    | GLOBAL | GOAL(goal: Text) | CAPABILITY(capability: Capability) | TOOL(tool: Text) | SKILL(skill: Text)

  // A condition that is absent is None.
  datatype Conditions = Conditions(
    riskLevels: Option<set<Risk>>, kinds: Option<set<Kind>>, capabilities: Option<set<Capability>>,
    tools: Option<set<Text>>, goal: Option<Text>)

  // effect is ALLOW, DENY or REQUIRE_APPROVAL: OwnerPermissionRule rejects anything else.
  type Effect = v: Verdict | v != QUARANTINE witness ALLOW

  datatype Rule = Rule(
    id: Text, effect: Effect, scope: Scope, conditions: Conditions, version: nat,
    active: bool, expiresAt: Option<int>)

  datatype Decision = Decision(verdict: Verdict, risk: Risk, version: nat, rule: Option<Text>)

  function Rank(r: Risk): nat {
    match r case LOW => 0 case MEDIUM => 1 case HIGH => 2 case CRITICAL => 3
  }

  // _risk_for.
  function RiskFor(a: Action): Risk {
    var derived :=
      if SENSITIVE_DATA_ACCESS in a.requested || SYSTEM_COMMAND in a.requested || a.sensitiveData then CRITICAL
      else if NETWORK_ACCESS in a.requested || EXTERNAL_API in a.requested || SKILL_UPDATE in a.requested then HIGH
      else if a.requested * {WRITE_WORKSPACE, DATABASE_WRITE, LONG_RUNNING_TASK, SKILL_ACTIVATION} != {} then MEDIUM
      else LOW;
    if a.riskHint.Some? && Rank(a.riskHint.value) > Rank(derived) then a.riskHint.value else derived
  }

  predicate InScope(s: Scope, a: Action) {
    match s
    case GLOBAL => true
    case GOAL(g) => a.goal != [] && g == a.goal
    case CAPABILITY(c) => c in a.requested
    case TOOL(t) => t == a.tool
    case SKILL(t) => t == a.tool
  }

  // _owner_rule_matches.
  predicate Matches(r: Rule, a: Action, risk: Risk) {
    && InScope(r.scope, a)
    && (r.conditions.riskLevels.Some? ==> risk in r.conditions.riskLevels.value)
    && (r.conditions.kinds.Some? ==> a.kind in r.conditions.kinds.value)
    && (r.conditions.capabilities.Some? ==> r.conditions.capabilities.value <= a.requested)
    && (r.conditions.tools.Some? ==> a.tool in r.conditions.tools.value)
    && (r.conditions.goal.Some? ==> a.goal == r.conditions.goal.value)
  }

  function Specificity(s: Scope): nat {
    match s
    case GLOBAL => 0
    case GOAL(_) => 1
    case CAPABILITY(_) => 2
    case _ => 3
  }

  function Matching(rules: seq<Rule>, a: Action, risk: Risk): seq<Rule> {
    if rules == [] then []
    else (if Matches(rules[0], a, risk) then [rules[0]] else []) + Matching(rules[1..], a, risk)
  }

  function WithEffect(rules: seq<Rule>, e: Effect): seq<Rule> {
    if rules == [] then []
    else (if rules[0].effect == e then [rules[0]] else []) + WithEffect(rules[1..], e)
  }

  predicate Weaker(r: Rule, s: Rule) {
    Specificity(r.scope) < Specificity(s.scope)
    || (Specificity(r.scope) == Specificity(s.scope) && r.version < s.version)
  }

  // max() keeps the first of several maximal elements.
  function Chosen(rules: seq<Rule>): Rule
    requires rules != []
  {
    if |rules| == 1 then rules[0]
    else
      var best := Chosen(rules[..|rules|-1]);
      if Weaker(best, rules[|rules|-1]) then rules[|rules|-1] else best
  }

  function MaxVersion(current: nat, rules: seq<Rule>): nat {
    if rules == [] then current
    else
      var rest := MaxVersion(current, rules[1..]);
      if rules[0].version > rest then rules[0].version else rest
  }

  // _current_policy_version.
  function CurrentVersion(p: SecurityPolicy, stored: nat): nat {
    if p.version > stored then p.version else stored
  }

  datatype Owner = NoRule | Owner(effect: Effect, rule: Text, version: nat)

  // _owner_decision: DENY before REQUIRE_APPROVAL before ALLOW, whatever the scopes.
  function OwnerDecision(rules: seq<Rule>, a: Action, risk: Risk, current: nat): Owner {
    var matches := Matching(rules, a, risk);
    var version := MaxVersion(current, matches);
    if WithEffect(matches, DENY) != [] then Owner(DENY, Chosen(WithEffect(matches, DENY)).id, version)
    else if WithEffect(matches, REQUIRE_APPROVAL) != [] then
      Owner(REQUIRE_APPROVAL, Chosen(WithEffect(matches, REQUIRE_APPROVAL)).id, version)
    else if WithEffect(matches, ALLOW) != [] then Owner(ALLOW, Chosen(WithEffect(matches, ALLOW)).id, version)
    else NoRule
  }

  predicate HasGoalRule(rules: seq<Rule>) {
    exists i :: 0 <= i < |rules| && rules[i].scope.GOAL?
  }

  // The checks that come before any owner rule; None lets the action through to them.
  function HardStop(a: Action, p: SecurityPolicy, current: nat): Option<Decision> {
    if exists c :: c in a.requested + a.declared && c.Unlisted? then Some(Decision(DENY, CRITICAL, current, None))
    else if !(a.requested <= a.declared) then Some(Decision(DENY, CRITICAL, current, None))
    else if a.requested * p.denied != {} then Some(Decision(DENY, CRITICAL, current, None))
    else if a.kind in {MODIFY_POLICY, GRANT_PERMISSION, BYPASS_APPROVAL}
    then Some(Decision(DENY, CRITICAL, current, None))
    else if a.skillStatus != [] && a.skillStatus in p.quarantined
    then Some(Decision(QUARANTINE, CRITICAL, current, None))
    else if a.networkRequired && NETWORK_ACCESS !in a.requested && EXTERNAL_API !in a.requested then
      Some(Decision(DENY, HIGH, current, None))
    else if a.filesystemRequired && READ_WORKSPACE !in a.requested && WRITE_WORKSPACE !in a.requested then
      Some(Decision(DENY, HIGH, current, None))
    else if a.sensitiveData && SENSITIVE_DATA_ACCESS !in a.requested then Some(Decision(DENY, CRITICAL, current, None))
    else None
  }

  predicate NeedsApproval(a: Action, p: SecurityPolicy, risk: Risk) {
    !(a.kind == SKILL_ACTIVATION_KIND && p.allowSkillActivation) &&
    (risk in p.approvalRequiredRisks || (risk == MEDIUM && p.mediumRequiresApproval)
     || a.requested * p.alwaysApproval != {})
  }

  // The verdict once it is known whether goal-scoped rules exist and what the owner decided.
  function Settle(a: Action, p: SecurityPolicy, current: nat, goalRules: bool, owner: Owner): Decision {
    var stop := HardStop(a, p, current);
    if stop.Some? then stop.value
    else
      var risk := RiskFor(a);
      if a.kind in {TOOL_EXECUTION, SKILL_INVOCATION, SKILL_ACTIVATION_KIND} && a.goal == [] && goalRules then
        Decision(DENY, risk, current, None)
      else
        match owner
        case Owner(DENY, id, v) => Decision(DENY, risk, v, Some(id))
        case Owner(REQUIRE_APPROVAL, id, v) => Decision(REQUIRE_APPROVAL, risk, v, Some(id))
        case Owner(ALLOW, _, _) => Decision(ALLOW, risk, current, None)
        case NoRule => Decision(if NeedsApproval(a, p, risk) then REQUIRE_APPROVAL else ALLOW, risk, current, None)
  }

  function Evaluate(a: Action, p: SecurityPolicy, rules: seq<Rule>, stored: nat): Decision {
    var current := CurrentVersion(p, stored);
    Settle(a, p, current, HasGoalRule(rules), OwnerDecision(rules, a, RiskFor(a), current))
  }

  // ---- Properties -------------------------------------------------------------------------

  predicate SameRules(r: seq<Rule>, s: seq<Rule>) {
    (forall x :: x in r ==> x in s) && (forall x :: x in s ==> x in r)
  }

  lemma {:induction false} MatchingIn(rules: seq<Rule>, a: Action, risk: Risk, x: Rule)
    ensures x in Matching(rules, a, risk) <==> x in rules && Matches(x, a, risk)
  {
    if rules != [] {
      MatchingIn(rules[1..], a, risk, x);
      assert rules == [rules[0]] + rules[1..];
    }
  }

  lemma {:induction false} WithEffectIn(rules: seq<Rule>, e: Effect, x: Rule)
    ensures x in WithEffect(rules, e) <==> x in rules && x.effect == e
  {
    if rules != [] {
      WithEffectIn(rules[1..], e, x);
      assert rules == [rules[0]] + rules[1..];
    }
  }

  ghost predicate SomeMatch(rules: seq<Rule>, a: Action, risk: Risk, e: Effect) {
    exists x :: x in rules && Matches(x, a, risk) && x.effect == e
  }

  lemma EffectPresent(rules: seq<Rule>, a: Action, risk: Risk, e: Effect)
    ensures WithEffect(Matching(rules, a, risk), e) != [] <==> SomeMatch(rules, a, risk, e)
  {
    var m := Matching(rules, a, risk);
    if WithEffect(m, e) != [] {
      var x := WithEffect(m, e)[0];
      WithEffectIn(m, e, x);
      MatchingIn(rules, a, risk, x);
    }
    if SomeMatch(rules, a, risk, e) {
      var x :| x in rules && Matches(x, a, risk) && x.effect == e;
      MatchingIn(rules, a, risk, x);
      WithEffectIn(m, e, x);
    }
  }

  lemma {:induction false} MaxVersionIs(current: nat, rules: seq<Rule>)
    ensures MaxVersion(current, rules) >= current
    ensures forall x :: x in rules ==> x.version <= MaxVersion(current, rules)
    ensures MaxVersion(current, rules) == current || exists x :: x in rules && x.version == MaxVersion(current, rules)
  {
    if rules != [] {
      MaxVersionIs(current, rules[1..]);
      assert rules == [rules[0]] + rules[1..];
      assert rules[0] in rules;
    }
  }

  lemma SameMaxVersion(current: nat, r: seq<Rule>, s: seq<Rule>)
    requires SameRules(r, s)
    ensures MaxVersion(current, r) == MaxVersion(current, s)
  {
    MaxVersionIs(current, r);
    MaxVersionIs(current, s);
  }

  lemma OwnerDecisionByEffect(rules: seq<Rule>, a: Action, risk: Risk, current: nat)
    ensures var o := OwnerDecision(rules, a, risk, current);
      && (SomeMatch(rules, a, risk, DENY) <==> o.Owner? && o.effect == DENY)
      && (o.Owner? && o.effect == REQUIRE_APPROVAL <==>
            !SomeMatch(rules, a, risk, DENY) && SomeMatch(rules, a, risk, REQUIRE_APPROVAL))
      && (o.Owner? && o.effect == ALLOW <==>
            !SomeMatch(rules, a, risk, DENY) && !SomeMatch(rules, a, risk, REQUIRE_APPROVAL)
            && SomeMatch(rules, a, risk, ALLOW))
      && (o.Owner? ==> o.version == MaxVersion(current, Matching(rules, a, risk)))
  {
    EffectPresent(rules, a, risk, DENY);
    EffectPresent(rules, a, risk, REQUIRE_APPROVAL);
    EffectPresent(rules, a, risk, ALLOW);
  }

  lemma SameOwnerDecision(r: seq<Rule>, s: seq<Rule>, a: Action, risk: Risk, current: nat)
    requires SameRules(r, s)
    ensures var x, y := OwnerDecision(r, a, risk, current), OwnerDecision(s, a, risk, current);
      (x == NoRule && y == NoRule) || (x.Owner? && y.Owner? && x.effect == y.effect && x.version == y.version)
  {
    OwnerDecisionByEffect(r, a, risk, current);
    OwnerDecisionByEffect(s, a, risk, current);
    forall x ensures x in Matching(r, a, risk) <==> x in Matching(s, a, risk) {
      MatchingIn(r, a, risk, x);
      MatchingIn(s, a, risk, x);
    }
    SameMaxVersion(current, Matching(r, a, risk), Matching(s, a, risk));
  }

  lemma SameGoalRules(r: seq<Rule>, s: seq<Rule>)
    requires forall x :: x in r ==> x in s
    ensures HasGoalRule(r) ==> HasGoalRule(s)
  {
    if HasGoalRule(r) {
      var i :| 0 <= i < |r| && r[i].scope.GOAL?;
      assert r[i] in s;
    }
  }

  // Verdict, risk and version depend only on which rules there are, not on their order or
  // repetition.
  lemma OrderIsIrrelevant(a: Action, p: SecurityPolicy, r: seq<Rule>, s: seq<Rule>, stored: nat)
    requires SameRules(r, s)
    ensures Evaluate(a, p, r, stored).(rule := None) == Evaluate(a, p, s, stored).(rule := None)
  {
    SameOwnerDecision(r, s, a, RiskFor(a), CurrentVersion(p, stored));
    SameGoalRules(r, s);
    SameGoalRules(s, r);
  }

  lemma {:induction false} ChosenIsMaximal(rules: seq<Rule>)
    requires rules != []
    ensures Chosen(rules) in rules && forall x :: x in rules ==> !Weaker(Chosen(rules), x)
  {
    if |rules| > 1 {
      var init := rules[..|rules|-1];
      ChosenIsMaximal(init);
      assert rules == init + [rules[|rules|-1]];
    }
  }

  // When no two rules share a version, as with versions allocated by the store, even the rule
  // named in the reason does not depend on the order.
  lemma ChosenRuleIsUnique(r: seq<Rule>, s: seq<Rule>)
    requires r != [] && s != [] && SameRules(r, s)
    requires forall x, y :: x in r && y in r && x.version == y.version ==> x == y
    ensures Chosen(r) == Chosen(s)
  {
    ChosenIsMaximal(r);
    ChosenIsMaximal(s);
  }

  // A matching DENY rule excludes both ALLOW and REQUIRE_APPROVAL, whatever else matches.
  lemma DenyWins(a: Action, p: SecurityPolicy, rules: seq<Rule>, stored: nat)
    requires SomeMatch(rules, a, RiskFor(a), DENY)
    ensures Evaluate(a, p, rules, stored).verdict in {DENY, QUARANTINE}
  {
    OwnerDecisionByEffect(rules, a, RiskFor(a), CurrentVersion(p, stored));
  }

  function Strictness(v: Verdict): nat {
    match v case ALLOW => 0 case REQUIRE_APPROVAL => 1 case _ => 2
  }

  lemma SomeMatchWith(rules: seq<Rule>, all: seq<Rule>, extra: Rule, a: Action, risk: Risk, e: Effect)
    requires SameRules(all, rules + [extra])
    ensures SomeMatch(all, a, risk, e) <==>
              SomeMatch(rules, a, risk, e) || (Matches(extra, a, risk) && extra.effect == e)
  {
    assert extra in rules + [extra];
    forall x | x in rules ensures x in all {
      assert x in rules + [extra];
    }
  }

  lemma GoalRulesWith(rules: seq<Rule>, all: seq<Rule>, extra: Rule)
    requires SameRules(all, rules + [extra])
    ensures HasGoalRule(all) <==> HasGoalRule(rules) || extra.scope.GOAL?
  {
    if HasGoalRule(rules) {
      forall x | x in rules ensures x in all {
        assert x in rules + [extra];
      }
      SameGoalRules(rules, all);
    }
    if extra.scope.GOAL? {
      assert extra in rules + [extra];
      var i :| 0 <= i < |all| && all[i] == extra;
    }
    if HasGoalRule(all) {
      var i :| 0 <= i < |all| && all[i].scope.GOAL?;
      assert all[i] in rules + [extra];
      assert all[i] != extra ==> all[i] in rules;
    }
  }

  // The verdict once the hard stops are passed, from the strength of the owner's decision.
  lemma SettledVerdict(a: Action, p: SecurityPolicy, current: nat, goalRules: bool, owner: Owner)
    requires HardStop(a, p, current).None?
    ensures var v := Settle(a, p, current, goalRules, owner).verdict;
      if a.kind in {TOOL_EXECUTION, SKILL_INVOCATION, SKILL_ACTIVATION_KIND} && a.goal == [] && goalRules then v == DENY
      else if Level(owner) == 3 then v == DENY
      else if Level(owner) == 2 then v == REQUIRE_APPROVAL
      else if Level(owner) == 1 then v == ALLOW
      else v == if NeedsApproval(a, p, RiskFor(a)) then REQUIRE_APPROVAL else ALLOW
  {}

  // Adding a DENY or REQUIRE_APPROVAL rule anywhere in the list never relaxes a verdict.
  // Adding an ALLOW rule can only turn REQUIRE_APPROVAL into ALLOW, or make an action without
  // a goal a DENY because goal-scoped rules now exist.
  lemma AddingARule(a: Action, p: SecurityPolicy, rules: seq<Rule>, all: seq<Rule>, extra: Rule, stored: nat)
    requires SameRules(all, rules + [extra])
    ensures var before, after := Evaluate(a, p, rules, stored).verdict, Evaluate(a, p, all, stored).verdict;
      && (extra.effect != ALLOW ==> Strictness(after) >= Strictness(before))
      && (extra.effect == ALLOW ==>
            || after == before
            || (before == REQUIRE_APPROVAL && after == ALLOW && Matches(extra, a, RiskFor(a)))
            || (after == DENY && a.goal == [] && extra.scope.GOAL?))
  {
    var risk, current := RiskFor(a), CurrentVersion(p, stored);
    OwnerDecisionWith(a, rules, all, extra, risk, current);
    GoalRulesWith(rules, all, extra);
    if HardStop(a, p, current).None? {
      SettledVerdict(a, p, current, HasGoalRule(rules), OwnerDecision(rules, a, risk, current));
      SettledVerdict(a, p, current, HasGoalRule(all), OwnerDecision(all, a, risk, current));
    }
  }

  function Level(o: Owner): nat {
    if o == NoRule then 0 else EffectLevel(o.effect)
  }

  function EffectLevel(e: Effect): nat {
    match e case ALLOW => 1 case REQUIRE_APPROVAL => 2 case DENY => 3
  }

  // The owner's effect is the strongest one among the matching rules.
  lemma OwnerDecisionWith(a: Action, rules: seq<Rule>, all: seq<Rule>, extra: Rule, risk: Risk, current: nat)
    requires SameRules(all, rules + [extra])
    ensures var before := Level(OwnerDecision(rules, a, risk, current));
      var after := Level(OwnerDecision(all, a, risk, current));
      var raised := Matches(extra, a, risk) && EffectLevel(extra.effect) > before;
      after == if raised then EffectLevel(extra.effect) else before
  {
    OwnerDecisionByEffect(rules, a, risk, current);
    OwnerDecisionByEffect(all, a, risk, current);
    SomeMatchWith(rules, all, extra, a, risk, DENY);
    SomeMatchWith(rules, all, extra, a, risk, REQUIRE_APPROVAL);
    SomeMatchWith(rules, all, extra, a, risk, ALLOW);
  }

  // With rule versions allocated by the store, the decision carries the current version.
  lemma DecisionCarriesCurrentVersion(a: Action, p: SecurityPolicy, rules: seq<Rule>, stored: nat)
    requires forall x :: x in rules ==> x.version <= stored
    ensures Evaluate(a, p, rules, stored).version == CurrentVersion(p, stored)
  {
    var risk, current := RiskFor(a), CurrentVersion(p, stored);
    OwnerDecisionByEffect(rules, a, risk, current);
    var m := Matching(rules, a, risk);
    forall x | x in m ensures x.version <= current {
      MatchingIn(rules, a, risk, x);
    }
    MaxVersionIs(current, m);
  }
}
