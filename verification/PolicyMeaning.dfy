// What a decision of PolicyEngine.evaluate means, said on the fields of the action, the policy
// and the rules.
module PolicyMeaning {
  import opened Wrappers
  import opened Text
  import opened Policy
  import opened PolicyStore

  // ---- Risk ------------------------------------------------------------------------------------

  // The risk levels the action must at least have.
  predicate Demands(a: Action, r: Risk) {
    match r
    case LOW => true
    case MEDIUM =>
      || WRITE_WORKSPACE in a.requested || DATABASE_WRITE in a.requested
      || LONG_RUNNING_TASK in a.requested || SKILL_ACTIVATION in a.requested
      || a.riskHint == Some(MEDIUM)
    case HIGH =>
      || NETWORK_ACCESS in a.requested || EXTERNAL_API in a.requested || SKILL_UPDATE in a.requested
      || a.riskHint == Some(HIGH)
    case CRITICAL =>
      || SENSITIVE_DATA_ACCESS in a.requested || SYSTEM_COMMAND in a.requested || a.sensitiveData
      || a.riskHint == Some(CRITICAL)
  }

  // The risk of an action is the highest level it demands: no capability and no hint is
  // ignored, and a hint never lowers it.
  lemma RiskIsTheHighestDemand(a: Action)
    ensures Demands(a, CRITICAL) <==> RiskFor(a) == CRITICAL
    ensures Demands(a, HIGH) ==> RiskFor(a) in {HIGH, CRITICAL}
    ensures RiskFor(a) == HIGH <==> Demands(a, HIGH) && !Demands(a, CRITICAL)
    ensures Demands(a, MEDIUM) ==> RiskFor(a) != LOW
    ensures RiskFor(a) == MEDIUM <==> Demands(a, MEDIUM) && !Demands(a, HIGH) && !Demands(a, CRITICAL)
    ensures RiskFor(a) == LOW <==> !Demands(a, MEDIUM) && !Demands(a, HIGH) && !Demands(a, CRITICAL)
  {
    var writes := a.requested * {WRITE_WORKSPACE, DATABASE_WRITE, LONG_RUNNING_TASK, SKILL_ACTIVATION};
    assert WRITE_WORKSPACE in a.requested <==> WRITE_WORKSPACE in writes;
    assert DATABASE_WRITE in a.requested <==> DATABASE_WRITE in writes;
    assert LONG_RUNNING_TASK in a.requested <==> LONG_RUNNING_TASK in writes;
    assert SKILL_ACTIVATION in a.requested <==> SKILL_ACTIVATION in writes;
    if writes != {} {
      var c :| c in writes;
    }
  }

  // The action's highest demand, whatever way it is computed.
  predicate IsRisk(a: Action, r: Risk) {
    && Demands(a, r)
    && (Demands(a, CRITICAL) ==> r == CRITICAL)
    && (Demands(a, HIGH) ==> r in {HIGH, CRITICAL})
    && (Demands(a, MEDIUM) ==> r != LOW)
  }

  lemma RiskIsUnique(a: Action, r: Risk)
    ensures IsRisk(a, r) <==> r == RiskFor(a)
  {
    RiskIsTheHighestDemand(a);
  }

  // More capabilities, a higher hint or sensitive data never lower the risk.
  lemma RiskIsMonotone(a: Action, b: Action)
    requires a.requested <= b.requested && (a.sensitiveData ==> b.sensitiveData)
    requires a.riskHint.None? || (b.riskHint.Some? && Rank(a.riskHint.value) <= Rank(b.riskHint.value))
    ensures Rank(RiskFor(a)) <= Rank(RiskFor(b))
  {
    RiskIsTheHighestDemand(a);
    RiskIsTheHighestDemand(b);
  }

  // ---- Hard stops ------------------------------------------------------------------------------

  predicate Undeclared(a: Action, p: SecurityPolicy) {
    || (exists c :: c in a.requested && c.Unlisted?) || (exists c :: c in a.declared && c.Unlisted?)
    || (exists c :: c in a.requested && c !in a.declared)
    || (exists c :: c in a.requested && c in p.denied)
    || a.kind == MODIFY_POLICY || a.kind == GRANT_PERMISSION || a.kind == BYPASS_APPROVAL
  }

  predicate Quarantined(a: Action, p: SecurityPolicy) { a.skillStatus != [] && a.skillStatus in p.quarantined }

  // The action says it needs network or files it did not request the capability for.
  predicate Unreachable(a: Action) {
    || (a.networkRequired && NETWORK_ACCESS !in a.requested && EXTERNAL_API !in a.requested)
    || (a.filesystemRequired && READ_WORKSPACE !in a.requested && WRITE_WORKSPACE !in a.requested)
  }

  predicate Stopped(a: Action, p: SecurityPolicy) {
    || Undeclared(a, p) || Quarantined(a, p) || Unreachable(a)
    || (a.sensitiveData && SENSITIVE_DATA_ACCESS !in a.requested)
  }

  function StopRisk(a: Action, p: SecurityPolicy): Risk {
    if Unreachable(a) && !Undeclared(a, p) && !Quarantined(a, p) then HIGH else CRITICAL
  }

  lemma StoppedExactly(a: Action, p: SecurityPolicy, current: nat)
    ensures HardStop(a, p, current).Some? <==> Stopped(a, p)
    ensures Stopped(a, p) ==>
              HardStop(a, p, current).value.verdict == if Quarantined(a, p) && !Undeclared(a, p) then QUARANTINE
                  else DENY
    ensures Stopped(a, p) ==> HardStop(a, p, current).value.risk == StopRisk(a, p)
  {
    assert a.requested * p.denied != {} <==> exists c :: c in a.requested && c in p.denied by {
      forall c | c in a.requested && c in p.denied ensures c in a.requested * p.denied {}
      if a.requested * p.denied != {} {
        var c :| c in a.requested * p.denied;
        assert c in a.requested && c in p.denied;
      }
    }
    assert (exists c :: c in a.requested + a.declared && c.Unlisted?) <==>
           (exists c :: c in a.requested && c.Unlisted?) || (exists c :: c in a.declared && c.Unlisted?) by {
      if c :| c in a.requested + a.declared && c.Unlisted? {
        assert c in a.requested || c in a.declared;
      }
    }
  }

  // ---- The verdict -----------------------------------------------------------------------------

  predicate LacksGoal(a: Action, rules: seq<Rule>) {
    && (a.kind == TOOL_EXECUTION || a.kind == SKILL_INVOCATION || a.kind == SKILL_ACTIVATION_KIND)
    && a.goal == [] && exists x :: x in rules && x.scope.GOAL?
  }

  predicate AsksApproval(a: Action, p: SecurityPolicy, risk: Risk) {
    && (risk in p.approvalRequiredRisks || (risk == MEDIUM && p.mediumRequiresApproval)
        || exists c :: c in a.requested && c in p.alwaysApproval)
    && !(a.kind == SKILL_ACTIVATION_KIND && p.allowSkillActivation)
  }

  // Every rule that applies, by what it says; risk is the action's highest demand.
  ghost predicate Rules(rules: seq<Rule>, a: Action, risk: Risk, e: Effect) {
    exists x :: x in rules && x.effect == e && Applies(x, a, risk)
  }

  predicate Applies(r: Rule, a: Action, risk: Risk) {
    && (r.scope.GOAL? ==> a.goal == r.scope.goal && a.goal != [])
    && (r.scope.CAPABILITY? ==> r.scope.capability in a.requested)
    && (r.scope.TOOL? ==> a.tool == r.scope.tool)
    && (r.scope.SKILL? ==> a.tool == r.scope.skill)
    && (r.conditions.goal.Some? ==> a.goal == r.conditions.goal.value)
    && (r.conditions.tools.Some? ==> a.tool in r.conditions.tools.value)
    && (r.conditions.kinds.Some? ==> a.kind in r.conditions.kinds.value)
    && (r.conditions.riskLevels.Some? ==> risk in r.conditions.riskLevels.value)
    && (r.conditions.capabilities.Some? ==>
          forall c :: c in r.conditions.capabilities.value ==> c in a.requested)
  }

  lemma RulesApply(rules: seq<Rule>, a: Action, risk: Risk, e: Effect)
    ensures Rules(rules, a, risk, e) <==> SomeMatch(rules, a, risk, e)
  {
    forall x: Rule ensures Applies(x, a, risk) <==> Matches(x, a, risk) {}
  }

  lemma GoalRulesAre(rules: seq<Rule>)
    ensures HasGoalRule(rules) <==> exists x :: x in rules && x.scope.GOAL?
  {
    if x :| x in rules && x.scope.GOAL? {
      var i :| 0 <= i < |rules| && rules[i] == x;
    }
    if HasGoalRule(rules) {
      var i :| 0 <= i < |rules| && rules[i].scope.GOAL?;
      assert rules[i] in rules;
    }
  }

  lemma ApprovalIsAsked(a: Action, p: SecurityPolicy, risk: Risk)
    ensures NeedsApproval(a, p, risk) <==> AsksApproval(a, p, risk)
  {
    if c :| c in a.requested && c in p.alwaysApproval {
      assert c in a.requested * p.alwaysApproval;
    }
    if a.requested * p.alwaysApproval != {} {
      var c :| c in a.requested * p.alwaysApproval;
      assert c in a.requested && c in p.alwaysApproval;
    }
  }

  // Every verdict of evaluate and its risk, from the action, the policy and the rules alone.
  lemma EvaluateMeans(a: Action, p: SecurityPolicy, rules: seq<Rule>, stored: nat, risk: Risk)
    requires IsRisk(a, risk)
    ensures var d := Evaluate(a, p, rules, stored);
      var settled := !Stopped(a, p) && !LacksGoal(a, rules) && !Rules(rules, a, risk, DENY);
      && (d.verdict == QUARANTINE <==> Quarantined(a, p) && !Undeclared(a, p))
      && (d.verdict == DENY <==> !settled && d.verdict != QUARANTINE)
      && (d.verdict == REQUIRE_APPROVAL <==>
            settled && (Rules(rules, a, risk, REQUIRE_APPROVAL)
                        || (AsksApproval(a, p, risk) && !Rules(rules, a, risk, ALLOW))))
      && (d.verdict == ALLOW <==>
            settled && !Rules(rules, a, risk, REQUIRE_APPROVAL)
            && (AsksApproval(a, p, risk) ==> Rules(rules, a, risk, ALLOW)))
      && d.risk == if Stopped(a, p) then StopRisk(a, p) else risk
  {
    var current := CurrentVersion(p, stored);
    RiskIsUnique(a, risk);
    StoppedExactly(a, p, current);
    GoalRulesAre(rules);
    OwnerDecisionByEffect(rules, a, risk, current);
    RulesApply(rules, a, risk, DENY);
    RulesApply(rules, a, risk, REQUIRE_APPROVAL);
    RulesApply(rules, a, risk, ALLOW);
    ApprovalIsAsked(a, p, risk);
  }

  // ---- Rules of the store ----------------------------------------------------------------------

  predicate InForce(s: PolicyState, x: Rule, now: int) {
    x in s.rules && x.active && (x.expiresAt.None? || x.expiresAt.value > now)
  }

  ghost predicate Ruled(s: PolicyState, a: Action, now: int, risk: Risk, e: Effect) {
    exists x :: InForce(s, x, now) && x.effect == e && Applies(x, a, risk)
  }

  lemma RulesInForce(s: PolicyState, a: Action, now: int, risk: Risk, e: Effect)
    ensures Rules(ActiveRules(s.rules, now), a, risk, e) <==> Ruled(s, a, now, risk, e)
  {
    forall x ensures x in ActiveRules(s.rules, now) <==> InForce(s, x, now) {
      ActiveIsListed(s.rules, now, x);
    }
  }

  // When the stored rules let an action through, and when they ask for approval first.
  lemma DecideMeans(s: PolicyState, a: Action, now: int, risk: Risk)
    requires IsRisk(a, risk)
    ensures var d := Decide(s, a, now);
      var settled := !Stopped(a, s.policy) && !LacksGoal(a, ActiveRules(s.rules, now)) && !Ruled(s, a, now, risk, DENY);
      && (d.verdict == ALLOW <==>
            settled && !Ruled(s, a, now, risk, REQUIRE_APPROVAL)
            && (AsksApproval(a, s.policy, risk) ==> Ruled(s, a, now, risk, ALLOW)))
      && (d.verdict == REQUIRE_APPROVAL <==> settled && d.verdict != ALLOW)
  {
    EvaluateMeans(a, s.policy, ActiveRules(s.rules, now), s.stored, risk);
    RulesInForce(s, a, now, risk, DENY);
    RulesInForce(s, a, now, risk, REQUIRE_APPROVAL);
    RulesInForce(s, a, now, risk, ALLOW);
  }

  // A created rule is in force from then on as it was given, under the next version; a
  // disabled one is not; nothing else comes into or goes out of force.
  lemma RuleChangesTakeEffect(s: PolicyState, step: PolicyStep, x: Rule, now: int)
    requires ApplyPolicy(s, step).1
    ensures var t := ApplyPolicy(s, step).0;
      && (step.CreateRule? ==>
            (InForce(t, x, now) <==>
               InForce(s, x, now)
               || (x == step.rule.(version := s.stored + 1, active := true)
                   && (x.expiresAt.None? || x.expiresAt.value > now))))
      && (step.DisableRule? ==> (InForce(t, x, now) <==> InForce(s, x, now) && x.id != step.id))
      && (!ChangesRules(step) ==> t.policy == step.policy && (InForce(t, x, now) <==> InForce(s, x, now)))
  {
    if step.DisableRule? {
      var d := Disabled(s.rules, step.id, s.stored + 1);
      DisabledIs(s.rules, step.id, s.stored + 1);
      if x in d {
        var i :| 0 <= i < |d| && d[i] == x;
        assert x.active ==> s.rules[i] == x;
      }
      if x in s.rules && x.id != step.id {
        var i :| 0 <= i < |s.rules| && s.rules[i] == x;
        assert d[i] == x;
      }
    }
  }
}
