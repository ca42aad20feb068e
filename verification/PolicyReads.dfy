// PolicyEngine.evaluate reads the rules and the version in separate queries, and no lock is held
// over them: an owner's change can land in between.
module PolicyReads {
  import opened Wrappers
  import opened Text
  import opened Policy
  import opened PolicyStore

  // The decision when the goal check reads `goals`, the owner decision reads `rules`, and the
  // version is read last.
  function TornDecision(goals: PolicyState, rules: PolicyState, last: PolicyState, a: Action, now: int): Decision {
    var owner := OwnerDecision(ActiveRules(rules.rules, now), a, RiskFor(a), Current(last));
    Settle(a, rules.policy, Current(last), HasGoalRule(ActiveRules(goals.rules, now)), owner)
  }

  // Owner changes only: the engine keeps its own policy while it evaluates.
  ghost predicate OwnerRun(states: seq<PolicyState>, steps: seq<PolicyStep>) {
    && |states| == |steps| + 1
    && forall i {:trigger steps[i]} :: 0 <= i < |steps| ==>
         ChangesRules(steps[i]) && states[i+1] == ApplyPolicy(states[i], steps[i]).0
  }

  lemma {:induction false} EqualVersionsEqualStates(states: seq<PolicyState>, steps: seq<PolicyStep>, i: nat, j: nat)
    requires OwnerRun(states, steps) && i <= j < |states| && PolicyValid(states[i])
    ensures PolicyValid(states[j]) && Current(states[j]) >= Current(states[i]) && states[j].policy == states[i].policy
    ensures Current(states[j]) == Current(states[i]) ==> states[j] == states[i]
    decreases j
  {
    if i < j {
      EqualVersionsEqualStates(states, steps, i, j - 1);
      assert ChangesRules(steps[j-1]) && states[j] == ApplyPolicy(states[j-1], steps[j-1]).0;
      PolicyValidKept(states[j-1], steps[j-1]);
      VersionMoves(states[j-1], steps[j-1]);
    }
  }

  // A decision that carries the version current at its first read was not torn: it is the
  // decision of one state, the one that is still current at its last read.
  lemma UnmovedVersionMeansOneState(states: seq<PolicyState>, steps: seq<PolicyStep>, i: nat, j: nat, k: nat, a: Action,
                                    now: int)
    requires OwnerRun(states, steps) && i <= j <= k < |states| && PolicyValid(states[i])
    requires Current(states[k]) == Current(states[i])
    ensures states[i] == states[k]
    ensures TornDecision(states[i], states[j], states[k], a, now) == Decide(states[k], a, now)
  {
    EqualVersionsEqualStates(states, steps, i, j);
    EqualVersionsEqualStates(states, steps, j, k);
  }

  function DenyEverything(): Rule {
    Rule([2], DENY, GLOBAL, Conditions(None, None, None, None, None), 0, true, None)
  }

  function Denied(): PolicyState { ApplyPolicy(Opened(FirstPolicy(), [], 0, []), CreateRule(DenyEverything())).0 }

  lemma DeniedRules()
    ensures Denied().rules == [DenyEverything().(version := 2)]
  {}

  // A list of one rule.
  lemma OnlyRule(r: Rule, a: Action, risk: Risk)
    requires r.active && r.expiresAt.None? && Matches(r, a, risk)
    ensures ActiveRules([r], 0) == [r] && Matching([r], a, risk) == [r]
  {
    assert [r][..0] == [] && [r][1..] == [];
    assert ActiveRules([r][..0], 0) == [] && Matching([r][1..], a, risk) == [];
  }

  lemma DenyMatches()
    ensures var rules := [DenyEverything().(version := 2)];
      Denied().rules == rules && ActiveRules(rules, 0) == rules
      && Matching(rules, ReadAction(), RiskFor(ReadAction())) == rules
  {
    DeniedRules();
    OnlyRule(DenyEverything().(version := 2), ReadAction(), RiskFor(ReadAction()));
  }

  // One that does not may be torn: a rule that denies everything, created after the rules were
  // read and before the version is, leaves an ALLOW that carries the new rule's version.
  lemma TornReadCanAllow()
    ensures var start := Opened(FirstPolicy(), [], 0, []);
      var d := TornDecision(start, start, Denied(), ReadAction(), 0);
      && d.verdict == ALLOW && d.version == Current(Denied())
      && Decide(Denied(), ReadAction(), 0).verdict == DENY
  {
    DenyMatches();
    assert [DenyEverything().(version := 2)][1..] == [];
    DenyWins(ReadAction(), FirstPolicy(), [DenyEverything().(version := 2)], 2);
  }
}
