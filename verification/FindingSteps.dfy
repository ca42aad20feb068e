// The findings' state machine: which steps it takes, and what the gate asks before each.
module FindingSteps {
  import opened Wrappers
  import opened Text
  import opened Json
  import opened Evidence
  import opened Findings
  import opened FindingStates
  import opened FindingRuns

  // A finding moves forward one step at a time, and is rejected from any state before a report.
  predicate Edge(s: State, t: State) {
    || (s == OBSERVED && t == HYPOTHESIS)
    || (s == HYPOTHESIS && t == VALIDATION_PENDING)
    || (s == VALIDATION_PENDING && t == CONFIRMED)
    || (s == CONFIRMED && t == REPORT_READY)
    || (s == REPORT_READY && t == HUMAN_REVIEWED)
    || (t == REJECTED && (s == OBSERVED || s == HYPOTHESIS || s == VALIDATION_PENDING || s == CONFIRMED))
  }

  // A scope, evidence, steps, both behaviours, and a confidence between 0 and 1.
  predicate Described(f: Facts, items: seq<Item>) {
    && |f.scope| > 0 && |items| > 0 && |f.steps| > 0 && |f.expected| > 0 && |f.observed| > 0
    && f.confidence >= 0.0 && f.confidence <= 1.0
  }

  predicate GateOpen(h: Host, c: Content) {
    && Described(c.facts, c.evidence) && c.facts.category == IDOR && AllDemonstrate(h, c.facts, c.evidence)
    && EvidenceDigest(h, c.evidence).Ok?
  }

  predicate BehindGate(s: State) { s == CONFIRMED || s == REPORT_READY || s == HUMAN_REVIEWED }

  // A transition succeeds exactly along an edge, and into a confirmed state only if the finding
  // is described and every item demonstrates it; it then records the validation and the digest.
  // A refused one leaves the state, the facts and the evidence.
  lemma TransitionExactly(h: Host, c: Content, target: State)
    ensures var (d, error) := (Transitioned(GateOf(h), c, target).now, Transitioned(GateOf(h), c, target).error);
      && (error == None <==>
            target == c.state || (Edge(c.state, target) && (BehindGate(target) ==> GateOpen(h, c))))
      && d.state == (if error == None then target else c.state) && d.facts == c.facts && d.evidence == c.evidence
      && (error == None && (target == c.state || !BehindGate(target)) ==> d == c.(state := target))
      && (error == None && target != c.state && BehindGate(target) ==>
            d.status == Validated && d.faults == [] && EvidenceDigest(h, c.evidence) == Ok(d.digest))
  {
    EdgesAre(c.state, target);
    if target != c.state && Edge(c.state, target) && BehindGate(target) {
      ValidMeans(h, c.facts, c.evidence, target);
      RequiredCases(GateOf(h), c, target);
    }
    TransitionedCases(GateOf(h), c, target);
  }

  lemma EdgesAre(s: State, t: State)
    ensures t in Successors(s) <==> Edge(s, t)
    ensures Confirmed(t) <==> BehindGate(t)
  {}

  lemma RequiredCases(g: Gate, c: Content, target: State)
    ensures var r := Required(g, c, target);
      && (r.error == None <==> Described(c.facts, c.evidence) && g.faults(c.facts, c.evidence, target) == []
                               && g.digest(c.evidence).Ok?)
      && r.now == c.(status := r.now.status, faults := r.now.faults, digest := r.now.digest)
      && (r.error == None ==>
          r.now.status == Validated && r.now.faults == [] && g.digest(c.evidence) == Ok(r.now.digest))
  {}

  lemma TransitionedCases(g: Gate, c: Content, target: State)
    ensures var t := Transitioned(g, c, target);
      && (target == c.state ==> t == Step(c, None))
      && (target != c.state && target !in Successors(c.state) ==> t == Step(c, Some(TransitionInvalid)))
      && (target != c.state && target in Successors(c.state) && !Confirmed(target) ==>
            t == Step(c.(state := target), None))
      && (target != c.state && target in Successors(c.state) && Confirmed(target) ==>
            var r := Required(g, c, target);
            t.error == r.error && t.now == if r.error == None then r.now.(state := target) else r.now)
  {
    RequiredCases(g, c, target);
  }

  // An unassured finding that is to be reported falls back to a hypothesis without digest.
  lemma ReportDemotes(g: Gate, c: Content)
    requires Asserted(g, c).error.Some? && g.digest(c.evidence).Ok?
    ensures var d := Asserted(g, c).now;
      d == c.(state := HYPOTHESIS, status := Rejected, faults := d.faults, digest := NoDigest) && d.faults != []
  {}

  // ---- Runs --------------------------------------------------------------------------------------

  // A state is left only by a load, along an edge, or by a demotion from behind the gate.
  lemma StateChangesAre(g: Gate, h: Host, states: seq<Content>, moves: seq<Move>, i: nat)
    requires IsRun(g, h, states, moves) && i < |moves| && states[i+1].state != states[i].state
    ensures || moves[i].Load?
            || (moves[i] == Transit(states[i+1].state) && Edge(states[i].state, states[i+1].state))
            || (moves[i] == Report && BehindGate(states[i].state) && states[i+1].state == HYPOTHESIS)
  {
    assert states[i+1] == Moved(g, h, states[i], moves[i]);
    if moves[i].Transit? {
      EdgesAre(states[i].state, moves[i].target);
      TransitionedCases(g, states[i], moves[i].target);
      RequiredCases(g, states[i], moves[i].target);
    }
  }

  ghost predicate NoLoads(moves: seq<Move>) { forall i :: 0 <= i < |moves| ==> !moves[i].Load? }

  // The state every confirmed state is entered from.
  function Before(s: State): State {
    match s
    case CONFIRMED => VALIDATION_PENDING
    case REPORT_READY => CONFIRMED
    case _ => REPORT_READY
  }

  lemma {:induction false} EnteredFrom(g: Gate, h: Host, states: seq<Content>, moves: seq<Move>, j: nat)
    returns (i: nat)
    requires IsRun(g, h, states, moves) && NoLoads(moves) && j < |states| && BehindGate(states[j].state)
    ensures i < j && states[i].state == Before(states[j].state) && moves[i] == Transit(states[j].state)
    ensures forall k :: i < k <= j ==> states[k].state == states[j].state
  {
    i := j - 1;
    if states[i].state == states[j].state {
      i := EnteredFrom(g, h, states, moves, i);
    } else {
      StateChangesAre(g, h, states, moves, i);
    }
  }

  // No step is skipped: a finding a human reviewed was ready for a report before that, confirmed
  // before that, and awaiting validation before that.
  lemma ReviewedFindingsTookEveryStep(g: Gate, h: Host, states: seq<Content>, moves: seq<Move>, j: nat)
    returns (a: nat, b: nat, c: nat)
    requires IsRun(g, h, states, moves) && NoLoads(moves) && j < |states| && states[j].state == HUMAN_REVIEWED
    ensures a < b < c < j
    ensures states[a].state == VALIDATION_PENDING && states[b].state == CONFIRMED && states[c].state == REPORT_READY
  {
    c := EnteredFrom(g, h, states, moves, j);
    b := EnteredFrom(g, h, states, moves, c);
    a := EnteredFrom(g, h, states, moves, b);
  }

  // A rejection is final, whatever is edited or reported afterwards.
  lemma {:induction false} RejectionIsFinal(g: Gate, h: Host, states: seq<Content>, moves: seq<Move>, i: nat, j: nat)
    requires IsRun(g, h, states, moves) && NoLoads(moves) && i <= j < |states| && states[i].state == REJECTED
    ensures states[j].state == REJECTED
    decreases j
  {
    if i < j {
      RejectionIsFinal(g, h, states, moves, i, j - 1);
      if states[j].state != states[j-1].state {
        StateChangesAre(g, h, states, moves, j - 1);
      }
    }
  }
}
