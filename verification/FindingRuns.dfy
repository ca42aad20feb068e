// Findings over whole runs: transitions, edits of facts and evidence by anyone, reporting, and
// loading of arbitrary records.
module FindingRuns {
  import opened Wrappers
  import opened Json
  import opened Evidence
  import opened Findings
  import opened FindingStates

  datatype Move =
    | Transit(target: State)
    | Edit(facts: Facts, evidence: seq<Item>)
    | Report
    | Load(record: Record)

  function Moved(g: Gate, h: Host, c: Content, m: Move): Content {
    match m
    case Transit(target) => Transitioned(g, c, target).now
    case Edit(facts, evidence) => c.(facts := facts, evidence := evidence)
    case Report => Asserted(g, c).now
    case Load(r) => if Loaded(g, h, r).Ok? then Loaded(g, h, r).value else c
  }

  ghost predicate IsRun(g: Gate, h: Host, states: seq<Content>, moves: seq<Move>) {
    && |states| == |moves| + 1
    && !Confirmed(states[0].state)
    && forall i {:trigger moves[i]} :: 0 <= i < |moves| ==> states[i+1] == Moved(g, h, states[i], moves[i])
  }

  // Move i passed the gate: a transition or a load that left the finding confirmed and assured.
  ghost predicate Passed(g: Gate, states: seq<Content>, moves: seq<Move>, i: int)
    requires |states| == |moves| + 1
  {
    && 0 <= i < |moves| && (moves[i].Transit? || moves[i].Load?)
    && Confirmed(states[i+1].state) && Assured(g, states[i+1])
  }

  // One transition either passes the gate or leaves digest and state as far as they matter.
  lemma TransitionCases(g: Gate, c: Content, target: State)
    requires Confirmed(Transitioned(g, c, target).now.state) && Transitioned(g, c, target).now.digest != NoDigest
    ensures var d := Transitioned(g, c, target).now;
      Assured(g, d) || (Confirmed(c.state) && d.digest == c.digest)
  {}

  lemma ReportCases(g: Gate, c: Content)
    requires Confirmed(Asserted(g, c).now.state)
    ensures Asserted(g, c).now == c
  {}

  lemma LoadCases(g: Gate, h: Host, r: Record)
    requires Loaded(g, h, r).Ok? && Confirmed(Loaded(g, h, r).value.state)
    ensures Assured(g, Loaded(g, h, r).value)
  {
    AdmissionAssures(g, Content(r.facts, BuildAll(h, r.evidence).value, r.state, r.status, r.faults, r.digest));
  }

  lemma MoveCases(g: Gate, h: Host, c: Content, m: Move)
    requires Confirmed(Moved(g, h, c, m).state) && Moved(g, h, c, m).digest != NoDigest
    ensures ((m.Transit? || m.Load?) && Assured(g, Moved(g, h, c, m)))
            || (Confirmed(c.state) && Moved(g, h, c, m).digest == c.digest)
  {
    match m
    case Transit(target) => TransitionCases(g, c, target);
    case Edit(_, _) =>
    case Report => ReportCases(g, c);
    case Load(r) => if Loaded(g, h, r).Ok? { LoadCases(g, h, r); }
  }

  // A confirmed state with a digest goes back to a passage of the gate, since which the finding
  // has stayed confirmed under the same digest.
  lemma {:induction false} ConfirmationHasOrigin(g: Gate, h: Host, states: seq<Content>, moves: seq<Move>, j: nat)
    returns (i: nat)
    requires IsRun(g, h, states, moves) && j < |states| && Confirmed(states[j].state) && states[j].digest != NoDigest
    ensures i < j && Passed(g, states, moves, i) && states[i+1].digest == states[j].digest
    ensures forall k :: i < k <= j ==> Confirmed(states[k].state)
  {
    i := j - 1;
    assert states[j] == Moved(g, h, states[i], moves[i]);
    MoveCases(g, h, states[i], moves[i]);
    if !((moves[i].Transit? || moves[i].Load?) && Assured(g, states[j])) {
      i := ConfirmationHasOrigin(g, h, states, moves, i);
    }
  }

  lemma DigestIsReal(h: Host, items: seq<Item>)
    ensures GateOf(h).digest(items) != Ok(NoDigest)
  {}

  // Whatever anyone edited in between: a confirmed finding that reporting accepts carries
  // evidence that validates now and is, as far as the digest sees, the evidence it carried when
  // it last passed the gate, and it has not left the confirmed states since.
  lemma ReportedEvidenceWasValidated(h: Host, states: seq<Content>, moves: seq<Move>, j: nat) returns (i: nat)
    requires Sound(h) && IsRun(GateOf(h), h, states, moves) && j < |states|
    requires Confirmed(states[j].state) && Asserted(GateOf(h), states[j]).error.None?
    ensures i < j && Passed(GateOf(h), states, moves, i) && Assured(GateOf(h), states[j])
    ensures forall k :: i < k <= j ==> Confirmed(states[k].state)
    ensures Same(Sanitized(h, Canonical(h, states[j].evidence)), Sanitized(h, Canonical(h, states[i+1].evidence)))
  {
    ReportingChecksAssurance(GateOf(h), states[j]);
    DigestIsReal(h, states[j].evidence);
    i := ConfirmationHasOrigin(GateOf(h), h, states, moves, j);
    SameDigests(h, states[j], states[i+1]);
  }

  lemma SameDigests(h: Host, c: Content, d: Content)
    requires Sound(h) && Confirmed(c.state) && Confirmed(d.state) && c.digest == d.digest
    requires Assured(GateOf(h), c) && Assured(GateOf(h), d)
    ensures Same(Sanitized(h, Canonical(h, c.evidence)), Sanitized(h, Canonical(h, d.evidence)))
  {
    DigestsAgree(h, c.evidence, d.evidence);
  }
}
