// The Finding state machine: the confirmation gate, invalidation, and serialization.
module FindingStates {
  import opened Wrappers
  import opened Text
  import opened Json
  import opened Evidence
  import opened Findings

  const MAX_LISTED := 20

  datatype Content = Content(
    facts: Facts, evidence: seq<Item>, state: State, status: Status, faults: seq<Fault>, digest: Digest)

  // A mutating method's new state and the error it raises, if any.
  datatype Step = Step(now: Content, error: Option<Error>)

  datatype Record = Record(
    state: State, facts: Facts, evidence: seq<Rendered>, status: Status, faults: seq<Fault>, digest: Digest)

  // The two computations the state machine rests on: validate_confirmed_evidence and
  // _evidence_digest.
  datatype Gate = Gate(faults: (Facts, seq<Item>, State) -> seq<Fault>, digest: seq<Item> -> Result<Digest, Error>)

  function GateOf(h: Host): Gate {
    Gate((f: Facts, items: seq<Item>, target: State) => Faults(h, f, items, target), items => EvidenceDigest(h, items))
  }

  function Successors(s: State): set<State> {
    match s
    case OBSERVED => {HYPOTHESIS, REJECTED}
    case HYPOTHESIS => {VALIDATION_PENDING, REJECTED}
    case VALIDATION_PENDING => {CONFIRMED, REJECTED}
    case CONFIRMED => {REPORT_READY, REJECTED}
    case REPORT_READY => {HUMAN_REVIEWED}
    case HUMAN_REVIEWED => {}
    case REJECTED => {}
  }

  predicate Complete(f: Facts, items: seq<Item>) {
    f.scope != [] && items != [] && f.steps != [] && 0.0 <= f.confidence <= 1.0 && f.expected != [] && f.observed != []
  }

  // _require_confirmable
  function Required(g: Gate, c: Content, target: State): Step {
    if !Complete(c.facts, c.evidence) then Step(c, Some(Incomplete))
    else
      var errors := g.faults(c.facts, c.evidence, target);
      if errors != [] then Step(c.(status := Rejected, faults := errors, digest := NoDigest), Some(EvidenceInvalid))
      else
        var accepted := c.(status := Validated, faults := []);
        match g.digest(c.evidence)
        case Err(e) => Step(accepted, Some(e))
        case Ok(d) => Step(accepted.(digest := d), None)
  }

  function Transitioned(g: Gate, c: Content, target: State): Step {
    if target == c.state then Step(c, None)
    else if target !in Successors(c.state) then Step(c, Some(TransitionInvalid))
    else if !Confirmed(target) then Step(c.(state := target), None)
    else
      var required := Required(g, c, target);
      if required.error.Some? then required else Step(required.now.(state := target), None)
  }

  // _invalidate_confirmation
  function Invalidated(c: Content, errors: seq<Fault>): Content {
    c.(state := if Confirmed(c.state) then HYPOTHESIS else c.state, status := Rejected, faults := errors,
       digest := NoDigest)
  }

  // _assert_validated_for_reporting
  function Asserted(g: Gate, c: Content): Step {
    if !Confirmed(c.state) then Step(c, None)
    else
      var errors := g.faults(c.facts, c.evidence, c.state);
      if errors != [] then Step(Invalidated(c, errors), Some(EvidenceInvalid))
      else if c.status != Validated || c.faults != [] then
        Step(Invalidated(c, [Fault(-1, Code.MetadataInvalid)]), Some(Error.MetadataInvalid))
      else match g.digest(c.evidence)
        case Err(e) => Step(c, Some(e))
        case Ok(d) =>
          if c.digest != d then Step(Invalidated(c, [Fault(-1, MutatedAfter)]), Some(Mutated)) else Step(c, None)
  }

  function First<T>(items: seq<T>): seq<T> { items[..Min(|items|, MAX_LISTED)] }

  // What to_dict makes of the descriptive fields.
  function Listed(h: Host, f: Facts, public: bool): Facts {
    f.(scope := if public then PublicRef(h, f.scope) else f.scope, steps := First(f.steps),
       preconditions := First(f.preconditions), identities := First(f.identities), limitations := First(f.limitations))
  }

  function Written(h: Host, c: Content, public: bool): Result<Record, Error> {
    if public && Bounded(h, c.facts.scope).Err? then Err(TextInvalid)
    else
      var rendered := RenderAll(h, First(c.evidence), public);
      if rendered.Err? then Err(rendered.error)
      else Ok(Record(c.state, Listed(h, c.facts, public), rendered.value, c.status, First(c.faults), c.digest))
  }

  // Finding.to_dict; the step is _assert_validated_for_reporting.
  function Serialized(h: Host, c: Content, public: bool): Result<Record, Error> {
    var checked := Asserted(GateOf(h), c);
    if checked.error.Some? then Err(checked.error.value) else Written(h, c, public)
  }

  function BuildAll(h: Host, items: seq<Rendered>): (r: Result<seq<Item>, Error>)
    ensures r.Ok? ==> |r.value| == |items| && forall i :: 0 <= i < |items| ==> Build(h, items[i].item) == Ok(r.value[i])
    ensures r.Ok? <==> forall i :: 0 <= i < |items| ==> Build(h, items[i].item).Ok?
  {
    if items == [] then Ok([])
    else
      var head := Build(h, items[0].item);
      if head.Err? then Err(head.error)
      else
        var tail := BuildAll(h, items[1..]);
        if tail.Err? then Err(tail.error) else Ok([head.value] + tail.value)
  }

  function When1(b: bool, c: Code): seq<Fault> { if b then [Fault(-1, c)] else [] }

  // How from_dict treats the state and validation fields it read.
  function Admitted(g: Gate, c: Content): Result<Content, Error> {
    if !Confirmed(c.state) then Ok(c)
    else
      var errors := g.faults(c.facts, c.evidence, c.state)
                    + When1(c.status != Validated, MetadataMissing) + When1(c.faults != [], ErrorsPresent);
      if errors != [] then Ok(Invalidated(c, errors))
      else match g.digest(c.evidence)
        case Err(e) => Err(e)
        case Ok(d) => if c.digest != d then Ok(Invalidated(c, [Fault(-1, DigestMismatch)])) else Ok(c)
  }

  function Loaded(g: Gate, h: Host, r: Record): Result<Content, Error> {
    var items := BuildAll(h, r.evidence);
    if items.Err? then Err(items.error)
    else Admitted(g, Content(r.facts, items.value, r.state, r.status, r.faults, r.digest))
  }

  // Finding.from_dict
  function FromDict(h: Host, r: Record): Result<Content, Error> {
    Loaded(GateOf(h), h, r)
  }

  // ---- What a confirmed state stands for ------------------------------------------------------

  predicate Assured(g: Gate, c: Content) {
    Confirmed(c.state) ==>
      && g.faults(c.facts, c.evidence, c.state) == []
      && c.status == Validated && c.faults == [] && g.digest(c.evidence) == Ok(c.digest)
  }

  // Which confirmed state is aimed at does not matter to the validator.
  ghost predicate TargetBlind(g: Gate) {
    forall f, items, s, t | Confirmed(s) && Confirmed(t) :: g.faults(f, items, s) == g.faults(f, items, t)
  }

  lemma ValidatorIsTargetBlind(h: Host)
    ensures TargetBlind(GateOf(h))
  {}

  // Reaching a confirmed state always means having passed the gate, and every transition keeps
  // what the gate established.
  lemma TransitionAssures(g: Gate, c: Content, target: State)
    requires TargetBlind(g)
    ensures Assured(g, c) ==> Assured(g, Transitioned(g, c, target).now)
    ensures Confirmed(target) && target != c.state && Transitioned(g, c, target).error.None? ==>
              Assured(g, Transitioned(g, c, target).now)
  {}

  // Reporting passes exactly the assured findings; any other confirmed finding is demoted,
  // unless its digest could not even be computed.
  lemma ReportingChecksAssurance(g: Gate, c: Content)
    ensures Asserted(g, c).error.None? <==> Assured(g, c)
    ensures Asserted(g, c).error.None? ==> Asserted(g, c).now == c
    ensures !Assured(g, c) ==> !Confirmed(Asserted(g, c).now.state) || g.digest(c.evidence).Err?
  {}

  // Reading a record never takes its word for it: one in a confirmed state loads as such only
  // if its evidence demonstrates the finding and matches the stored digest.
  lemma LoadingAssures(h: Host, r: Record)
    ensures FromDict(h, r).Ok? ==> Assured(GateOf(h), FromDict(h, r).value)
  {
    var items := BuildAll(h, r.evidence);
    if items.Ok? {
      AdmissionAssures(GateOf(h), Content(r.facts, items.value, r.state, r.status, r.faults, r.digest));
    }
  }

  lemma AdmissionAssures(g: Gate, c: Content)
    ensures Admitted(g, c).Ok? ==> Assured(g, Admitted(g, c).value)
    ensures Admitted(g, c) == Ok(c) <==> Assured(g, c)
  {}

  // Evidence replaced after validation is reported exactly when it is still valid and its
  // public projection, sanitized once more, equals the validated one. DigestReach says which
  // changes that notices.
  lemma MutationIsNoticedExactly(h: Host, c: Content, items: seq<Item>)
    requires Sound(h) && Confirmed(c.state) && Assured(GateOf(h), c)
    ensures Asserted(GateOf(h), c.(evidence := items)).error.None? <==>
              && GateOf(h).faults(c.facts, items, c.state) == []
              && GateOf(h).digest(items).Ok?
              && Same(Sanitized(h, Canonical(h, items)), Sanitized(h, Canonical(h, c.evidence)))
  {
    ReportingChecksAssurance(GateOf(h), c.(evidence := items));
    if EvidenceDigest(h, items).Ok? {
      DigestsAgree(h, items, c.evidence);
    }
  }

  lemma DigestsAgree(h: Host, items: seq<Item>, other: seq<Item>)
    requires Sound(h) && EvidenceDigest(h, items).Ok? && EvidenceDigest(h, other).Ok?
    ensures EvidenceDigest(h, items) == EvidenceDigest(h, other) <==>
              Same(Sanitized(h, Canonical(h, items)), Sanitized(h, Canonical(h, other)))
  {
    SafeIsValue(h, Canonical(h, items), [], 0);
    SafeIsValue(h, Canonical(h, other), [], 0);
    DigestsEqual(Sanitized(h, Canonical(h, items)), Sanitized(h, Canonical(h, other)));
  }

  // ---- The object ----------------------------------------------------------------------------

  class Finding {
    var facts: Facts
    var evidence: seq<Item>
    var state: State
    var status: Status
    var faults: seq<Fault>
    var digest: Digest

    function Value(): Content
      reads this
    {
      Content(facts, evidence, state, status, faults, digest)
    }

    // A finding cannot be created in a confirmed state.
    constructor (facts: Facts, evidence: seq<Item>, state: State)
      requires !Confirmed(state)
      ensures Value() == Content(facts, evidence, state, NotValidated, [], NoDigest)
    {
      this.facts, this.evidence, this.state := facts, evidence, state;
      status, faults, digest := NotValidated, [], NoDigest;
    }

    method RequireConfirmable(h: Host, target: State) returns (error: Option<Error>)
      modifies this
      ensures Step(Value(), error) == Required(GateOf(h), old(Value()), target)
    {
      if !Complete(facts, evidence) {
        return Some(Incomplete);
      }
      var errors := ValidateConfirmedEvidence(h, facts, evidence, target);
      if errors != [] {
        status, faults, digest := Rejected, errors, NoDigest;
        return Some(EvidenceInvalid);
      }
      status, faults := Validated, [];
      var computed := EvidenceDigest(h, evidence);
      if computed.Err? {
        return Some(computed.error);
      }
      digest := computed.value;
      return None;
    }

    method Transition(h: Host, target: State) returns (error: Option<Error>)
      modifies this
      ensures Step(Value(), error) == Transitioned(GateOf(h), old(Value()), target)
      ensures old(Assured(GateOf(h), Value())) ==> Assured(GateOf(h), Value())
    {
      ValidatorIsTargetBlind(h);
      TransitionAssures(GateOf(h), Value(), target);
      if target == state {
        return None;
      }
      if target !in Successors(state) {
        return Some(TransitionInvalid);
      }
      if Confirmed(target) {
        error := RequireConfirmable(h, target);
        if error.Some? {
          return error;
        }
      }
      state := target;
      return None;
    }

    method InvalidateConfirmation(errors: seq<Fault>)
      modifies this
      ensures Value() == Invalidated(old(Value()), errors)
      ensures !Confirmed(state)
    {
      if Confirmed(state) {
        state := HYPOTHESIS;
      }
      status, faults, digest := Rejected, errors, NoDigest;
    }

    method AssertValidatedForReporting(h: Host) returns (error: Option<Error>)
      modifies this
      ensures Step(Value(), error) == Asserted(GateOf(h), old(Value()))
      ensures error.None? ==> Value() == old(Value()) && Assured(GateOf(h), Value())
    {
      if !Confirmed(state) {
        return None;
      }
      var errors := ValidateConfirmedEvidence(h, facts, evidence, state);
      if errors != [] {
        InvalidateConfirmation(errors);
        return Some(EvidenceInvalid);
      }
      if status != Validated || faults != [] {
        InvalidateConfirmation([Fault(-1, Code.MetadataInvalid)]);
        return Some(Error.MetadataInvalid);
      }
      var computed := EvidenceDigest(h, evidence);
      if computed.Err? {
        return Some(computed.error);
      }
      if digest != computed.value {
        InvalidateConfirmation([Fault(-1, MutatedAfter)]);
        return Some(Mutated);
      }
      return None;
    }

    method ToDict(h: Host, public: bool) returns (r: Result<Record, Error>)
      modifies this
      ensures Value() == Asserted(GateOf(h), old(Value())).now
      ensures r == Serialized(h, old(Value()), public)
      ensures r.Ok? ==> Assured(GateOf(h), Value())
    {
      var error := AssertValidatedForReporting(h);
      if error.Some? {
        return Err(error.value);
      }
      return Written(h, Value(), public);
    }
  }
}
