// Evidence and Finding: the confirmation gate, its evidence digest and the public projection.
module Findings {
  import opened Wrappers
  import opened Text
  import opened Json
  import opened JsonSize
  import opened Evidence

  // ---- Evidence records ---------------------------------------------------------------------

  datatype Item = Item(
    kind: Text, source: Text, expected: Json, observed: Json, provenance: Json, request: Json, response: Json)

  datatype Rendered = Rendered(item: Item, sha: Digest)

  predicate Fits(v: Json) { Size(v, 1) <= MAX_JSON_BYTES }

  function Sanitized(h: Host, v: Json): Json { Safe(h, v, [], 0) }

  // Evidence.__post_init__
  function Build(h: Host, e: Item): Result<Item, Error> {
    if Bounded(h, e.kind).Err? || Bounded(h, e.source).Err? then Err(TextInvalid)
    else
      var built := Item(Strip(h, e.kind), Strip(h, e.source), Sanitized(h, e.expected), Sanitized(h, e.observed),
                        Sanitized(h, e.provenance), Sanitized(h, e.request), Sanitized(h, e.response));
      if && Fits(built.expected) && Fits(built.observed) && Fits(built.provenance) && Fits(built.request)
         && Fits(built.response)
      then Ok(built) else Err(TooLarge)
  }

  function StableDigest(h: Host, v: Json): Result<Digest, Error> {
    if Fits(Sanitized(h, v)) then Ok(DigestOf(Sanitized(h, v))) else Err(TooLarge)
  }

  // What evidence_sha256 covers.
  function Core(e: Item): Json {
    Obj([Field(Ascii("kind"), Str(e.kind)), Field(Ascii("source"), Str(e.source)), Field(Ascii("expected"), e.expected),
         Field(Ascii("observed"), e.observed), Field(Ascii("provenance"), e.provenance)])
  }

  function Public(h: Host, e: Item): Item { e.(provenance := Publicize(h, e.provenance, [])) }

  function Shown(e: Item): Json {
    Obj(Core(e).fields + [Field(Ascii("request"), e.request), Field(Ascii("response"), e.response)])
  }

  // Evidence.to_dict
  function Render(h: Host, e: Item, public: bool): Result<Rendered, Error> {
    if public && !Publishable(h, e.provenance, []) then Err(TextInvalid)
    else
      var sha := StableDigest(h, Core(e));
      if sha.Err? then Err(sha.error) else Ok(Rendered(if public then Public(h, e) else e, sha.value))
  }

  function RenderAll(h: Host, items: seq<Item>, public: bool): (r: Result<seq<Rendered>, Error>)
    ensures r.Ok? ==> |r.value| == |items|
    ensures r.Ok? <==> forall i :: 0 <= i < |items| ==> Render(h, items[i], public).Ok?
    ensures r.Ok? ==> forall i :: 0 <= i < |items| ==> Render(h, items[i], public) == Ok(r.value[i])
  {
    if items == [] then Ok([])
    else
      var head := Render(h, items[0], public);
      if head.Err? then Err(head.error)
      else
        var tail := RenderAll(h, items[1..], public);
        if tail.Err? then Err(tail.error) else Ok([head.value] + tail.value)
  }

  function Canonical(h: Host, items: seq<Item>): Json {
    Arr(seq(|items|, i requires 0 <= i < |items| => Shown(Public(h, items[i]))))
  }

  // Finding._evidence_digest
  function EvidenceDigest(h: Host, items: seq<Item>): Result<Digest, Error> {
    var rendered := RenderAll(h, items, true);
    if rendered.Err? then Err(rendered.error) else StableDigest(h, Canonical(h, items))
  }

  // ---- Validation ---------------------------------------------------------------------------

  datatype Code =
    | NotConfirmed | CategoryUnsupported | ScopeMissing | StepsMissing | EvidenceMissing
    | KindWrong | Missing(key: Text) | ScopeMismatch | NotCrossBoundary | DecisionMissing | DecisionNotDeny
    | IdentityMismatch | ResourceUnbound | AssetMissing | AssetMismatch | EndpointMissing | EndpointMismatch
    | ExpectedNotDeny | ComparisonIncomplete | NotAllowed | BodyInvalid | BaselineUnprotected | ProtectedNotObserved
    | ResponseMismatch | MethodMissing | MetadataMissing | ErrorsPresent | DigestMismatch | MetadataInvalid
    | MutatedAfter

  // index is -1 for faults of the finding as a whole.
  datatype Fault = Fault(index: int, code: Code)

  datatype State = OBSERVED | HYPOTHESIS | VALIDATION_PENDING | CONFIRMED | REJECTED | REPORT_READY | HUMAN_REVIEWED

  datatype Status = NotValidated | Validated | Rejected

  datatype Facts = Facts(
    scope: Text, category: Text, asset: Text, endpoint: Text, confidence: real, expected: Text, observed: Text,
    steps: seq<Text>, preconditions: seq<Text>, identities: seq<Text>, limitations: seq<Text>, plain: seq<Text>)

  const IDOR := Ascii("IDOR/BOLA")
  const COMPARISON := Ascii("controlled_authorization_comparison")
  const OWNER := Ascii("owner_identity")
  const TEST := Ascii("test_identity")
  const RESOURCE := Ascii("resource_id")
  const ENDPOINT := Ascii("endpoint_id")
  const DECISION := Ascii("authorization_decision")
  const MODEL := Ascii("policy_model")
  const BASIS := Ascii("policy_basis")
  const DENY := Str(Ascii("DENY"))
  const PROTECTED := [
    Ascii("owner_id"), Ascii("tenant_id"), Ascii("sensitivity"), Ascii("classification"), Ascii("amount"),
    Ascii("details"), Ascii("value")]

  predicate Confirmed(s: State) { s == CONFIRMED || s == REPORT_READY || s == HUMAN_REVIEWED }

  // dict.get: Null stands for Python's None.
  function Lookup(v: Json, name: Text): Json {
    if !v.Obj? then Null else LookupIn(v.fields, name)
  }

  function LookupIn(fs: seq<Field>, name: Text): Json {
    if fs == [] then Null else if fs[0].name == name then fs[0].value else LookupIn(fs[1..], name)
  }

  predicate Contains(v: Json, name: Text) {
    v.Obj? && exists i :: 0 <= i < |v.fields| && v.fields[i].name == name
  }

  predicate TextAt(v: Json, name: Text) { Lookup(v, name).Str? && Lookup(v, name).s != [] }

  predicate Guarded(v: Json) { exists i :: 0 <= i < |PROTECTED| && Contains(v, PROTECTED[i]) }

  function When(b: bool, c: Code): seq<Code> { if b then [c] else [] }

  predicate SegmentsMatch(template: seq<Text>, actual: seq<Text>) {
    && |template| == |actual|
    && forall i :: 0 <= i < |template| ==>
         template[i] == actual[i]
         || (template[i] != [] && template[i][0] == 0x7B && template[i][|template[i]| - 1] == 0x7D)
  }

  // The checks of one evidence item, up to the comparison of bodies.
  function BindingFaults(h: Host, f: Facts, e: Item): seq<Code> {
    var p := e.provenance;
    var resource, raw := Lookup(p, RESOURCE), Lookup(e.request, Ascii("url"));
    var url := if raw.Str? then h.url(raw.s) else Url([], [], []);
    When(e.kind != COMPARISON, KindWrong)
    + When(!TextAt(p, OWNER), Missing(OWNER)) + When(!TextAt(p, TEST), Missing(TEST))
    + When(!TextAt(p, RESOURCE), Missing(RESOURCE)) + When(!TextAt(p, ENDPOINT), Missing(ENDPOINT))
    + When(!TextAt(p, SCOPE_REFERENCE), Missing(SCOPE_REFERENCE))
    + When(Lookup(p, SCOPE_REFERENCE) != Str(f.scope), ScopeMismatch)
    + When(Same(Lookup(p, OWNER), Lookup(p, TEST)), NotCrossBoundary)
    + When(Lookup(p, DECISION).Null?, DecisionMissing)
    + When(!Lookup(p, DECISION).Null? && Lookup(p, DECISION) != DENY, DecisionNotDeny)
    + When(!Same(Lookup(e.request, Ascii("identity")), Lookup(p, TEST)), IdentityMismatch)
    + When(!raw.Str? || raw.s == [] || url.host == [] || !resource.Str? || resource.s !in url.segments, ResourceUnbound)
    + When(url.host != [] && h.assetHost(f.asset) == [], AssetMissing)
    + When(url.host != [] && h.assetHost(f.asset) != []
           && h.lower(h.assetHost(f.asset)) != h.lower(url.host), AssetMismatch)
    + When(f.endpoint == [], EndpointMissing)
    + When(f.endpoint != [] && f.endpoint[0] == 0x2F && url.path != []
           && !SegmentsMatch(h.segments(f.endpoint), url.segments),
           EndpointMismatch)
    + When(Lookup(e.expected, Ascii("policy_decision")) != DENY, ExpectedNotDeny)
  }

  predicate Comparable(e: Item) {
    && Contains(e.expected, Ascii("status")) && Contains(e.expected, Ascii("body"))
    && Contains(e.observed, Ascii("status")) && Contains(e.observed, Ascii("body"))
  }

  // isinstance(status, int) and status < 300; a bool is an int below 300.
  predicate Allowed(status: Json) { status.Bool? || (status.Num? && status.n < 300) }

  function BodyFaults(e: Item): seq<Code> {
    if !Comparable(e) then [ComparisonIncomplete]
    else
      var status := Lookup(e.observed, Ascii("status"));
      var wanted, seen := Lookup(e.expected, Ascii("body")), Lookup(e.observed, Ascii("body"));
      var answered := Lookup(e.response, Ascii("status"));
      When(!Allowed(status), NotAllowed)
      + (if !wanted.Obj? || !seen.Obj? then [BodyInvalid]
         else
           When(!Guarded(wanted), BaselineUnprotected) + When(!Guarded(seen), ProtectedNotObserved)
           + When(!answered.Null? && !Same(answered, status), ResponseMismatch)
           + When(!TextAt(e.request, Ascii("method")), MethodMissing)
           + When(!TextAt(e.provenance, MODEL), Missing(MODEL)) + When(!TextAt(e.provenance, BASIS), Missing(BASIS)))
  }

  function Tagged(codes: seq<Code>, index: int): (r: seq<Fault>)
    ensures |r| == |codes|
  {
    seq(|codes|, k requires 0 <= k < |codes| => Fault(index, codes[k]))
  }

  function ItemFaults(h: Host, f: Facts, e: Item, index: nat): seq<Fault> {
    Tagged(BindingFaults(h, f, e) + BodyFaults(e), index)
  }

  function Joined<T>(parts: seq<seq<T>>): seq<T> {
    if parts == [] then [] else Joined(parts[..|parts| - 1]) + parts[|parts| - 1]
  }

  lemma JoinedStep<T>(parts: seq<seq<T>>, n: nat)
    requires n < |parts|
    ensures Joined(parts[..n + 1]) == Joined(parts[..n]) + parts[n]
  {
    assert parts[..n + 1][..n] == parts[..n];
  }

  function Check(h: Host, f: Facts): (Item, nat) -> seq<Fault> {
    (e: Item, index: nat) => ItemFaults(h, f, e, index)
  }

  function Parts(items: seq<Item>, check: (Item, nat) -> seq<Fault>): (r: seq<seq<Fault>>)
    ensures |r| == |items| && forall i :: 0 <= i < |items| ==> r[i] == check(items[i], i)
  {
    seq(|items|, i requires 0 <= i < |items| => check(items[i], i))
  }

  function FactFaults(f: Facts, items: seq<Item>, target: State): seq<Fault> {
    Tagged(When(!Confirmed(target), NotConfirmed) + When(f.category != IDOR, CategoryUnsupported)
           + When(f.scope == [], ScopeMissing) + When(f.steps == [], StepsMissing)
           + When(items == [], EvidenceMissing), -1)
  }

  // The errors of validate_confirmed_evidence.
  function Faults(h: Host, f: Facts, items: seq<Item>, target: State): seq<Fault> {
    FactFaults(f, items, target) + Joined(Parts(items, Check(h, f)))
  }

  method CollectFaults(found: seq<Fault>, items: seq<Item>, check: (Item, nat) -> seq<Fault>)
    returns (errors: seq<Fault>)
    ensures errors == found + Joined(Parts(items, check))
  {
    errors := found;
    ghost var parts := Parts(items, check);
    var index := 0;
    while index < |items|
      invariant 0 <= index <= |items|
      invariant errors == found + Joined(parts[..index])
    {
      JoinedStep(parts, index);
      errors := errors + check(items[index], index);
      index := index + 1;
    }
    assert parts[..index] == parts;
  }

  method ValidateConfirmedEvidence(h: Host, f: Facts, items: seq<Item>, target: State) returns (errors: seq<Fault>)
    ensures errors == Faults(h, f, items, target)
  {
    errors := CollectFaults(FactFaults(f, items, target), items, Check(h, f));
  }

  // What one item of a confirmed finding shows: a request made as a second identity, bound to
  // the finding's scope, host, endpoint and resource, that policy denies and that nevertheless
  // returned protected content.
  predicate Demonstrates(h: Host, f: Facts, e: Item) {
    var p, url := e.provenance, Lookup(e.request, Ascii("url"));
    && e.kind == COMPARISON
    && TextAt(p, OWNER) && TextAt(p, TEST) && TextAt(p, RESOURCE) && TextAt(p, ENDPOINT) && TextAt(p, SCOPE_REFERENCE)
    && Lookup(p, SCOPE_REFERENCE) == Str(f.scope)
    && Lookup(p, OWNER) != Lookup(p, TEST)
    && Lookup(p, DECISION) == DENY && Lookup(e.expected, Ascii("policy_decision")) == DENY
    && Lookup(e.request, Ascii("identity")) == Lookup(p, TEST)
    && url.Str? && url.s != [] && h.url(url.s).host != []
    && Lookup(p, RESOURCE).s in h.url(url.s).segments
    && h.assetHost(f.asset) != [] && h.lower(h.assetHost(f.asset)) == h.lower(h.url(url.s).host)
    && f.endpoint != []
    && (f.endpoint[0] == 0x2F && h.url(url.s).path != [] ==>
        SegmentsMatch(h.segments(f.endpoint), h.url(url.s).segments))
    && Comparable(e) && Allowed(Lookup(e.observed, Ascii("status")))
    && Lookup(e.expected, Ascii("body")).Obj? && Guarded(Lookup(e.expected, Ascii("body")))
    && Lookup(e.observed, Ascii("body")).Obj? && Guarded(Lookup(e.observed, Ascii("body")))
    && (Lookup(e.response, Ascii("status")).Null?
        || Same(Lookup(e.response, Ascii("status")), Lookup(e.observed, Ascii("status"))))
    && TextAt(e.request, Ascii("method")) && TextAt(p, MODEL) && TextAt(p, BASIS)
  }

  lemma ItemMeans(h: Host, f: Facts, e: Item, index: nat)
    ensures ItemFaults(h, f, e, index) == [] <==> Demonstrates(h, f, e)
  {
    var raw := Lookup(e.request, Ascii("url"));
    assert ItemFaults(h, f, e, index) == [] <==> |BindingFaults(h, f, e)| + |BodyFaults(e)| == 0;
  }

  lemma {:induction false} JoinedEmpty<T>(parts: seq<seq<T>>)
    ensures Joined(parts) == [] <==> forall i :: 0 <= i < |parts| ==> parts[i] == []
  {
    if parts != [] {
      var init := parts[..|parts| - 1];
      JoinedEmpty(init);
      assert forall i :: 0 <= i < |init| ==> init[i] == parts[i];
    }
  }

  predicate AllDemonstrate(h: Host, f: Facts, items: seq<Item>) {
    forall i :: 0 <= i < |items| ==> Demonstrates(h, f, items[i])
  }

  predicate Valid(h: Host, f: Facts, items: seq<Item>, target: State) {
    && Confirmed(target) && f.category == IDOR && f.scope != [] && f.steps != [] && items != []
    && AllDemonstrate(h, f, items)
  }

  // A finding passes validation exactly when every item demonstrates it.
  lemma ValidMeans(h: Host, f: Facts, items: seq<Item>, target: State)
    ensures Faults(h, f, items, target) == [] <==> Valid(h, f, items, target)
  {
    var parts := Parts(items, Check(h, f));
    JoinedEmpty(parts);
    forall i | 0 <= i < |items| ensures parts[i] == [] <==> Demonstrates(h, f, items[i]) {
      ItemMeans(h, f, items[i], i);
    }
    assert Faults(h, f, items, target) == [] <==> |FactFaults(f, items, target)| + |Joined(parts)| == 0;
  }
}
