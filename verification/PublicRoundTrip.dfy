// Reloading a finding from its public projection.
module PublicRoundTrip {
  import opened Wrappers
  import opened Text
  import opened Json
  import opened JsonSize
  import opened Evidence
  import opened Findings
  import opened FindingStates

  // An item its own constructor leaves unchanged: in particular, every text leaf is a fixed
  // point of the redactor.
  ghost predicate Settled(h: Host, e: Item) { e.provenance.Obj? && Build(h, e) == Ok(e) }

  // The item from_dict makes of its public rendering.
  function Reloaded(h: Host, e: Item): Item {
    e.(provenance := Sanitized(h, Publicize(h, e.provenance, [])))
  }

  // Publicizing replaces references by 23-character digests; the grown provenance must still
  // fit the constructor's bound and the digest's.
  predicate StillFits(h: Host, e: Item) {
    Fits(Reloaded(h, e).provenance) && Fits(Sanitized(h, Core(Reloaded(h, e))))
  }

  lemma SettledIsClean(h: Host, e: Item)
    requires Settled(h, e)
    ensures Clean(h, e.expected, [], 0) && Clean(h, e.observed, [], 0) && Clean(h, e.provenance, [], 0)
    ensures Clean(h, e.request, [], 0) && Clean(h, e.response, [], 0)
  {
    SafeFixesExactlyCleanValues(h, e.expected, [], 0);
    SafeFixesExactlyCleanValues(h, e.observed, [], 0);
    SafeFixesExactlyCleanValues(h, e.provenance, [], 0);
    SafeFixesExactlyCleanValues(h, e.request, [], 0);
    SafeFixesExactlyCleanValues(h, e.response, [], 0);
  }

  lemma ReloadedItem(h: Host, e: Item)
    requires Sound(h) && Settled(h, e)
    ensures Build(h, Public(h, e)) == (if Fits(Reloaded(h, e).provenance) then Ok(Reloaded(h, e)) else Err(TooLarge))
    ensures Public(h, Reloaded(h, e)) == Public(h, e)
    ensures Publishable(h, e.provenance, []) ==> Publishable(h, Reloaded(h, e).provenance, [])
  {
    SettledIsClean(h, e);
    PublicizeSettles(h, e.provenance, [], 0);
    if Publishable(h, e.provenance, []) {
      PublishableSettles(h, e.provenance, [], 0);
    }
  }

  lemma ReloadedRenders(h: Host, e: Item)
    requires Sound(h) && Settled(h, e) && Render(h, e, true).Ok?
    ensures Render(h, Reloaded(h, e), true).Ok? <==> Fits(Sanitized(h, Core(Reloaded(h, e))))
    ensures Render(h, Reloaded(h, e), true).Ok? ==>
              Render(h, Reloaded(h, e), true).value.item == Render(h, e, true).value.item
  {
    ReloadedItem(h, e);
  }

  // ---- The demonstration survives -------------------------------------------------------------

  lemma PlainKeyIsNotRef(h: Host, key: Text)
    requires Sound(h) && PlainKey(key) && key != AUTHORIZATION_REFERENCE && key != SCOPE_REFERENCE
    ensures !Ref(h, key)
  {
    assert Normalized(h, key) == key;
  }

  lemma {:induction false} LookupPublic(h: Host, fs: seq<Field>, name: Text)
    ensures LookupIn(PublicFields(h, fs), name) == Publicize(h, LookupIn(fs, name), name)
  {
    if fs != [] && fs[0].name != name {
      LookupPublic(h, fs[1..], name);
      assert PublicFields(h, fs)[1..] == PublicFields(h, fs[1..]);
    }
  }

  lemma {:induction false} LookupSafe(h: Host, fs: seq<Field>, name: Text, depth: nat)
    requires |fs| <= MAX_ITEMS && forall i :: 0 <= i < |fs| ==> |fs[i].name| <= MAX_KEY
    ensures var v := LookupIn(SafeFields(h, fs, depth), name);
      v == Safe(h, LookupIn(fs, name), name, depth) || (v == Null == LookupIn(fs, name))
  {
    if fs != [] {
      assert Cut(fs[0].name) == fs[0].name;
      if fs[0].name != name {
        LookupSafe(h, fs[1..], name, depth);
        assert SafeFields(h, fs, depth)[1..] == SafeFields(h, fs[1..], depth);
      }
    }
  }

  lemma {:induction false} CleanLookup(h: Host, fs: seq<Field>, name: Text, depth: nat)
    requires forall i :: 0 <= i < |fs| ==> Clean(h, fs[i].value, fs[i].name, depth)
    requires LookupIn(fs, name) != Null
    ensures Clean(h, LookupIn(fs, name), name, depth)
  {
    if fs != [] && fs[0].name != name {
      CleanLookup(h, fs[1..], name, depth);
    }
  }

  // A text in the provenance comes back as it was, or as its public reference under the key
  // scope_reference.
  lemma ReloadedText(h: Host, e: Item, name: Text)
    requires Sound(h) && Settled(h, e) && Lookup(e.provenance, name).Str?
    ensures Lookup(Reloaded(h, e).provenance, name) == Publicize(h, Lookup(e.provenance, name), name)
  {
    SettledIsClean(h, e);
    NotSecretAtTop(h, e.provenance);
    FieldText(h, e.provenance.fields, name);
  }

  lemma NotSecretAtTop(h: Host, v: Json)
    requires v.Obj? && Clean(h, v, [], 0)
    ensures !Secret(h, []) && CleanFields(h, v.fields, 1)
  {}

  lemma FieldText(h: Host, fs: seq<Field>, name: Text)
    requires Sound(h) && CleanFields(h, fs, 1) && LookupIn(fs, name).Str?
    ensures LookupIn(Collapse(SafeFields(h, PublicFields(h, fs), 1)), name) == Publicize(h, LookupIn(fs, name), name)
  {
    FieldsStayApart(h, fs, 1);
    CleanLookup(h, fs, name, 1);
    LookupPublic(h, fs, name);
    LookupSafe(h, PublicFields(h, fs), name, 1);
    TextSettles(h, LookupIn(fs, name), name);
  }

  lemma TextSettles(h: Host, v: Json, name: Text)
    requires Sound(h) && v.Str? && Clean(h, v, name, 1)
    ensures Safe(h, Publicize(h, v, name), name, 1) == Publicize(h, v, name)
  {
    if Secret(h, name) {
      SecretIsNotRef(h, name);
    }
  }

  ghost predicate ReferenceFree(key: Text) {
    PlainKey(key) && key != AUTHORIZATION_REFERENCE && key != SCOPE_REFERENCE
  }

  lemma KeptText(h: Host, e: Item, name: Text)
    requires Sound(h) && Settled(h, e) && Lookup(e.provenance, name).Str?
    requires ReferenceFree(name)
    ensures Lookup(Reloaded(h, e).provenance, name) == Lookup(e.provenance, name)
  {
    ReloadedText(h, e, name);
    PlainKeyIsNotRef(h, name);
  }

  lemma ScopeText(h: Host, e: Item)
    requires Sound(h) && Settled(h, e) && Lookup(e.provenance, SCOPE_REFERENCE).Str?
    ensures Lookup(Reloaded(h, e).provenance, SCOPE_REFERENCE) ==
              Str(PublicRef(h, Lookup(e.provenance, SCOPE_REFERENCE).s))
  {
    ReloadedText(h, e, SCOPE_REFERENCE);
    assert PlainKey(SCOPE_REFERENCE);
    assert Normalized(h, SCOPE_REFERENCE) == SCOPE_REFERENCE;
  }

  // The texts validation reads from the provenance.
  ghost predicate SameTexts(p: Json, q: Json) {
    && Lookup(q, OWNER) == Lookup(p, OWNER) && Lookup(q, TEST) == Lookup(p, TEST)
    && Lookup(q, RESOURCE) == Lookup(p, RESOURCE) && Lookup(q, ENDPOINT) == Lookup(p, ENDPOINT)
    && Lookup(q, DECISION) == Lookup(p, DECISION) && Lookup(q, MODEL) == Lookup(p, MODEL)
    && Lookup(q, BASIS) == Lookup(p, BASIS)
  }

  lemma IdentityKeysAreReferenceFree()
    ensures ReferenceFree(OWNER) && ReferenceFree(TEST) && ReferenceFree(RESOURCE)
  {}

  lemma PolicyKeysAreReferenceFree()
    ensures ReferenceFree(ENDPOINT) && ReferenceFree(MODEL) && ReferenceFree(BASIS)
  {}

  lemma DecisionKeyIsReferenceFree()
    ensures ReferenceFree(DECISION)
  {}

  lemma TextsKept(h: Host, f: Facts, e: Item)
    requires Sound(h) && Settled(h, e) && Demonstrates(h, f, e)
    ensures SameTexts(e.provenance, Reloaded(h, e).provenance)
    ensures Lookup(Reloaded(h, e).provenance, SCOPE_REFERENCE) == Str(PublicRef(h, f.scope))
  {
    IdentityKeysAreReferenceFree();
    PolicyKeysAreReferenceFree();
    DecisionKeyIsReferenceFree();
    KeptText(h, e, OWNER);
    KeptText(h, e, TEST);
    KeptText(h, e, RESOURCE);
    KeptText(h, e, ENDPOINT);
    KeptText(h, e, DECISION);
    KeptText(h, e, MODEL);
    KeptText(h, e, BASIS);
    ScopeText(h, e);
  }

  lemma StillDemonstrates(h: Host, f: Facts, e: Item)
    requires Sound(h) && Settled(h, e) && Demonstrates(h, f, e)
    ensures Demonstrates(h, Listed(h, f, true), Reloaded(h, e))
  {
    TextsKept(h, f, e);
    PublicRefIsPublic(h, f.scope);
  }

  // ---- Reloading -----------------------------------------------------------------------------

  // A confirmed finding that to_dict(public=True) accepts, made of settled items.
  ghost predicate Reportable(h: Host, c: Content) {
    && Confirmed(c.state) && Serialized(h, c, true).Ok?
    && forall i :: 0 <= i < |c.evidence| ==> Settled(h, c.evidence[i])
  }

  function Reloads(h: Host, items: seq<Item>): (r: seq<Item>)
    ensures |r| == |items|
  {
    seq(|items|, i requires 0 <= i < |items| => Reloaded(h, items[i]))
  }

  ghost predicate AllFit(h: Host, items: seq<Item>) {
    forall i :: 0 <= i < |items| ==> StillFits(h, items[i])
  }

  // The content from_dict rebuilds, before it is admitted.
  function Rebuilt(h: Host, c: Content): Content {
    Content(Listed(h, c.facts, true), Reloads(h, First(c.evidence)), c.state, c.status, First(c.faults), c.digest)
  }

  lemma ReportableIsAssured(h: Host, c: Content)
    requires Reportable(h, c)
    ensures Assured(GateOf(h), c) && Bounded(h, c.facts.scope).Ok?
    ensures RenderAll(h, c.evidence, true).Ok? && RenderAll(h, First(c.evidence), true).Ok?
    ensures Serialized(h, c, true).value == Projected(h, c)
  {
    ReportingChecksAssurance(GateOf(h), c);
  }

  ghost predicate ProvenanceFits(h: Host, items: seq<Item>) {
    forall i :: 0 <= i < |items| ==> Fits(Reloaded(h, items[i]).provenance)
  }

  lemma BuildsReloaded(h: Host, items: seq<Item>)
    requires Sound(h) && forall i :: 0 <= i < |items| ==> Settled(h, items[i])
    requires RenderAll(h, items, true).Ok?
    ensures var built := BuildAll(h, RenderAll(h, items, true).value);
      && (built.Ok? <==> ProvenanceFits(h, items))
      && (built.Ok? ==> built.value == Reloads(h, items))
  {
    var rendered := RenderAll(h, items, true).value;
    forall i | 0 <= i < |items|
      ensures Build(h, rendered[i].item)
        == (if Fits(Reloaded(h, items[i]).provenance) then Ok(Reloaded(h, items[i])) else Err(TooLarge))
    {
      assert Render(h, items[i], true) == Ok(rendered[i]);
      ReloadedItem(h, items[i]);
    }
  }

  // The record a finding that passes the gate is written as.
  function Projected(h: Host, c: Content): Record
    requires RenderAll(h, First(c.evidence), true).Ok?
  {
    Record(c.state, Listed(h, c.facts, true), RenderAll(h, First(c.evidence), true).value, c.status, First(c.faults),
           c.digest)
  }

  lemma LoadsRebuilt(g: Gate, h: Host, c: Content)
    requires Sound(h) && RenderAll(h, First(c.evidence), true).Ok?
    requires forall i :: 0 <= i < |c.evidence| ==> Settled(h, c.evidence[i])
    ensures if ProvenanceFits(h, First(c.evidence)) then Loaded(g, h, Projected(h, c)) == Admitted(g, Rebuilt(h, c))
            else Loaded(g, h, Projected(h, c)).Err?
  {
    BuildsReloaded(h, First(c.evidence));
  }

  lemma CanonicalKept(h: Host, items: seq<Item>)
    requires Sound(h) && forall i :: 0 <= i < |items| ==> Settled(h, items[i])
    ensures Canonical(h, Reloads(h, items)) == Canonical(h, items)
  {
    forall i | 0 <= i < |items| ensures Public(h, Reloads(h, items)[i]) == Public(h, items[i]) {
      ReloadedItem(h, items[i]);
    }
    assert Canonical(h, Reloads(h, items)).items == Canonical(h, items).items;
  }

  ghost predicate CoresFit(h: Host, items: seq<Item>) {
    forall i :: 0 <= i < |items| ==> Fits(Sanitized(h, Core(Reloaded(h, items[i]))))
  }

  lemma RendersReloaded(h: Host, items: seq<Item>)
    requires Sound(h) && forall i :: 0 <= i < |items| ==> Settled(h, items[i])
    requires RenderAll(h, items, true).Ok?
    ensures RenderAll(h, Reloads(h, items), true).Ok? <==> CoresFit(h, items)
    ensures RenderAll(h, Reloads(h, items), true).Ok? ==>
              forall i :: 0 <= i < |items| ==>
                RenderAll(h, Reloads(h, items), true).value[i].item == RenderAll(h, items, true).value[i].item
  {
    var again := Reloads(h, items);
    forall i | 0 <= i < |items|
      ensures Render(h, again[i], true).Ok? <==> Fits(Sanitized(h, Core(Reloaded(h, items[i]))))
      ensures Render(h, again[i], true).Ok? ==>
                Render(h, again[i], true).value.item == RenderAll(h, items, true).value[i].item
    {
      assert Render(h, items[i], true) == Ok(RenderAll(h, items, true).value[i]);
      ReloadedRenders(h, items[i]);
    }
  }

  // The digest of the reloaded items is the same, if it can be computed at all.
  lemma DigestKept(h: Host, items: seq<Item>)
    requires Sound(h) && forall i :: 0 <= i < |items| ==> Settled(h, items[i])
    requires EvidenceDigest(h, items).Ok?
    ensures EvidenceDigest(h, Reloads(h, items)).Ok? <==> CoresFit(h, items)
    ensures EvidenceDigest(h, Reloads(h, items)).Ok? ==>
              EvidenceDigest(h, Reloads(h, items)) == EvidenceDigest(h, items)
  {
    CanonicalKept(h, items);
    RendersReloaded(h, items);
  }

  lemma DemonstrationsKept(h: Host, f: Facts, items: seq<Item>)
    requires Sound(h) && forall i :: 0 <= i < |items| ==> Settled(h, items[i])
    requires AllDemonstrate(h, f, items)
    ensures AllDemonstrate(h, Listed(h, f, true), Reloads(h, items))
  {
    forall i | 0 <= i < |items| ensures Demonstrates(h, Listed(h, f, true), Reloads(h, items)[i]) {
      StillDemonstrates(h, f, items[i]);
    }
  }

  lemma ValidKept(h: Host, f: Facts, items: seq<Item>, s: State)
    requires Sound(h) && forall i :: 0 <= i < |items| ==> Settled(h, items[i])
    requires Valid(h, f, items, s)
    ensures Valid(h, Listed(h, f, true), Reloads(h, First(items)), s)
  {
    PublicRefIsPublic(h, f.scope);
    FirstDemonstrate(h, f, items);
    DemonstrationsKept(h, f, First(items));
  }

  lemma StillValid(h: Host, f: Facts, items: seq<Item>, s: State)
    requires Sound(h) && forall i :: 0 <= i < |items| ==> Settled(h, items[i])
    requires Faults(h, f, items, s) == []
    ensures Faults(h, Listed(h, f, true), Reloads(h, First(items)), s) == []
  {
    ValidMeans(h, f, items, s);
    ValidKept(h, f, items, s);
    ValidMeans(h, Listed(h, f, true), Reloads(h, First(items)), s);
  }

  lemma FirstDemonstrate(h: Host, f: Facts, items: seq<Item>)
    requires AllDemonstrate(h, f, items)
    ensures AllDemonstrate(h, f, First(items))
  {
    forall i | 0 <= i < |First(items)| ensures Demonstrates(h, f, First(items)[i]) {
      assert First(items)[i] == items[i];
    }
  }

  lemma AdmissionCases(g: Gate, c: Content)
    requires Confirmed(c.state) && c.status == Validated && c.faults == []
             && g.faults(c.facts, c.evidence, c.state) == []
    ensures g.digest(c.evidence).Err? ==> Admitted(g, c).Err?
    ensures g.digest(c.evidence) == Ok(c.digest) ==> Admitted(g, c) == Ok(c)
  {}

  lemma AdmissionKeepsState(g: Gate, c: Content)
    requires Confirmed(c.state) && Admitted(g, c).Ok? && Admitted(g, c).value.state == c.state
    ensures Admitted(g, c).value == c && g.digest(c.evidence) == Ok(c.digest)
  {}

  lemma GateIs(h: Host, f: Facts, items: seq<Item>, s: State)
    ensures GateOf(h).faults(f, items, s) == Faults(h, f, items, s)
    ensures GateOf(h).digest(items) == EvidenceDigest(h, items)
  {}

  // Lists of different lengths have different digests, up to the hundredth item.
  lemma LengthsShow(h: Host, items: seq<Item>, other: seq<Item>)
    requires Sound(h) && EvidenceDigest(h, items).Ok? && EvidenceDigest(h, other).Ok?
    requires Min(|items|, MAX_ITEMS) != Min(|other|, MAX_ITEMS)
    ensures EvidenceDigest(h, items) != EvidenceDigest(h, other)
  {
    DigestsAgree(h, items, other);
    SanitizedLength(h, items);
    SanitizedLength(h, other);
  }

  lemma SanitizedLength(h: Host, items: seq<Item>)
    requires Sound(h)
    ensures var v := Sanitized(h, Canonical(h, items)); v.Arr? && |v.items| == Min(|items|, MAX_ITEMS)
  {
    assert PlainKey([]);
    assert |Normalized(h, [])| == 0;
  }

  ghost predicate Loads(h: Host, c: Content)
    requires Serialized(h, c, true).Ok?
  {
    var loaded := FromDict(h, Serialized(h, c, true).value);
    loaded.Ok? && loaded.value.state == c.state
  }

  lemma LongListsDoNotLoad(g: Gate, h: Host, c: Content)
    requires Sound(h) && RenderAll(h, First(c.evidence), true).Ok? && Confirmed(c.state)
    requires forall i :: 0 <= i < |c.evidence| ==> Settled(h, c.evidence[i])
    requires (forall items :: g.digest(items) == EvidenceDigest(h, items))
             && EvidenceDigest(h, c.evidence) == Ok(c.digest)
    requires |c.evidence| > MAX_LISTED
    ensures var loaded := Loaded(g, h, Projected(h, c)); loaded.Err? || loaded.value.state != c.state
  {
    LoadsRebuilt(g, h, c);
    LongListIsNoticed(g, h, c.evidence, Rebuilt(h, c));
  }

  // Content over the first 20 of more items, with the digest of all of them, is not admitted.
  lemma LongListIsNoticed(g: Gate, h: Host, items: seq<Item>, d: Content)
    requires Sound(h) && |items| > MAX_LISTED && |d.evidence| == MAX_LISTED && Confirmed(d.state)
    requires (forall some :: g.digest(some) == EvidenceDigest(h, some)) && EvidenceDigest(h, items) == Ok(d.digest)
    ensures Admitted(g, d).Err? || Admitted(g, d).value.state != d.state
  {
    if Admitted(g, d).Ok? && Admitted(g, d).value.state == d.state {
      AdmissionKeepsState(g, d);
      LengthsShow(h, d.evidence, items);
    }
  }

  lemma ShortListsLoad(g: Gate, h: Host, c: Content)
    requires Sound(h) && RenderAll(h, First(c.evidence), true).Ok? && Confirmed(c.state)
    requires forall i :: 0 <= i < |c.evidence| ==> Settled(h, c.evidence[i])
    requires (forall items :: g.digest(items) == EvidenceDigest(h, items))
             && EvidenceDigest(h, c.evidence) == Ok(c.digest)
    requires c.status == Validated && c.faults == []
    requires g.faults(Rebuilt(h, c).facts, Rebuilt(h, c).evidence, c.state) == []
    requires |c.evidence| <= MAX_LISTED
    ensures var loaded := Loaded(g, h, Projected(h, c));
      if AllFit(h, c.evidence) then loaded == Ok(Rebuilt(h, c)) else loaded.Err?
  {
    assert First(c.evidence) == c.evidence;
    LoadsRebuilt(g, h, c);
    AdmissionCases(g, Rebuilt(h, c));
    DigestKept(h, c.evidence);
    assert AllFit(h, c.evidence) <==> ProvenanceFits(h, c.evidence) && CoresFit(h, c.evidence);
  }

  // A published finding loads back in its state exactly when it has at most 20 evidence items
  // and every publicized provenance still fits; then everything but the replaced references
  // is as it was, and the evidence digest is the same.
  lemma PublicRoundTripExactly(h: Host, c: Content)
    requires Sound(h) && Reportable(h, c)
    ensures Loads(h, c) <==> |c.evidence| <= MAX_LISTED && AllFit(h, c.evidence)
    ensures Loads(h, c) ==> FromDict(h, Serialized(h, c, true).value) == Ok(Rebuilt(h, c))
    ensures Loads(h, c) ==> Assured(GateOf(h), Rebuilt(h, c))
  {
    var g := GateOf(h);
    ReportableIsAssured(h, c);
    forall items ensures g.digest(items) == EvidenceDigest(h, items) {
      GateIs(h, c.facts, items, c.state);
    }
    GateIs(h, c.facts, c.evidence, c.state);
    StillValid(h, c.facts, c.evidence, c.state);
    GateIs(h, Rebuilt(h, c).facts, Rebuilt(h, c).evidence, c.state);
    if |c.evidence| <= MAX_LISTED {
      ShortListsLoad(g, h, c);
    } else {
      LongListsDoNotLoad(g, h, c);
    }
    LoadingAssures(h, Serialized(h, c, true).value);
  }

  // ---- Publishing again ----------------------------------------------------------------------

  lemma ReloadedIsSettled(h: Host, e: Item)
    requires Sound(h) && Settled(h, e) && StillFits(h, e)
    ensures Settled(h, Reloaded(h, e)) && Reloaded(h, Reloaded(h, e)) == Reloaded(h, e)
  {
    SettledIsClean(h, e);
    PublicizeSettles(h, e.provenance, [], 0);
    SafeFixesExactlyCleanValues(h, Reloaded(h, e).provenance, [], 0);
    NotSecretAtTop(h, e.provenance);
  }

  lemma ListedTwice(h: Host, f: Facts)
    requires Sound(h)
    ensures Listed(h, Listed(h, f, true), true) == Listed(h, f, true)
    ensures Bounded(h, Listed(h, f, true).scope).Ok?
  {
    PublicRefIsPublic(h, f.scope);
  }

  // What of a loading finding its projection depends on.
  ghost predicate Projectable(h: Host, c: Content) {
    && |c.evidence| <= MAX_LISTED && AllFit(h, c.evidence) && RenderAll(h, c.evidence, true).Ok?
    && (forall i :: 0 <= i < |c.evidence| ==> Settled(h, c.evidence[i]))
    && c.status == Validated && c.faults == [] && Bounded(h, c.facts.scope).Ok?
  }

  lemma WrittenIs(h: Host, c: Content)
    requires Projectable(h, c)
    ensures Written(h, c, true) ==
              Ok(Record(c.state, Listed(h, c.facts, true), RenderAll(h, c.evidence, true).value, Validated, [],
                        c.digest))
  {
    assert First(c.evidence) == c.evidence;
  }

  lemma LoadingIsProjectable(h: Host, c: Content)
    requires Sound(h) && Reportable(h, c) && Loads(h, c)
    ensures Projectable(h, c) && Serialized(h, c, true) == Written(h, c, true)
  {
    PublicRoundTripExactly(h, c);
    ReportableIsAssured(h, c);
  }

  lemma AssuredIsWritten(h: Host, c: Content)
    requires Assured(GateOf(h), c)
    ensures Serialized(h, c, true) == Written(h, c, true)
  {
    ReportingChecksAssurance(GateOf(h), c);
  }

  lemma RebuiltIsProjectable(h: Host, c: Content)
    requires Sound(h) && Projectable(h, c)
    ensures Projectable(h, Rebuilt(h, c)) && Rebuilt(h, Rebuilt(h, c)) == Rebuilt(h, c)
    ensures Rebuilt(h, c) == c.(facts := Listed(h, c.facts, true), evidence := Reloads(h, c.evidence))
  {
    var d := Rebuilt(h, c);
    assert First(c.evidence) == c.evidence && First(d.evidence) == d.evidence;
    assert First(c.faults) == c.faults;
    ListedTwice(h, c.facts);
    forall i | 0 <= i < |d.evidence|
      ensures Settled(h, d.evidence[i]) && Reloaded(h, d.evidence[i]) == d.evidence[i] && StillFits(h, d.evidence[i])
    {
      assert StillFits(h, c.evidence[i]);
      ReloadedIsSettled(h, c.evidence[i]);
    }
    assert Reloads(h, d.evidence) == d.evidence;
    RendersReloaded(h, c.evidence);
    assert CoresFit(h, c.evidence) by {
      forall i | 0 <= i < |c.evidence| ensures Fits(Sanitized(h, Core(Reloaded(h, c.evidence[i])))) {
        assert StillFits(h, c.evidence[i]);
      }
    }
  }

  ghost predicate ShaKept(h: Host, e: Item) {
    Same(Sanitized(h, Core(e)), Sanitized(h, Core(Reloaded(h, e))))
  }

  lemma ShaKeptExactly(h: Host, e: Item)
    requires Sound(h) && Settled(h, e) && Render(h, e, true).Ok? && Render(h, Reloaded(h, e), true).Ok?
    ensures Render(h, Reloaded(h, e), true) == Render(h, e, true) <==> ShaKept(h, e)
  {
    ReloadedRenders(h, e);
    SafeIsValue(h, Core(e), [], 0);
    SafeIsValue(h, Core(Reloaded(h, e)), [], 0);
    DigestsEqual(Sanitized(h, Core(e)), Sanitized(h, Core(Reloaded(h, e))));
  }

  lemma WrittenAgain(h: Host, c: Content)
    requires Sound(h) && Projectable(h, c)
    ensures var d := Rebuilt(h, c);
      && Written(h, c, true).Ok? && Written(h, d, true).Ok?
      && var r, again := Written(h, c, true).value, Written(h, d, true).value;
      && again.(evidence := r.evidence) == r && |again.evidence| == |r.evidence|
      && (forall i :: 0 <= i < |r.evidence| ==> again.evidence[i].item == r.evidence[i].item)
      && (again == r <==> forall i :: 0 <= i < |c.evidence| ==> ShaKept(h, c.evidence[i]))
  {
    RebuiltIsProjectable(h, c);
    WrittenIs(h, c);
    WrittenIs(h, Rebuilt(h, c));
    ListedTwice(h, c.facts);
    RendersReloaded(h, c.evidence);
    ShasKept(h, c.evidence);
  }

  lemma ShasKept(h: Host, items: seq<Item>)
    requires Sound(h) && forall i :: 0 <= i < |items| ==> Settled(h, items[i])
    requires RenderAll(h, items, true).Ok? && RenderAll(h, Reloads(h, items), true).Ok?
    ensures RenderAll(h, Reloads(h, items), true) == RenderAll(h, items, true) <==>
              forall i :: 0 <= i < |items| ==> ShaKept(h, items[i])
  {
    var one, two := RenderAll(h, items, true).value, RenderAll(h, Reloads(h, items), true).value;
    forall i | 0 <= i < |items| ensures two[i] == one[i] <==> ShaKept(h, items[i]) {
      assert Render(h, items[i], true) == Ok(one[i]);
      assert Render(h, Reloads(h, items)[i], true) == Ok(two[i]);
      ShaKeptExactly(h, items[i]);
    }
    if two == one {
      forall i | 0 <= i < |items| ensures ShaKept(h, items[i]) {
        assert two[i] == one[i];
      }
    }
  }

  // Publishing the loaded finding gives the same record, item by item, except that
  // evidence_sha256 covers the provenance it was computed from: the records are equal exactly
  // when sanitizing sees no difference between the provenance and its public form.
  lemma RepublishedRecord(h: Host, c: Content)
    requires Sound(h) && Reportable(h, c) && Loads(h, c)
    ensures var r, again := Serialized(h, c, true).value, Serialized(h, Rebuilt(h, c), true);
      && again.Ok? && again.value.(evidence := r.evidence) == r && |again.value.evidence| == |r.evidence|
      && (forall i :: 0 <= i < |r.evidence| ==> again.value.evidence[i].item == r.evidence[i].item)
      && (again.value == r <==> forall i :: 0 <= i < |c.evidence| ==> ShaKept(h, c.evidence[i]))
  {
    PublicRoundTripExactly(h, c);
    LoadingIsProjectable(h, c);
    AssuredIsWritten(h, Rebuilt(h, c));
    WrittenAgain(h, c);
  }

  // From then on nothing changes: the loaded finding is its own public projection.
  lemma RepublishingIsStable(h: Host, c: Content)
    requires Sound(h) && Reportable(h, c) && Loads(h, c)
    ensures Reportable(h, Rebuilt(h, c)) && Rebuilt(h, Rebuilt(h, c)) == Rebuilt(h, c) && Loads(h, Rebuilt(h, c))
  {
    PublicRoundTripExactly(h, c);
    LoadingIsProjectable(h, c);
    RebuiltIsProjectable(h, c);
    AssuredIsWritten(h, Rebuilt(h, c));
    WrittenIs(h, Rebuilt(h, c));
    PublicRoundTripExactly(h, Rebuilt(h, c));
  }
}
