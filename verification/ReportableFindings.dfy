// Findings that the gate confirms: one that loads back from its public projection, one that
// does not because it has 21 items, and one that does not because its references lie deep.
module ReportableFindings {
  import opened Wrappers
  import opened Text
  import opened Json
  import opened JsonSize
  import opened Evidence
  import opened Findings
  import opened FindingStates
  import opened PublicRoundTrip
  import opened PublicSizes
  import opened DigestReach
  import opened FindingExamples

  // ---- What the digests make of the provenance ---------------------------------------------------

  // Provenance fields as recorded or as published.
  function Told(fs: seq<Field>, public: bool): (r: seq<Field>)
    ensures |r| == |fs| && forall i :: 0 <= i < |fs| ==> r[i].name == fs[i].name
  {
    if public then PublicFields(PlainHost(), fs) else fs
  }

  lemma PublicTextSize(t: Text)
    requires |t| <= 4
    ensures |PublicRef(PlainHost(), t)| == 23 && TextSize(PublicRef(PlainHost(), t)) == 23
  {
    NothingToStrip(t);
    var p := PublicRef(PlainHost(), t);
    assert p == PUBLIC_PREFIX + seq(64, _ => 48)[..16];
    assert forall i :: 7 <= i < 23 ==> p[i] == 48;
    PrintableSize(p);
  }

  lemma ToldBaseValue(i: nat, public: bool, depth: nat)
    requires i < 8 && depth <= MAX_DEPTH
    ensures Size(Safe(PlainHost(), Told(Base(), public)[i].value, Base()[i].name, depth), 1) <= 25
  {
    BaseValue(i);
    BaseValueSize(i);
    BaseNameIsNotSecret(i);
    PublicTextSize(Base()[i].value.s);
    var t := Told(Base(), public)[i].value;
    ShortText(t.s, Base()[i].name, depth);
  }

  // Below the fourth level the rows of the nested value are cut down to markers.
  lemma CutRows(v: Json, depth: nat)
    requires 2 <= depth <= 3
    ensures Size(Safe(PlainHost(), Nested(v), AUTHORIZATION_REFERENCE, depth), 1) <= 19_635
  {
    var h, key := PlainHost(), AUTHORIZATION_REFERENCE;
    PlainHostIsSound();
    AuthorizationIsRef(h);
    SafeNested(h, v, key, depth);
    var row := Safe(h, Copies(v, 100), key, depth + 4);
    MarkerSize();
    if depth == 2 {
      SafeCopies(h, v, 100, key, 6);
      RepeatedSize(Str(TRUNCATED), 100, 1);
    }
    assert Size(row, 1) <= 1401;
    RepeatedSize(row, 14, 1);
    SingleSize(Copies(row, 14));
    SingleSize(Single(Copies(row, 14)));
    SingleSize(Single(Single(Copies(row, 14))));
  }

  lemma ToldDeepField(public: bool)
    ensures Told([DeepField()], public)[0].value.Arr?
    ensures exists v :: Told([DeepField()], public)[0].value == Nested(v)
  {
    NestedPublic(PlainHost(), One(97), AUTHORIZATION_REFERENCE);
  }

  lemma ToldField(extra: seq<Field>, i: nat, public: bool, depth: nat)
    requires Shape(extra) && i < |Base() + extra| && 2 <= depth <= 3
    ensures var fs := Base() + extra;
      Size(Safe(PlainHost(), Told(fs, public)[i].value, fs[i].name, depth), 1) <= if i == 8 then 19_635 else 25
  {
    if i < 8 {
      ToldBaseValue(i, public, depth);
      assert (Base() + extra)[i] == Base()[i];
    } else {
      assert (Base() + extra)[i] == DeepField();
      ToldDeepField(public);
      var v :| Told([DeepField()], public)[0].value == Nested(v);
      CutRows(v, depth);
    }
  }

  function Cap(extra: seq<Field>): nat { if extra == [] then 418 else 20_105 }

  lemma ToldSize(extra: seq<Field>, public: bool, depth: nat)
    requires Shape(extra) && 1 <= depth <= 2
    ensures Size(Safe(PlainHost(), Obj(Told(Base() + extra, public)), PROVENANCE, depth), 1) <= Cap(extra)
  {
    ToldKept(extra, public, depth);
    ToldIsSmall(extra, public, depth);
    SizeOfTold(SafeFields(PlainHost(), Told(Base() + extra, public), depth + 1), extra);
  }

  lemma SizeOfTold(fs: seq<Field>, extra: seq<Field>)
    requires Small(fs, 23, 25, 8, 19_635) && |fs| == (if extra == [] then 8 else 9)
    ensures Size(Obj(fs), 1) <= Cap(extra)
  {
    SmallSize(fs, 23, 25, 8, 19_635);
  }

  lemma ToldKept(extra: seq<Field>, public: bool, depth: nat)
    requires Shape(extra) && depth <= MAX_DEPTH
    ensures var told := Told(Base() + extra, public);
      var safe := SafeFields(PlainHost(), told, depth + 1);
      && Safe(PlainHost(), Obj(told), PROVENANCE, depth) == Obj(safe)
      && |safe| == |told| == (if extra == [] then 8 else 9)
      && forall i :: 0 <= i < |safe| ==> safe[i].name == told[i].name
  {
    PlainHostIsSound();
    ProvenanceIsNotSecret(PlainHost());
    ProvenanceNames(extra);
    ObjectKept(PlainHost(), Told(Base() + extra, public), PROVENANCE, depth);
  }

  lemma ToldIsSmall(extra: seq<Field>, public: bool, depth: nat)
    requires Shape(extra) && 1 <= depth <= 2
    ensures Small(SafeFields(PlainHost(), Told(Base() + extra, public), depth + 1), 23, 25, 8, 19_635)
  {
    ToldKept(extra, public, depth);
    var safe := SafeFields(PlainHost(), Told(Base() + extra, public), depth + 1);
    forall i | 0 <= i < |safe|
      ensures PlainKey(safe[i].name) && |safe[i].name| <= 23 && Size(safe[i].value, 1) <= if i == 8 then 19_635 else 25
    {
      ToldFieldIsSmall(extra, public, depth, i);
    }
  }

  lemma ToldFieldIsSmall(extra: seq<Field>, public: bool, depth: nat, i: nat)
    requires Shape(extra) && 1 <= depth <= 2 && i < |Base() + extra|
    ensures var f := SafeFields(PlainHost(), Told(Base() + extra, public), depth + 1)[i];
      PlainKey(f.name) && |f.name| <= 23 && Size(f.value, 1) <= if i == 8 then 19_635 else 25
  {
    ToldKept(extra, public, depth);
    ProvenanceField(extra, i);
    ToldField(extra, i, public, depth + 1);
  }

  // ---- What the digests make of the item ---------------------------------------------------------

  function ToldItem(extra: seq<Field>, public: bool): Item {
    Example(extra).(provenance := Obj(Told(Base() + extra, public)))
  }

  lemma ToldItemIs(extra: seq<Field>)
    ensures ToldItem(extra, false) == Example(extra)
    ensures ToldItem(extra, true) == Public(PlainHost(), Example(extra))
  {}

  // A part of the item that sanitizing leaves alone under its name.
  lemma PartSize(v: Json, key: Text, depth: nat)
    requires Clean(PlainHost(), v, [], 0) && Within(v, SEEN) && !Secret(PlainHost(), key)
    requires 1 <= depth <= 2 && Size(v, 1) <= 104
    ensures Size(Safe(PlainHost(), v, key, depth), 1) <= 104
  {
    PlainHostIsSound();
    SafeUnderKey(PlainHost(), v, key);
  }

  lemma ExpectedPart(depth: nat)
    requires 1 <= depth <= 2
    ensures Size(Safe(PlainHost(), Expected(), Ascii("expected"), depth), 1) <= 104
  {
    PlainHostIsSound();
    ComparedKeysAreNotSecret(PlainHost());
    ExpectedIsClean();
    ExpectedSize();
    PartsAreWithin();
    PartSize(Expected(), Ascii("expected"), depth);
  }

  lemma ObservedPart(depth: nat)
    requires 1 <= depth <= 2
    ensures Size(Safe(PlainHost(), Observed(), Ascii("observed"), depth), 1) <= 104
  {
    PlainHostIsSound();
    ComparedKeysAreNotSecret(PlainHost());
    ObservedIsClean();
    ObservedSize();
    PartsAreWithin();
    PartSize(Observed(), Ascii("observed"), depth);
  }

  lemma RequestPart(depth: nat)
    requires 1 <= depth <= 2
    ensures Size(Safe(PlainHost(), Request(), Ascii("request"), depth), 1) <= 104
  {
    PlainHostIsSound();
    ExchangeKeysAreNotSecret(PlainHost());
    RequestIsClean();
    RequestSize();
    PartsAreWithin();
    PartSize(Request(), Ascii("request"), depth);
  }

  lemma ResponsePart(depth: nat)
    requires 1 <= depth <= 2
    ensures Size(Safe(PlainHost(), Obj([]), Ascii("response"), depth), 1) <= 104
  {
    PlainHostIsSound();
    ExchangeKeysAreNotSecret(PlainHost());
    ResponseIsClean();
    assert Size(Obj([]), 1) == 2;
    PartSize(Obj([]), Ascii("response"), depth);
  }

  lemma PartsAreWithin()
    ensures Within(Expected(), SEEN) && Within(Observed(), SEEN) && Within(Request(), SEEN)
  {
    assert Within(Body(), 2);
  }

  lemma NamePartsSize(depth: nat)
    requires 1 <= depth <= 2
    ensures Size(Safe(PlainHost(), Str(COMPARISON), Ascii("kind"), depth), 1) <= 104
    ensures Size(Safe(PlainHost(), Str([115]), Ascii("source"), depth), 1) <= 104
  {
    PlainHostIsSound();
    KindIsNotSecret(PlainHost());
    SourceIsNotSecret(PlainHost());
    assert PlainKey(COMPARISON) && |COMPARISON| == 35;
    PlainKeySize(COMPARISON);
    PlainKeySize([115]);
    ShortText(COMPARISON, Ascii("kind"), depth);
    ShortText([115], Ascii("source"), depth);
  }

  // The sizes of an item's parts as a digest covers them.
  ghost predicate SmallParts(h: Host, e: Item, depth: nat, cap: nat) {
    && Size(Safe(h, Str(e.kind), Ascii("kind"), depth), 1) <= 104
    && Size(Safe(h, Str(e.source), Ascii("source"), depth), 1) <= 104
    && Size(Safe(h, e.expected, Ascii("expected"), depth), 1) <= 104
    && Size(Safe(h, e.observed, Ascii("observed"), depth), 1) <= 104
    && Size(Safe(h, e.provenance, PROVENANCE, depth), 1) <= cap
    && Size(Safe(h, e.request, Ascii("request"), depth), 1) <= 104
    && Size(Safe(h, e.response, Ascii("response"), depth), 1) <= 104
  }

  lemma ExampleParts(extra: seq<Field>, public: bool, depth: nat)
    requires Shape(extra) && 1 <= depth <= 2
    ensures SmallParts(PlainHost(), ToldItem(extra, public), depth, Cap(extra))
  {
    NamePartsSize(depth);
    ExpectedPart(depth);
    ObservedPart(depth);
    RequestPart(depth);
    ResponsePart(depth);
    ToldSize(extra, public, depth);
  }

  lemma ShownPart(h: Host, e: Item, i: nat, depth: nat, cap: nat)
    requires SmallParts(h, e, depth, cap) && i < 7
    ensures var f := Shown(e).fields[i]; Size(Safe(h, f.value, f.name, depth), 1) <= if i == 4 then cap else 104
  {
    assert i == 0 || i == 1 || i == 2 || i == 3 || i == 4 || i == 5 || i == 6;
  }

  lemma ShownNameIsPlain(e: Item, i: nat)
    requires i < 7
    ensures PlainKey(Shown(e).fields[i].name) && |Shown(e).fields[i].name| <= 10
  {
    assert PlainKey(Ascii("kind")) && PlainKey(Ascii("source")) && PlainKey(Ascii("expected"));
    assert PlainKey(Ascii("observed")) && PlainKey(Ascii("provenance")) && PlainKey(Ascii("request"));
    assert PlainKey(Ascii("response"));
    assert i == 0 || i == 1 || i == 2 || i == 3 || i == 4 || i == 5 || i == 6;
  }

  lemma DigestedField(h: Host, e: Item, fs: seq<Field>, depth: nat, i: nat, cap: nat)
    requires SmallParts(h, e, depth, cap) && fs <= Shown(e).fields && i < |fs| <= MAX_ITEMS
    ensures var f := SafeFields(h, fs, depth)[i];
      PlainKey(f.name) && |f.name| <= 10 && Size(f.value, 1) <= if i == 4 then cap else 104
  {
    assert |Shown(e).fields| == 7 && fs[i] == Shown(e).fields[i];
    ShownNameIsPlain(e, i);
    ShownPart(h, e, i, depth, cap);
    assert Cut(fs[i].name) == fs[i].name;
  }

  lemma DigestedFields(h: Host, e: Item, fs: seq<Field>, depth: nat, cap: nat)
    requires SmallParts(h, e, depth, cap) && fs <= Shown(e).fields
    ensures Small(SafeFields(h, fs, depth), 10, 104, 4, cap) && |SafeFields(h, fs, depth)| <= 7
  {
    assert |Shown(e).fields| == 7;
    forall i | 0 <= i < |fs| {
      DigestedField(h, e, fs, depth, i, cap);
    }
  }

  lemma SizeOfSmall(fs: seq<Field>, cap: nat)
    requires Small(fs, 10, 104, 4, cap) && |fs| <= 7
    ensures Size(Obj(fs), 1) <= 828 + cap
  {
    SmallSize(fs, 10, 104, 4, cap);
  }

  // The fields of the item, or the first of them, as a digest covers them.
  lemma DigestedSize(extra: seq<Field>, public: bool, fs: seq<Field>, depth: nat)
    requires Shape(extra) && 1 <= depth <= 2 && fs <= Shown(ToldItem(extra, public)).fields
    ensures Size(Obj(SafeFields(PlainHost(), fs, depth)), 1) <= 828 + Cap(extra)
  {
    ExampleParts(extra, public, depth);
    DigestedFields(PlainHost(), ToldItem(extra, public), fs, depth, Cap(extra));
    SizeOfSmall(SafeFields(PlainHost(), fs, depth), Cap(extra));
  }

  lemma CoreSize(extra: seq<Field>)
    requires Shape(extra)
    ensures StableDigest(PlainHost(), Core(Example(extra))).Ok?
  {
    var e := Example(extra);
    PlainHostIsSound();
    ToldItemIs(extra);
    SafeCore(PlainHost(), e);
    assert Core(e).fields <= Shown(e).fields;
    DigestedSize(extra, false, Core(e).fields, 1);
  }

  lemma ShownSize(extra: seq<Field>)
    requires Shape(extra)
    ensures Size(Safe(PlainHost(), Shown(Public(PlainHost(), Example(extra))), [], 1), 1) <= 828 + Cap(extra)
  {
    var p := Public(PlainHost(), Example(extra));
    PlainHostIsSound();
    ToldItemIs(extra);
    SafeCore(PlainHost(), p);
    DigestedSize(extra, true, Shown(p).fields, 2);
  }

  // ---- The finding --------------------------------------------------------------------------------

  function Repeated(extra: seq<Field>, n: nat): (r: seq<Item>)
    ensures |r| == n && forall i :: 0 <= i < n ==> r[i] == Example(extra)
  {
    seq(n, _ => Example(extra))
  }

  lemma PublishableText(t: Text, key: Text)
    requires 1 <= |t| <= 4
    ensures Publishable(PlainHost(), Str(t), key)
  {
    NothingToStrip(t);
  }

  lemma PublishableRows(v: Json, key: Text)
    requires Publishable(PlainHost(), v, key)
    ensures Publishable(PlainHost(), Nested(v), key)
  {
    var h := PlainHost();
    assert Publishable(h, Copies(v, 100), key);
    assert Publishable(h, Copies(Copies(v, 100), 14), key);
    assert Publishable(h, Single(Copies(Copies(v, 100), 14)), key);
    assert Publishable(h, Single(Single(Copies(Copies(v, 100), 14))), key);
  }

  lemma ProvenanceIsPublishable(extra: seq<Field>)
    requires Shape(extra)
    ensures Publishable(PlainHost(), Obj(Base() + extra), [])
  {
    var fs := Base() + extra;
    forall i | 0 <= i < |fs| ensures Publishable(PlainHost(), fs[i].value, fs[i].name) {
      if i < 8 {
        BaseValue(i);
        PublishableText(fs[i].value.s, fs[i].name);
      } else {
        assert fs[i] == DeepField();
        PublishableText([97], AUTHORIZATION_REFERENCE);
        PublishableRows(One(97), AUTHORIZATION_REFERENCE);
      }
    }
    assert PublishableFields(PlainHost(), fs);
  }

  lemma ExampleRenders(extra: seq<Field>)
    requires Shape(extra)
    ensures Render(PlainHost(), Example(extra), true).Ok?
  {
    ProvenanceIsPublishable(extra);
    CoreSize(extra);
  }

  lemma SanitizedCopies(extra: seq<Field>, n: nat)
    requires n <= MAX_ITEMS
    ensures Sanitized(PlainHost(), Canonical(PlainHost(), Repeated(extra, n))) ==
              Copies(Safe(PlainHost(), Shown(Public(PlainHost(), Example(extra))), [], 1), n)
  {
    var h := PlainHost();
    TopIsNotSecret();
    var canon := Canonical(h, Repeated(extra, n));
    var shown := Shown(Public(h, Example(extra)));
    assert canon.items == Copies(shown, n).items;
    SafeCopies(h, shown, n, [], 0);
  }

  lemma Scaled(n: nat, x: nat, m: nat)
    requires x <= m
    ensures n * x <= n * m && n * (m + 1) == n * m + n
  {}

  lemma CopiesFit(v: Json, n: nat, m: nat)
    requires Size(v, 1) <= m && n * (m + 1) <= 30_000
    ensures Fits(Copies(v, n))
  {
    RepeatedSize(v, n, 1);
    Scaled(n, Size(v, 1), m);
  }

  lemma CanonicalFits(extra: seq<Field>, n: nat)
    requires Shape(extra) && n * (829 + Cap(extra)) <= 30_000 && n <= MAX_ITEMS
    ensures Fits(Sanitized(PlainHost(), Canonical(PlainHost(), Repeated(extra, n))))
  {
    ShownSize(extra);
    SanitizedCopies(extra, n);
    CopiesFit(Safe(PlainHost(), Shown(Public(PlainHost(), Example(extra))), [], 1), n, 828 + Cap(extra));
  }

  lemma DigestFollows(h: Host, items: seq<Item>)
    requires RenderAll(h, items, true).Ok? && Fits(Sanitized(h, Canonical(h, items)))
    ensures EvidenceDigest(h, items).Ok?
  {}

  lemma ExamplesRender(extra: seq<Field>, n: nat)
    requires Shape(extra)
    ensures RenderAll(PlainHost(), Repeated(extra, n), true).Ok?
  {
    ExampleRenders(extra);
  }

  lemma ExamplesAreValid(extra: seq<Field>, n: nat)
    requires Shape(extra) && n > 0
    ensures Faults(PlainHost(), ExampleFacts(), Repeated(extra, n), REPORT_READY) == []
  {
    ExampleDemonstrates(extra);
    ValidMeans(PlainHost(), ExampleFacts(), Repeated(extra, n), REPORT_READY);
  }

  // What a reportable finding is assembled from.
  ghost predicate Sources(h: Host, f: Facts, items: seq<Item>) {
    && Bounded(h, f.scope).Ok? && RenderAll(h, items, true).Ok? && EvidenceDigest(h, items).Ok?
    && Faults(h, f, items, REPORT_READY) == [] && forall i :: 0 <= i < |items| ==> Settled(h, items[i])
  }

  lemma Assembled(h: Host, f: Facts, items: seq<Item>) returns (c: Content)
    requires Sources(h, f, items)
    ensures Reportable(h, c) && c.evidence == items
  {
    c := Content(f, items, REPORT_READY, Validated, [], EvidenceDigest(h, items).value);
    GateIs(h, f, items, c.state);
    AssuredIsWritten(h, c);
    WrittenWhenRendered(h, c);
  }

  lemma WrittenWhenRendered(h: Host, c: Content)
    requires Bounded(h, c.facts.scope).Ok? && RenderAll(h, c.evidence, true).Ok?
    ensures Written(h, c, true).Ok?
  {
    assert RenderAll(h, First(c.evidence), true).Ok?;
  }

  lemma ExampleSources(extra: seq<Field>, n: nat)
    requires Shape(extra) && 0 < n <= MAX_ITEMS && n * (829 + Cap(extra)) <= 30_000
    ensures Sources(PlainHost(), ExampleFacts(), Repeated(extra, n))
  {
    ExamplesRender(extra, n);
    CanonicalFits(extra, n);
    DigestFollows(PlainHost(), Repeated(extra, n));
    ExamplesAreValid(extra, n);
    NamesAreBounded();
    ExampleIsSettled(extra);
  }

  // n items of this shape make a finding that is reported.
  lemma ReportableExample(extra: seq<Field>, n: nat) returns (c: Content)
    requires Shape(extra) && 0 < n <= MAX_ITEMS && n * (829 + Cap(extra)) <= 30_000
    ensures Reportable(PlainHost(), c) && c.evidence == Repeated(extra, n)
  {
    ExampleSources(extra, n);
    c := Assembled(PlainHost(), ExampleFacts(), Repeated(extra, n));
  }

  lemma ExampleIsShallow()
    ensures Shallow(Example([]))
  {
    PartsAreWithin();
    forall i | 0 <= i < 8 ensures Within((Base() + [])[i].value, 3) {
      BaseValue(i);
    }
  }

  ghost predicate AllShallow(items: seq<Item>) {
    forall i :: 0 <= i < |items| ==> Shallow(items[i])
  }

  lemma ExamplesAreShallow(n: nat)
    ensures AllShallow(Repeated([], n))
  {
    ExampleIsShallow();
  }

  lemma ShallowExamplesLoad(h: Host, c: Content)
    requires Sound(h) && Reportable(h, c) && |c.evidence| == 1 && AllShallow(c.evidence)
    ensures Loads(h, c)
  {
    ShallowFindingsLoad(h, c);
  }

  // One plain item makes a finding that is reported and loads back from its projection.
  lemma OneItemLoads() returns (c: Content)
    ensures Reportable(PlainHost(), c) && |c.evidence| == 1 && Loads(PlainHost(), c)
  {
    c := ReportableExample([], 1);
    PlainHostIsSound();
    ExamplesAreShallow(1);
    ShallowExamplesLoad(PlainHost(), c);
  }

  // 21 such items are reported, but what is published of them does not load back.
  lemma TwentyOneItemsDoNotLoad() returns (c: Content)
    ensures Reportable(PlainHost(), c) && |c.evidence| == 21 && !Loads(PlainHost(), c)
  {
    c := ReportableExample([], 21);
    PlainHostIsSound();
    PublicRoundTripExactly(PlainHost(), c);
  }

  lemma DeepIsWithin(v: Json)
    requires v.Str?
    ensures Within(Nested(v), 5)
  {
    assert Within(Copies(v, 100), 1);
    assert Within(Copies(Copies(v, 100), 14), 2);
    assert Within(Single(Copies(Copies(v, 100), 14)), 3);
    assert Within(Single(Single(Copies(Copies(v, 100), 14))), 4);
  }

  lemma DeepProvenanceIsWithin()
    ensures Within(Obj(Base() + [DeepField()]), 6)
  {
    var fs := Base() + [DeepField()];
    DeepIsWithin(One(97));
    forall i | 0 <= i < 9 ensures Within(fs[i].value, 5) {
      if i < 8 {
        BaseValue(i);
      }
    }
  }

  // What of a provenance nested six levels deep is loaded back.
  lemma DeepReload(h: Host, e: Item)
    requires Sound(h) && e.provenance.Obj? && Clean(h, e.provenance, [], 0) && Within(e.provenance, 6)
    ensures Reloaded(h, e).provenance == Obj(PublicFields(h, e.provenance.fields))
  {
    PublicStaysClean(h, e.provenance, [], 0, 6);
    SafeFixesExactlyCleanValues(h, Publicize(h, e.provenance, []), [], 0);
  }

  lemma ReloadedDeepField()
    ensures var p := Reloaded(PlainHost(), Example([DeepField()])).provenance;
      p.Obj? && |p.fields| == 9 && p.fields[8].value == Nested(Str(PublicRef(PlainHost(), [97])))
  {
    PlainHostIsSound();
    ProvenanceIsClean([DeepField()]);
    DeepProvenanceIsWithin();
    DeepReload(PlainHost(), Example([DeepField()]));
    AuthorizationIsRef(PlainHost());
    NestedPublic(PlainHost(), One(97), AUTHORIZATION_REFERENCE);
  }

  lemma DeepProvenanceDoesNotFit()
    ensures !Fits(Reloaded(PlainHost(), Example([DeepField()])).provenance)
  {
    ReloadedDeepField();
    var p := Reloaded(PlainHost(), Example([DeepField()])).provenance;
    FieldSmaller(p.fields, 8, 1);
    PublicTextSize([97]);
    NestedSize(Str(PublicRef(PlainHost(), [97])));
  }

  lemma UnfitItemDoesNotLoad(h: Host, c: Content, e: Item)
    requires Sound(h) && Reportable(h, c) && |c.evidence| == 1 && c.evidence[0] == e
    requires !Fits(Reloaded(h, e).provenance)
    ensures !Loads(h, c)
  {
    PublicRoundTripExactly(h, c);
    assert !StillFits(h, c.evidence[0]);
  }

  // Nor does one item that carries 1,400 references five levels below its provenance.
  lemma DeepItemDoesNotLoad() returns (c: Content)
    ensures Reportable(PlainHost(), c) && |c.evidence| == 1 && !Loads(PlainHost(), c)
  {
    c := ReportableExample([DeepField()], 1);
    PlainHostIsSound();
    DeepProvenanceDoesNotFit();
    UnfitItemDoesNotLoad(PlainHost(), c, Example([DeepField()]));
  }
}
