// Findings that the gate confirms: one that loads back, one with 21 items that does not, and
// one whose deep references do not.
module FindingExamples {
  import opened Wrappers
  import opened Text
  import opened Json
  import opened JsonSize
  import opened Evidence
  import opened Findings
  import opened FindingStates
  import opened PublicRoundTrip
  import opened PublicSizes
  import opened DigestReach

  // A host without white space or secrets, under which every URL reads "//h/r".
  function PlainHost(): Host {
    Host(t => t, t => t, c => false, t => seq(64, _ => 48), t => Url([104], [47, 114], [[114]]), t => [104], t => [])
  }

  lemma PlainHostIsSound()
    ensures Sound(PlainHost())
  {
    var h := PlainHost();
    forall t ensures Leaf(h, PublicRef(h, t)) == PublicRef(h, t) {
      assert |PublicRef(h, t)| == 23;
    }
  }

  // ---- The item --------------------------------------------------------------------------------

  function One(c: Char): Json { Str([c]) }

  function Base(): seq<Field> {
    [Field(OWNER, One(97)), Field(TEST, One(98)), Field(RESOURCE, One(114)), Field(ENDPOINT, One(101)),
     Field(SCOPE_REFERENCE, One(115)), Field(DECISION, DENY), Field(MODEL, One(109)), Field(BASIS, One(112))]
  }

  function Body(): Json { Obj([Field(Ascii("owner_id"), Num(1))]) }

  function Expected(): Json {
    Obj([Field(Ascii("policy_decision"), DENY), Field(Ascii("status"), Num(403)), Field(Ascii("body"), Body())])
  }

  function Observed(): Json { Obj([Field(Ascii("status"), Num(200)), Field(Ascii("body"), Body())]) }

  function Request(): Json {
    Obj([Field(Ascii("identity"), One(98)), Field(Ascii("url"), One(117)), Field(Ascii("method"), One(103))])
  }

  function Example(extra: seq<Field>): Item {
    Item(COMPARISON, [115], Expected(), Observed(), Obj(Base() + extra), Request(), Obj([]))
  }

  function ExampleFacts(): Facts {
    Facts([115], IDOR, [104], [101], 1.0, [120], [121], [[49]], [], [], [], [])
  }

  // 1,400 references five levels below the provenance.
  function DeepField(): Field { Field(AUTHORIZATION_REFERENCE, Nested(One(97))) }

  predicate Shape(extra: seq<Field>) { extra == [] || extra == [DeepField()] }

  // ---- Names -----------------------------------------------------------------------------------

  lemma BaseNames()
    ensures |Base()| == 8 && DistinctNames(Base()) && forall i :: 0 <= i < 8 ==> |Base()[i].name| <= 22
  {
    var b := Base();
    assert |b[0].name| == 14 && |b[1].name| == 13 && |b[2].name| == 11 && |b[3].name| == 11;
    assert |b[4].name| == 15 && |b[5].name| == 22 && |b[6].name| == 12 && |b[7].name| == 12;
    assert b[2].name[0] == 114 && b[3].name[0] == 101;
    assert b[6].name[7] == 109 && b[7].name[7] == 98;
  }

  lemma ProvenanceNames(extra: seq<Field>)
    requires Shape(extra)
    ensures var fs := Base() + extra;
      DistinctNames(fs) && |fs| <= 9 && forall i :: 0 <= i < |fs| ==> |fs[i].name| <= 23
  {
    BaseNames();
    assert |AUTHORIZATION_REFERENCE| == 23;
  }

  // A key that differs from every secret key in length or in one of its first two letters.
  lemma KeyIsNotSecret(key: Text)
    requires PlainKey(key) && |key| >= 2
    requires forall k :: k in SECRET_KEYS ==> |k| != |key| || k[0] != key[0] || k[1] != key[1]
    ensures !Secret(PlainHost(), key)
  {
    assert Normalized(PlainHost(), key) == key;
  }

  lemma IdentityNamesAreNotSecret()
    ensures !Secret(PlainHost(), OWNER) && !Secret(PlainHost(), TEST) && !Secret(PlainHost(), RESOURCE)
  {
    IdentityKeysAreReferenceFree();
    KeyIsNotSecret(OWNER);
    assert TEST[0] == 116 && RESOURCE[0] == 114 && RESOURCE[1] == 101;
    KeyIsNotSecret(TEST);
    KeyIsNotSecret(RESOURCE);
  }

  lemma PolicyNamesAreNotSecret()
    ensures !Secret(PlainHost(), ENDPOINT) && !Secret(PlainHost(), MODEL) && !Secret(PlainHost(), BASIS)
  {
    PolicyKeysAreReferenceFree();
    assert ENDPOINT[0] == 101 && MODEL[0] == 112 && BASIS[0] == 112;
    KeyIsNotSecret(ENDPOINT);
    KeyIsNotSecret(MODEL);
    KeyIsNotSecret(BASIS);
  }

  lemma OtherNamesAreNotSecret()
    ensures !Secret(PlainHost(), SCOPE_REFERENCE) && !Secret(PlainHost(), DECISION)
  {
    DecisionKeyIsReferenceFree();
    assert PlainKey(SCOPE_REFERENCE);
    KeyIsNotSecret(SCOPE_REFERENCE);
    KeyIsNotSecret(DECISION);
  }

  lemma BodyNamesAreNotSecret()
    ensures !Secret(PlainHost(), Ascii("policy_decision")) && !Secret(PlainHost(), Ascii("body"))
    ensures !Secret(PlainHost(), Ascii("owner_id"))
  {
    DecidedIsNotSecret();
    BodyIsNotSecret();
    OwnerIdIsNotSecret();
  }

  lemma DecidedIsNotSecret()
    ensures !Secret(PlainHost(), Ascii("policy_decision"))
  {
    assert PlainKey(Ascii("policy_decision"));
    KeyIsNotSecret(Ascii("policy_decision"));
  }

  lemma BodyIsNotSecret()
    ensures !Secret(PlainHost(), Ascii("body"))
  {
    assert PlainKey(Ascii("body"));
    KeyIsNotSecret(Ascii("body"));
  }

  lemma OwnerIdIsNotSecret()
    ensures !Secret(PlainHost(), Ascii("owner_id"))
  {
    assert PlainKey(Ascii("owner_id")) && Ascii("owner_id")[0] == 111;
    KeyIsNotSecret(Ascii("owner_id"));
  }

  lemma StatusIsNotSecret()
    ensures !Secret(PlainHost(), Ascii("status"))
  {
    assert PlainKey(Ascii("status")) && Ascii("status")[0] == 115 && Ascii("status")[1] == 116;
    KeyIsNotSecret(Ascii("status"));
  }

  lemma RequestNamesAreNotSecret()
    ensures !Secret(PlainHost(), Ascii("identity")) && !Secret(PlainHost(), Ascii("url"))
    ensures !Secret(PlainHost(), Ascii("method"))
  {
    IdentityIsNotSecret();
    UrlIsNotSecret();
    MethodIsNotSecret();
  }

  lemma IdentityIsNotSecret()
    ensures !Secret(PlainHost(), Ascii("identity"))
  {
    assert PlainKey(Ascii("identity")) && Ascii("identity")[0] == 105;
    KeyIsNotSecret(Ascii("identity"));
  }

  lemma UrlIsNotSecret()
    ensures !Secret(PlainHost(), Ascii("url"))
  {
    assert PlainKey(Ascii("url"));
    KeyIsNotSecret(Ascii("url"));
  }

  lemma MethodIsNotSecret()
    ensures !Secret(PlainHost(), Ascii("method"))
  {
    assert PlainKey(Ascii("method")) && Ascii("method")[0] == 109;
    KeyIsNotSecret(Ascii("method"));
  }

  // ---- Every part is left alone by the constructor ---------------------------------------------

  lemma TopIsNotSecret()
    ensures !Secret(PlainHost(), [])
  {
    PlainHostIsSound();
    AuthorizationIsRef(PlainHost());
  }

  lemma ShortText(t: Text, key: Text, depth: nat)
    requires |t| <= MAX_EXCERPT && depth <= MAX_DEPTH && !Secret(PlainHost(), key)
    ensures Safe(PlainHost(), Str(t), key, depth) == Str(t) && Clean(PlainHost(), Str(t), key, depth)
  {}

  lemma DeepIsClean()
    ensures Clean(PlainHost(), Nested(One(97)), AUTHORIZATION_REFERENCE, 1)
  {
    PlainHostIsSound();
    AuthorizationIsRef(PlainHost());
    NestedIsKept(PlainHost(), [97], AUTHORIZATION_REFERENCE);
    SafeFixesExactlyCleanValues(PlainHost(), Nested(One(97)), AUTHORIZATION_REFERENCE, 1);
  }

  lemma BaseNameIsNotSecret(i: nat)
    requires i < 8
    ensures !Secret(PlainHost(), Base()[i].name)
  {
    IdentityNamesAreNotSecret();
    PolicyNamesAreNotSecret();
    OtherNamesAreNotSecret();
    assert i == 0 || i == 1 || i == 2 || i == 3 || i == 4 || i == 5 || i == 6 || i == 7;
  }

  lemma BaseValue(i: nat)
    requires i < 8
    ensures Base()[i].value.Str? && 1 <= |Base()[i].value.s| <= 4
  {
    assert i == 0 || i == 1 || i == 2 || i == 3 || i == 4 || i == 5 || i == 6 || i == 7;
  }

  lemma ProvenanceIsClean(extra: seq<Field>)
    requires Shape(extra)
    ensures Clean(PlainHost(), Obj(Base() + extra), [], 0)
  {
    var fs := Base() + extra;
    TopIsNotSecret();
    ProvenanceNames(extra);
    DeepIsClean();
    forall i | 0 <= i < |fs| ensures Clean(PlainHost(), fs[i].value, fs[i].name, 1) {
      if i < 8 {
        BaseNameIsNotSecret(i);
        BaseValue(i);
        ShortText(fs[i].value.s, fs[i].name, 1);
      } else {
        assert fs[i] == DeepField();
      }
    }
    assert CleanFields(PlainHost(), fs, 1);
  }

  lemma BodyIsClean()
    ensures Clean(PlainHost(), Body(), Ascii("body"), 1)
  {
    BodyNamesAreNotSecret();
    assert CleanFields(PlainHost(), Body().fields, 2);
  }

  lemma ExpectedIsClean()
    ensures Clean(PlainHost(), Expected(), [], 0) && DistinctNames(Expected().fields)
  {
    TopIsNotSecret();
    BodyNamesAreNotSecret();
    StatusIsNotSecret();
    BodyIsClean();
    ShortText(DENY.s, Ascii("policy_decision"), 1);
    var fs := Expected().fields;
    assert |fs[0].name| == 15 && |fs[1].name| == 6 && |fs[2].name| == 4;
    assert CleanFields(PlainHost(), fs, 1);
  }

  lemma ObservedIsClean()
    ensures Clean(PlainHost(), Observed(), [], 0) && DistinctNames(Observed().fields)
  {
    TopIsNotSecret();
    StatusIsNotSecret();
    BodyIsClean();
    var fs := Observed().fields;
    assert |fs[0].name| == 6 && |fs[1].name| == 4;
    assert CleanFields(PlainHost(), fs, 1);
  }

  lemma RequestIsClean()
    ensures Clean(PlainHost(), Request(), [], 0) && DistinctNames(Request().fields)
  {
    TopIsNotSecret();
    RequestNamesAreNotSecret();
    ShortText([98], Ascii("identity"), 1);
    ShortText([117], Ascii("url"), 1);
    ShortText([103], Ascii("method"), 1);
    var fs := Request().fields;
    assert |fs[0].name| == 8 && |fs[1].name| == 3 && |fs[2].name| == 6;
    assert CleanFields(PlainHost(), fs, 1);
  }

  lemma ResponseIsClean()
    ensures Clean(PlainHost(), Obj([]), [], 0)
  {
    assert CleanFields(PlainHost(), [], 1);
  }

  // ---- Every part fits -------------------------------------------------------------------------

  lemma PlainKeySize(t: Text)
    requires PlainKey(t)
    ensures TextSize(t) == |t|
  {
    PrintableSize(t);
  }

  // Fields of small names and values, except that the value at j may be big.
  ghost predicate Small(fs: seq<Field>, k: nat, m: nat, j: nat, big: nat) {
    forall i :: 0 <= i < |fs| ==>
      PlainKey(fs[i].name) && |fs[i].name| <= k && Size(fs[i].value, 1) <= if i == j then big else m
  }

  lemma {:induction false} SmallSize(fs: seq<Field>, k: nat, m: nat, j: nat, big: nat)
    requires Small(fs, k, m, j, big)
    ensures FieldsSize(fs, 1) <= |fs| * (k + m + 4) + if j < |fs| then big else 0
  {
    if fs != [] {
      var n := |fs| - 1;
      SmallSize(fs[..n], k, m, j, big);
      PlainKeySize(fs[n].name);
      Distribute(|fs|, k + m + 4);
    }
  }

  lemma BaseNameIsPlain(i: nat)
    requires i < 8
    ensures PlainKey(Base()[i].name)
  {
    IdentityKeysAreReferenceFree();
    PolicyKeysAreReferenceFree();
    DecisionKeyIsReferenceFree();
    assert PlainKey(SCOPE_REFERENCE);
    assert i == 0 || i == 1 || i == 2 || i == 3 || i == 4 || i == 5 || i == 6 || i == 7;
  }

  lemma ShortTextSize(t: Text)
    requires |t| <= 4 && forall i :: 0 <= i < |t| ==> 65 <= t[i] < 90 || 97 <= t[i] < 127
    ensures Size(Str(t), 1) <= 6
  {
    PrintableSize(t);
  }

  lemma BaseValueSize(i: nat)
    requires i < 8
    ensures Size(Base()[i].value, 1) <= 6
  {
    BaseValue(i);
    assert i == 0 || i == 1 || i == 2 || i == 3 || i == 4 || i == 5 || i == 6 || i == 7;
    ShortTextSize(Base()[i].value.s);
  }

  lemma ProvenanceField(extra: seq<Field>, i: nat)
    requires Shape(extra) && i < |Base() + extra|
    ensures var f := (Base() + extra)[i];
      PlainKey(f.name) && |f.name| <= 23 && Size(f.value, 1) <= if i == 8 then 5635 else 6
  {
    ProvenanceNames(extra);
    if i < 8 {
      BaseNameIsPlain(i);
      BaseValueSize(i);
    } else {
      assert (Base() + extra)[i] == DeepField();
      NestedSize(One(97));
      PrintableSize([97]);
      assert PlainKey(AUTHORIZATION_REFERENCE);
    }
  }

  lemma ProvenanceFitsBound(extra: seq<Field>)
    requires Shape(extra)
    ensures Fits(Obj(Base() + extra))
  {
    var fs := Base() + extra;
    forall i | 0 <= i < |fs|
      ensures PlainKey(fs[i].name) && |fs[i].name| <= 23 && Size(fs[i].value, 1) <= if i == 8 then 5635 else 6
    {
      ProvenanceField(extra, i);
    }
    SmallSize(fs, 23, 6, 8, 5635);
  }

  lemma BodySize()
    ensures Size(Body(), 1) <= 15
  {
    var fs := Body().fields;
    assert PlainKey(fs[0].name);
    SmallSize(fs, 8, 1, 1, 0);
  }

  lemma ExpectedSize()
    ensures Size(Expected(), 1) <= 104
  {
    BodySize();
    ShortTextSize(DENY.s);
    var fs := Expected().fields;
    assert PlainKey(fs[0].name) && PlainKey(fs[1].name) && PlainKey(fs[2].name);
    SmallSize(fs, 15, 15, 3, 0);
  }

  lemma ObservedSize()
    ensures Size(Observed(), 1) <= 104
  {
    BodySize();
    var fs := Observed().fields;
    assert PlainKey(fs[0].name) && PlainKey(fs[1].name);
    SmallSize(fs, 6, 15, 2, 0);
  }

  lemma RequestNamesArePlain()
    ensures forall i :: 0 <= i < 3 ==> PlainKey(Request().fields[i].name) && |Request().fields[i].name| <= 8
  {
    var fs := Request().fields;
    assert PlainKey(fs[0].name) && PlainKey(fs[1].name) && PlainKey(fs[2].name);
  }

  lemma RequestValueSize(i: nat)
    requires i < 3
    ensures Size(Request().fields[i].value, 1) <= 6
  {
    ShortTextSize(Request().fields[i].value.s);
  }

  lemma RequestIsSmall()
    ensures Small(Request().fields, 8, 6, 3, 0)
  {
    RequestNamesArePlain();
    forall i | 0 <= i < 3 {
      RequestValueSize(i);
    }
  }

  lemma RequestSize()
    ensures Size(Request(), 1) <= 104
  {
    RequestIsSmall();
    SmallSize(Request().fields, 8, 6, 3, 0);
  }

  lemma NothingToStrip(t: Text)
    ensures Strip(PlainHost(), t) == t
  {}

  lemma ExampleIsClean(extra: seq<Field>)
    requires Shape(extra)
    ensures var e := Example(extra);
      && Sanitized(PlainHost(), e.expected) == e.expected && Sanitized(PlainHost(), e.observed) == e.observed
      && Sanitized(PlainHost(), e.provenance) == e.provenance && Sanitized(PlainHost(), e.request) == e.request
      && Sanitized(PlainHost(), e.response) == e.response
  {
    ExpectedIsClean();
    ObservedIsClean();
    ProvenanceIsClean(extra);
    RequestIsClean();
    ResponseIsClean();
    SafeFixesExactlyCleanValues(PlainHost(), Expected(), [], 0);
    SafeFixesExactlyCleanValues(PlainHost(), Observed(), [], 0);
    SafeFixesExactlyCleanValues(PlainHost(), Obj(Base() + extra), [], 0);
    SafeFixesExactlyCleanValues(PlainHost(), Request(), [], 0);
    SafeFixesExactlyCleanValues(PlainHost(), Obj([]), [], 0);
  }

  lemma BuildKeeps(h: Host, e: Item)
    requires Bounded(h, e.kind) == Ok(e.kind) && Bounded(h, e.source) == Ok(e.source)
    requires Sanitized(h, e.expected) == e.expected && Sanitized(h, e.observed) == e.observed
    requires Sanitized(h, e.provenance) == e.provenance && Sanitized(h, e.request) == e.request
    requires Sanitized(h, e.response) == e.response
    requires Fits(e.expected) && Fits(e.observed) && Fits(e.provenance) && Fits(e.request) && Fits(e.response)
    ensures Build(h, e) == Ok(e)
  {}

  lemma NamesAreBounded()
    ensures Bounded(PlainHost(), COMPARISON) == Ok(COMPARISON) && Bounded(PlainHost(), [115]) == Ok([115])
  {
    NothingToStrip(COMPARISON);
    NothingToStrip([115]);
    assert |COMPARISON| == 35;
  }

  lemma PartsFitBound(extra: seq<Field>)
    requires Shape(extra)
    ensures var e := Example(extra);
      Fits(e.expected) && Fits(e.observed) && Fits(e.provenance) && Fits(e.request) && Fits(e.response)
  {
    ExpectedSize();
    ObservedSize();
    ProvenanceFitsBound(extra);
    RequestSize();
    assert Size(Obj([]), 1) == 2;
  }

  lemma ExampleIsSettled(extra: seq<Field>)
    requires Shape(extra)
    ensures Settled(PlainHost(), Example(extra))
  {
    ExampleIsClean(extra);
    NamesAreBounded();
    PartsFitBound(extra);
    BuildKeeps(PlainHost(), Example(extra));
  }

  // ---- It demonstrates the finding ---------------------------------------------------------------

  lemma {:induction false} LookupAt(fs: seq<Field>, i: nat)
    requires DistinctNames(fs) && i < |fs|
    ensures LookupIn(fs, fs[i].name) == fs[i].value
  {
    if i > 0 {
      assert fs[0].name != fs[i].name;
      LookupAt(fs[1..], i - 1);
    }
  }

  lemma ProvenanceLookups(extra: seq<Field>, i: nat)
    requires Shape(extra) && i < 8
    ensures Lookup(Obj(Base() + extra), Base()[i].name) == Base()[i].value
  {
    ProvenanceNames(extra);
    LookupAt(Base() + extra, i);
  }

  lemma ProvenanceTexts(p: Json)
    requires forall i :: 0 <= i < 8 ==> Lookup(p, Base()[i].name) == Base()[i].value
    ensures Lookup(p, OWNER) == One(97) && Lookup(p, TEST) == One(98) && Lookup(p, RESOURCE) == One(114)
    ensures Lookup(p, ENDPOINT) == One(101) && Lookup(p, SCOPE_REFERENCE) == One(115) && Lookup(p, DECISION) == DENY
    ensures Lookup(p, MODEL) == One(109) && Lookup(p, BASIS) == One(112)
  {
    var b := Base();
    assert Lookup(p, b[0].name) == b[0].value && Lookup(p, b[1].name) == b[1].value;
    assert Lookup(p, b[2].name) == b[2].value && Lookup(p, b[3].name) == b[3].value;
    assert Lookup(p, b[4].name) == b[4].value && Lookup(p, b[5].name) == b[5].value;
    assert Lookup(p, b[6].name) == b[6].value && Lookup(p, b[7].name) == b[7].value;
  }

  lemma ComparedTexts()
    ensures Lookup(Expected(), Ascii("policy_decision")) == DENY
    ensures Lookup(Expected(), Ascii("body")) == Body() == Lookup(Observed(), Ascii("body"))
    ensures Lookup(Observed(), Ascii("status")) == Num(200)
  {
    ExpectedIsClean();
    ObservedIsClean();
    LookupAt(Expected().fields, 0);
    LookupAt(Expected().fields, 2);
    LookupAt(Observed().fields, 0);
    LookupAt(Observed().fields, 1);
  }

  lemma RequestTexts()
    ensures Lookup(Request(), Ascii("identity")) == One(98) && Lookup(Request(), Ascii("url")) == One(117)
    ensures Lookup(Request(), Ascii("method")) == One(103)
  {
    RequestIsClean();
    LookupAt(Request().fields, 0);
    LookupAt(Request().fields, 1);
    LookupAt(Request().fields, 2);
  }

  lemma Contained(fs: seq<Field>, i: nat)
    requires i < |fs|
    ensures Contains(Obj(fs), fs[i].name)
  {}

  lemma BodyIsGuarded()
    ensures Guarded(Body())
  {
    Contained(Body().fields, 0);
    assert PROTECTED[0] == Ascii("owner_id");
  }

  lemma ExampleIsComparable(extra: seq<Field>)
    ensures Comparable(Example(extra))
  {
    Contained(Expected().fields, 1);
    Contained(Expected().fields, 2);
    Contained(Observed().fields, 0);
    Contained(Observed().fields, 1);
  }

  lemma ExampleDemonstrates(extra: seq<Field>)
    requires Shape(extra)
    ensures Demonstrates(PlainHost(), ExampleFacts(), Example(extra))
  {
    forall i | 0 <= i < 8 ensures Lookup(Obj(Base() + extra), Base()[i].name) == Base()[i].value {
      ProvenanceLookups(extra, i);
    }
    ProvenanceTexts(Obj(Base() + extra));
    ComparedTexts();
    RequestTexts();
    BodyIsGuarded();
    ExampleIsComparable(extra);
  }
}
