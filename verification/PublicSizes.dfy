// When publicized evidence still fits: always, if it is nested at most four levels deep.
module PublicSizes {
  import opened Wrappers
  import opened Text
  import opened Json
  import opened JsonSize
  import opened Evidence
  import opened Findings
  import opened FindingStates
  import opened PublicRoundTrip

  // The digest of a list of items sees each item's fields down to this level.
  const SEEN := 4

  ghost predicate Within(v: Json, n: nat)
    decreases v
  {
    match v
    case Arr(items) => n > 0 && forall i :: 0 <= i < |items| ==> Within(items[i], n - 1)
    case Obj(fs) => n > 0 && forall i :: 0 <= i < |fs| ==> Within(fs[i].value, n - 1)
    case _ => true
  }

  lemma {:induction false} CleanAtDepth(h: Host, v: Json, key: Text, depth: nat, other: nat, n: nat)
    requires Clean(h, v, key, depth) && Within(v, n) && n + depth <= MAX_DEPTH && n + other <= MAX_DEPTH
    ensures Clean(h, v, key, other)
    decreases v
  {
    if !Secret(h, key) {
      match v
      case Arr(items) =>
        forall i | 0 <= i < |items| {
          CleanAtDepth(h, items[i], key, depth + 1, other + 1, n - 1);
        }
      case Obj(fs) =>
        assert CleanFields(h, fs, depth + 1);
        forall i | 0 <= i < |fs| {
          CleanAtDepth(h, fs[i].value, fs[i].name, depth + 1, other + 1, n - 1);
        }
      case _ =>
    }
  }

  // Shallow values have no truncation markers to confuse with references.
  lemma {:induction false} PublicStaysClean(h: Host, v: Json, key: Text, depth: nat, n: nat)
    requires Sound(h) && Clean(h, v, key, depth) && Within(v, n) && n + depth <= MAX_DEPTH
    ensures Clean(h, Publicize(h, v, key), key, depth) && Within(Publicize(h, v, key), n)
    decreases v
  {
    if Secret(h, key) {
      SecretIsNotRef(h, key);
    } else {
      match v
      case Arr(items) =>
        forall i | 0 <= i < |items| {
          PublicStaysClean(h, items[i], key, depth + 1, n - 1);
        }
      case Obj(fs) => FieldsStayClean(h, fs, depth + 1, n);
      case _ =>
    }
  }

  lemma FieldsStayClean(h: Host, fs: seq<Field>, depth: nat, n: nat)
    requires Sound(h) && CleanFields(h, fs, depth) && n > 0 && n - 1 + depth <= MAX_DEPTH
    requires forall i :: 0 <= i < |fs| ==> Within(fs[i].value, n - 1)
    ensures CleanFields(h, PublicFields(h, fs), depth)
    ensures forall i :: 0 <= i < |fs| ==> Within(PublicFields(h, fs)[i].value, n - 1)
    decreases fs
  {
    forall i | 0 <= i < |fs| {
      PublicStaysClean(h, fs[i].value, fs[i].name, depth, n - 1);
    }
  }

  // A shallow value that sanitizing leaves alone at the top is treated alike under any key, at
  // the two depths the digests put it.
  lemma SafeUnderKey(h: Host, v: Json, key: Text)
    requires Sound(h) && Clean(h, v, [], 0) && Within(v, SEEN)
    ensures Safe(h, v, key, 1) == Safe(h, v, key, 2)
    ensures !Secret(h, key) ==> Safe(h, v, key, 2) == v
  {
    if !Secret(h, key) {
      assert |Normalized(h, [])| == 0 by { assert PlainKey([]); }
      forall k | k in SECRET_KEYS ensures |k| > 0 {}
      CleanKey(h, v, [], key, 0);
      CleanAtDepth(h, v, key, 0, 1, SEEN);
      CleanAtDepth(h, v, key, 0, 2, SEEN);
      SafeFixesExactlyCleanValues(h, v, key, 1);
      SafeFixesExactlyCleanValues(h, v, key, 2);
    }
  }

  const PROVENANCE := Ascii("provenance")

  lemma ProvenanceIsNotSecret(h: Host)
    requires Sound(h)
    ensures !Secret(h, PROVENANCE)
  {
    assert PlainKey(PROVENANCE);
    assert Normalized(h, PROVENANCE) == PROVENANCE;
    forall k | k in SECRET_KEYS ensures k != PROVENANCE {
      assert PROVENANCE[0] == 112 && PROVENANCE[1] == 114;
    }
  }

  ghost predicate Shallow(e: Item) {
    Within(e.expected, SEEN) && Within(e.observed, SEEN) && Within(e.provenance, SEEN)
  }

  lemma FieldNamesDistinct(e: Item)
    ensures DistinctNames(Core(e).fields) && DistinctNames(Shown(e).fields)
    ensures forall i :: 0 <= i < 7 ==> |Shown(e).fields[i].name| <= MAX_KEY
  {
    var n := Shown(e).fields;
    assert |n[0].name| == 4 && |n[1].name| == 6 && |n[2].name| == 8 && |n[3].name| == 8;
    assert |n[4].name| == 10 && |n[5].name| == 7 && |n[6].name| == 8;
    assert n[2].name[0] == 101 && n[3].name[0] == 111 && n[6].name[0] == 114;
    assert DistinctNames(n);
    forall i | 0 <= i < 5 ensures Core(e).fields[i] == n[i] {}
  }

  // Sanitizing an object with few, short, distinct names keeps its fields apart.
  lemma ObjectKept(h: Host, fs: seq<Field>, key: Text, depth: nat)
    requires depth <= MAX_DEPTH && !Secret(h, key)
    requires |fs| <= MAX_ITEMS && DistinctNames(fs) && forall i :: 0 <= i < |fs| ==> |fs[i].name| <= MAX_KEY
    ensures Safe(h, Obj(fs), key, depth) == Obj(SafeFields(h, fs, depth + 1))
    ensures forall i :: 0 <= i < |fs| ==> SafeFields(h, fs, depth + 1)[i].name == fs[i].name
  {
    var mapped := SafeFields(h, fs, depth + 1);
    forall i | 0 <= i < |fs| ensures mapped[i].name == fs[i].name {
      assert fs[i].name[..|fs[i].name|] == fs[i].name;
    }
    CollapseKeeps(mapped);
  }

  lemma SafeObject(h: Host, fs: seq<Field>, depth: nat)
    requires Sound(h) && depth <= MAX_DEPTH
    requires |fs| <= MAX_ITEMS && DistinctNames(fs) && forall i :: 0 <= i < |fs| ==> |fs[i].name| <= MAX_KEY
    ensures Safe(h, Obj(fs), [], depth) == Obj(SafeFields(h, fs, depth + 1))
  {
    assert |Normalized(h, [])| == 0 by { assert PlainKey([]); }
    forall k | k in SECRET_KEYS ensures |k| > 0 {}
    ObjectKept(h, fs, [], depth);
  }

  lemma ShallowReload(h: Host, e: Item)
    requires Sound(h) && Settled(h, e) && Shallow(e)
    ensures Reloaded(h, e) == Public(h, e) && Plain(h, Public(h, e))
  {
    SettledIsClean(h, e);
    PublicStaysClean(h, e.provenance, [], 0, SEEN);
    SafeFixesExactlyCleanValues(h, Publicize(h, e.provenance, []), [], 0);
  }

  ghost predicate Plain(h: Host, e: Item) {
    Shallow(e) && Clean(h, e.expected, [], 0) && Clean(h, e.observed, [], 0) && Clean(h, e.provenance, [], 0)
  }

  // Both digests sanitize the fields of the core alike.
  lemma CoreIsPrefix(h: Host, e: Item)
    requires Sound(h) && Plain(h, e)
    ensures SafeFields(h, Core(e).fields, 1) == SafeFields(h, Shown(e).fields, 2)[..5]
    ensures SafeFields(h, Shown(e).fields, 2)[4].value == e.provenance
  {
    ProvenanceIsNotSecret(h);
    SafeUnderKey(h, e.expected, Ascii("expected"));
    SafeUnderKey(h, e.observed, Ascii("observed"));
    SafeUnderKey(h, e.provenance, PROVENANCE);
    var core, shown := Core(e).fields, Shown(e).fields;
    forall i | 0 <= i < 5 ensures SafeFields(h, core, 1)[i] == SafeFields(h, shown, 2)[i] {
      assert shown[i] == core[i];
      assert i == 0 || i == 1 || i == 2 || i == 3 || i == 4;
    }
  }

  lemma PartsFit(fs: seq<Field>, n: nat)
    requires 0 < n <= |fs| && Fits(Obj(fs))
    ensures Fits(fs[n - 1].value) && Fits(Obj(fs[..n]))
  {
    FieldSmaller(fs, n - 1, 1);
    FieldsPrefixSmaller(fs, n, 1);
  }

  lemma SafeCore(h: Host, e: Item)
    requires Sound(h)
    ensures Safe(h, Shown(e), [], 1) == Obj(SafeFields(h, Shown(e).fields, 2))
    ensures Sanitized(h, Core(e)) == Obj(SafeFields(h, Core(e).fields, 1))
  {
    FieldNamesDistinct(e);
    SafeObject(h, Shown(e).fields, 1);
    SafeObject(h, Core(e).fields, 0);
  }

  lemma CoreFits(h: Host, e: Item)
    requires Sound(h) && Plain(h, e) && Fits(Safe(h, Shown(e), [], 1))
    ensures Fits(e.provenance) && Fits(Sanitized(h, Core(e)))
  {
    SafeCore(h, e);
    CoreIsPrefix(h, e);
    PartsFit(SafeFields(h, Shown(e).fields, 2), 5);
  }

  lemma ShallowItemFits(h: Host, e: Item)
    requires Sound(h) && Settled(h, e) && Shallow(e)
    requires Fits(Safe(h, Shown(Public(h, e)), [], 1))
    ensures StillFits(h, e)
  {
    ShallowReload(h, e);
    CoreFits(h, Public(h, e));
  }

  lemma DigestedItemFits(h: Host, items: seq<Item>, i: nat)
    requires Sound(h) && EvidenceDigest(h, items).Ok? && i < |items| && i < MAX_ITEMS
    ensures Fits(Safe(h, Shown(Public(h, items[i])), [], 1))
  {
    SanitizedLength(h, items);
    var canon := Sanitized(h, Canonical(h, items));
    assert canon.items[i] == Safe(h, Shown(Public(h, items[i])), [], 1);
    ItemSmaller(canon.items, i, 1);
  }

  // Evidence nested at most four levels deep always survives publication: the size bound its
  // digest already met covers both bounds reloading meets.
  lemma ShallowFindingsLoad(h: Host, c: Content)
    requires Sound(h) && Reportable(h, c) && |c.evidence| <= MAX_LISTED
    requires forall i :: 0 <= i < |c.evidence| ==> Shallow(c.evidence[i])
    ensures Loads(h, c)
  {
    PublicRoundTripExactly(h, c);
    ReportableIsAssured(h, c);
    GateIs(h, c.facts, c.evidence, c.state);
    forall i | 0 <= i < |c.evidence| ensures StillFits(h, c.evidence[i]) {
      DigestedItemFits(h, c.evidence, i);
      ShallowItemFits(h, c.evidence[i]);
    }
  }

  // ---- Deep evidence need not ----------------------------------------------------------------

  function Copies(v: Json, n: nat): Json { Arr(seq(n, _ => v)) }

  function Single(v: Json): Json { Arr([v]) }

  function Nested(v: Json): Json { Single(Single(Single(Copies(Copies(v, 100), 14)))) }

  // 1,400 references below the level the digest sees.
  function Deep(v: Json): Json { Obj([Field(AUTHORIZATION_REFERENCE, Nested(v))]) }

  lemma NestedSize(v: Json)
    ensures Size(Nested(v), 1) == 14 * (100 * Size(v, 1) + 101) + 21
  {
    RepeatedSize(v, 100, 1);
    RepeatedSize(Copies(v, 100), 14, 1);
    SingleSize(Copies(Copies(v, 100), 14));
    SingleSize(Single(Copies(Copies(v, 100), 14)));
    SingleSize(Single(Single(Copies(Copies(v, 100), 14))));
  }

  lemma DeepSize(v: Json)
    ensures Size(Deep(v), 1) == 14 * (100 * Size(v, 1) + 101) + 49
  {
    NestedSize(v);
    ReferenceSize();
    var fs := [Field(AUTHORIZATION_REFERENCE, Nested(v))];
    assert fs[..0] == [];
    assert FieldsSize(fs, 1) == 2 + TextSize(AUTHORIZATION_REFERENCE) + 1 + Size(Nested(v), 1);
  }

  lemma SingleSize(v: Json)
    ensures Size(Single(v), 1) == 2 + Size(v, 1)
  {
    assert [v][..0] == [];
    assert ItemsSize([v], 1) == ItemsSize([v][..0], 1) + Size([v][0], 1);
  }

  lemma {:induction false} AtLeastLength(t: Text)
    ensures |t| <= TextSize(t)
  {
    if t != [] {
      AtLeastLength(t[..|t| - 1]);
    }
  }

  lemma SafeSingle(h: Host, v: Json, key: Text, depth: nat)
    requires depth <= MAX_DEPTH && !Secret(h, key)
    ensures Safe(h, Single(v), key, depth) == Single(Safe(h, v, key, depth + 1))
  {}

  lemma SafeCopies(h: Host, v: Json, n: nat, key: Text, depth: nat)
    requires depth <= MAX_DEPTH && !Secret(h, key) && n <= MAX_ITEMS
    ensures Safe(h, Copies(v, n), key, depth) == Copies(Safe(h, v, key, depth + 1), n)
  {}

  lemma SafeNested(h: Host, v: Json, key: Text, depth: nat)
    requires depth <= 3 && !Secret(h, key)
    ensures Safe(h, Nested(v), key, depth) ==
              Single(Single(Single(Copies(Safe(h, Copies(v, 100), key, depth + 4), 14))))
  {
    SafeSingle(h, Single(Single(Copies(Copies(v, 100), 14))), key, depth);
    SafeSingle(h, Single(Copies(Copies(v, 100), 14)), key, depth + 1);
    SafeSingle(h, Copies(Copies(v, 100), 14), key, depth + 2);
    SafeCopies(h, Copies(v, 100), 14, key, depth + 3);
  }

  lemma SafeDeep(h: Host, v: Json, key: Text, depth: nat)
    requires Sound(h) && depth <= 2 && !Secret(h, key)
    ensures Safe(h, Deep(v), key, depth) ==
              Obj([Field(AUTHORIZATION_REFERENCE, Safe(h, Nested(v), AUTHORIZATION_REFERENCE, depth + 1))])
  {
    var fs := [Field(AUTHORIZATION_REFERENCE, Nested(v))];
    var mapped := SafeFields(h, fs, depth + 1);
    CollapseKeeps(mapped);
    assert Cut(AUTHORIZATION_REFERENCE) == AUTHORIZATION_REFERENCE;
    assert mapped == [Field(AUTHORIZATION_REFERENCE, Safe(h, Nested(v), AUTHORIZATION_REFERENCE, depth + 1))];
  }

  lemma AuthorizationIsRef(h: Host)
    requires Sound(h)
    ensures Ref(h, AUTHORIZATION_REFERENCE) && !Secret(h, AUTHORIZATION_REFERENCE) && !Secret(h, [])
  {
    assert PlainKey(AUTHORIZATION_REFERENCE) && PlainKey([]);
    assert Normalized(h, AUTHORIZATION_REFERENCE) == AUTHORIZATION_REFERENCE;
    assert |Normalized(h, [])| == 0;
    forall k | k in SECRET_KEYS ensures 0 < |k| <= 13 {}
  }

  lemma NestedIsKept(h: Host, t: Text, key: Text)
    requires Leaf(h, t) == t && !Secret(h, key)
    ensures Safe(h, Nested(Str(t)), key, 1) == Nested(Str(t))
  {
    SafeNested(h, Str(t), key, 1);
    SafeCopies(h, Str(t), 100, key, 5);
  }

  // At the top of an Evidence record the whole value is kept.
  lemma DeepIsKept(h: Host, t: Text)
    requires Sound(h) && Leaf(h, t) == t
    ensures Sanitized(h, Deep(Str(t))) == Deep(Str(t))
  {
    AuthorizationIsRef(h);
    SafeDeep(h, Str(t), [], 0);
    NestedIsKept(h, t, AUTHORIZATION_REFERENCE);
  }

  lemma PublicSingle(h: Host, v: Json, key: Text)
    ensures Publicize(h, Single(v), key) == Single(Publicize(h, v, key))
  {}

  lemma PublicCopies(h: Host, v: Json, n: nat, key: Text)
    ensures Publicize(h, Copies(v, n), key) == Copies(Publicize(h, v, key), n)
  {}

  lemma NestedPublic(h: Host, v: Json, key: Text)
    ensures Publicize(h, Nested(v), key) == Nested(Publicize(h, v, key))
  {
    PublicCopies(h, v, 100, key);
    PublicCopies(h, Copies(v, 100), 14, key);
    PublicSingle(h, Copies(Copies(v, 100), 14), key);
    PublicSingle(h, Single(Copies(Copies(v, 100), 14)), key);
    PublicSingle(h, Single(Single(Copies(Copies(v, 100), 14))), key);
  }

  lemma DeepPublic(h: Host, t: Text)
    requires Sound(h)
    ensures Publicize(h, Deep(Str(t)), []) == Deep(Str(PublicRef(h, t)))
  {
    AuthorizationIsRef(h);
    var key := AUTHORIZATION_REFERENCE;
    NestedPublic(h, Str(t), key);
    assert PublicFields(h, [Field(key, Nested(Str(t)))]) == [Field(key, Publicize(h, Nested(Str(t)), key))];
  }

  function Marked(): Json {
    Obj([Field(AUTHORIZATION_REFERENCE, Single(Single(Single(Copies(Str(TRUNCATED), 14)))))])
  }

  // The finding's digest replaces every row by a marker.
  lemma DigestSeesMarkers(h: Host, v: Json)
    requires Sound(h)
    ensures Safe(h, Deep(v), PROVENANCE, 2) == Marked()
  {
    AuthorizationIsRef(h);
    ProvenanceIsNotSecret(h);
    SafeDeep(h, v, PROVENANCE, 2);
    SafeNested(h, v, AUTHORIZATION_REFERENCE, 3);
  }

  lemma MarkedSize()
    ensures Size(Marked(), 1) == 231
  {
    var row := Copies(Str(TRUNCATED), 14);
    RepeatedSize(Str(TRUNCATED), 14, 1);
    MarkerSize();
    SingleSize(row);
    SingleSize(Single(row));
    SingleSize(Single(Single(row)));
    ReferenceSize();
    var fs := [Field(AUTHORIZATION_REFERENCE, Single(Single(Single(row))))];
    assert fs[..0] == [];
    assert FieldsSize(fs, 1) == 2 + TextSize(AUTHORIZATION_REFERENCE) + 1 + Size(fs[0].value, 1);
  }

  lemma ReferenceSize()
    ensures TextSize(AUTHORIZATION_REFERENCE) == 23
  {
    PrintableSize(AUTHORIZATION_REFERENCE);
  }

  lemma MarkerSize()
    ensures Size(Str(TRUNCATED), 1) == 13
  {
    PrintableSize(TRUNCATED);
  }

  // A provenance every bound accepts, whose publicized form is too large to load: 1,400
  // one-letter references nested five deep take 5,663 bytes, their digests 36,463.
  lemma DeepReferencesDoNotLoad(h: Host)
    requires Sound(h) && Leaf(h, [97]) == [97]
    ensures var p := Deep(Str([97]));
      && Sanitized(h, p) == p && Size(p, 1) == 5663
      && Size(Safe(h, Publicize(h, p, []), PROVENANCE, 2), 1) == 231
      && Size(Sanitized(h, Publicize(h, p, [])), 1) >= 36_463
      && !Fits(Sanitized(h, Publicize(h, p, [])))
  {
    var t := PublicRef(h, [97]);
    PublicRefIsPublic(h, [97]);
    DeepIsKept(h, [97]);
    DeepPublic(h, [97]);
    DeepIsKept(h, t);
    DeepSize(Str([97]));
    DeepSize(Str(t));
    PrintableSize([97]);
    AtLeastLength(t);
    DigestSeesMarkers(h, Str(t));
    MarkedSize();
  }
}
