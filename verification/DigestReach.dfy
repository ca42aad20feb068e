// Which changes of evidence the finding's digest notices.
module DigestReach {
  import opened Wrappers
  import opened Text
  import opened Json
  import opened Evidence
  import opened Findings
  import opened FindingStates
  import opened PublicRoundTrip
  import opened PublicSizes

  // No part of the item nests deeper than the digest sees.
  ghost predicate Flat(e: Item) {
    Shallow(e) && Within(e.request, SEEN) && Within(e.response, SEEN)
  }

  // ---- What the digest sees of an item ---------------------------------------------------------

  lemma KindIsNotSecret(h: Host)
    requires Sound(h)
    ensures !Secret(h, Ascii("kind"))
  {
    PlainKeyIsItself(h, Ascii("kind"));
    forall k | k in SECRET_KEYS ensures |k| > 4 {}
  }

  lemma SourceIsNotSecret(h: Host)
    requires Sound(h)
    ensures !Secret(h, Ascii("source"))
  {
    PlainKeyIsItself(h, Ascii("source"));
    assert Ascii("source")[0] == 115 && Ascii("source")[1] == 111;
    forall k | k in SECRET_KEYS ensures |k| < 2 || k[0] != 115 || k[1] != 111 {}
  }

  lemma ComparedKeysAreNotSecret(h: Host)
    requires Sound(h)
    ensures !Secret(h, Ascii("expected")) && !Secret(h, Ascii("observed"))
  {
    PlainKeyIsItself(h, Ascii("expected"));
    PlainKeyIsItself(h, Ascii("observed"));
    assert Ascii("expected")[0] == 101 && Ascii("observed")[0] == 111;
    forall k | k in SECRET_KEYS ensures |k| == 0 || (k[0] != 101 && k[0] != 111) {}
  }

  lemma ExchangeKeysAreNotSecret(h: Host)
    requires Sound(h)
    ensures !Secret(h, Ascii("request")) && !Secret(h, Ascii("response"))
  {
    PlainKeyIsItself(h, Ascii("request"));
    PlainKeyIsItself(h, Ascii("response"));
    assert Ascii("request")[2] == 113 && Ascii("response")[2] == 115;
    forall k | k in SECRET_KEYS ensures |k| < 3 || k[0] != 114 || (k[2] != 113 && k[2] != 115) {}
  }

  lemma PlainKeyIsItself(h: Host, key: Text)
    requires Sound(h) && PlainKey(key)
    ensures Normalized(h, key) == key
  {}

  function SeenFields(h: Host, e: Item): seq<Field> {
    [Field(Ascii("kind"), Str(Leaf(h, e.kind))), Field(Ascii("source"), Str(Leaf(h, e.source))),
     Field(Ascii("expected"), e.expected), Field(Ascii("observed"), e.observed),
     Field(Ascii("provenance"), Publicize(h, e.provenance, [])),
     Field(Ascii("request"), e.request), Field(Ascii("response"), e.response)]
  }

  lemma SanitizedFields(h: Host, e: Item)
    requires Sound(h) && Settled(h, e) && Flat(e)
    ensures SafeFields(h, Shown(Public(h, e)).fields, 2) == SeenFields(h, e)
  {
    SettledIsClean(h, e);
    ShallowReload(h, e);
    KindIsNotSecret(h);
    SourceIsNotSecret(h);
    ComparedKeysAreNotSecret(h);
    ExchangeKeysAreNotSecret(h);
    ProvenanceIsNotSecret(h);
    SafeUnderKey(h, e.expected, Ascii("expected"));
    SafeUnderKey(h, e.observed, Ascii("observed"));
    SafeUnderKey(h, Public(h, e).provenance, PROVENANCE);
    SafeUnderKey(h, e.request, Ascii("request"));
    SafeUnderKey(h, e.response, Ascii("response"));
    FieldByField(h, e);
  }

  // Sanitizing leaves every part of the item alone where the digest puts it.
  ghost predicate PartsKept(h: Host, p: Item) {
    && Safe(h, p.expected, Ascii("expected"), 2) == p.expected
    && Safe(h, p.observed, Ascii("observed"), 2) == p.observed
    && Safe(h, p.provenance, PROVENANCE, 2) == p.provenance
    && Safe(h, p.request, Ascii("request"), 2) == p.request
    && Safe(h, p.response, Ascii("response"), 2) == p.response
  }

  lemma FieldByField(h: Host, e: Item)
    requires !Secret(h, Ascii("kind")) && !Secret(h, Ascii("source"))
    requires PartsKept(h, Public(h, e))
    ensures SafeFields(h, Shown(Public(h, e)).fields, 2) == SeenFields(h, e)
  {
    var shown := Shown(Public(h, e)).fields;
    FieldNamesDistinct(Public(h, e));
    var values := [Str(Leaf(h, e.kind)), Str(Leaf(h, e.source)), e.expected, e.observed, Publicize(h, e.provenance, []),
                   e.request, e.response];
    forall i | 0 <= i < 7 ensures SafeFields(h, shown, 2)[i] == Field(shown[i].name, values[i]) {
      ValueSeen(h, e, i);
      SeenField(h, shown, i, values[i]);
    }
    SeenByName(h, e, values);
  }

  lemma ValueSeen(h: Host, e: Item, i: nat)
    requires i < 7 && !Secret(h, Ascii("kind")) && !Secret(h, Ascii("source"))
    requires PartsKept(h, Public(h, e))
    ensures var f := Shown(Public(h, e)).fields[i];
      Safe(h, f.value, f.name, 2) == [Str(Leaf(h, e.kind)), Str(Leaf(h, e.source)), e.expected, e.observed,
                                      Publicize(h, e.provenance, []), e.request, e.response][i]
  {
    assert i == 0 || i == 1 || i == 2 || i == 3 || i == 4 || i == 5 || i == 6;
  }

  lemma SeenByName(h: Host, e: Item, values: seq<Json>)
    requires values ==
               [Str(Leaf(h, e.kind)), Str(Leaf(h, e.source)), e.expected, e.observed, Publicize(h, e.provenance, []),
                e.request, e.response]
    requires var shown := Shown(Public(h, e)).fields;
      forall i :: 0 <= i < 7 ==> SafeFields(h, shown, 2)[i] == Field(shown[i].name, values[i])
    ensures SafeFields(h, Shown(Public(h, e)).fields, 2) == SeenFields(h, e)
  {
    var shown, seen := Shown(Public(h, e)).fields, SeenFields(h, e);
    assert |SafeFields(h, shown, 2)| == 7 == |seen|;
    forall i | 0 <= i < 7 ensures Field(shown[i].name, values[i]) == seen[i] {
      assert i == 0 || i == 1 || i == 2 || i == 3 || i == 4 || i == 5 || i == 6;
    }
  }

  lemma SeenField(h: Host, fs: seq<Field>, i: nat, v: Json)
    requires i < |fs| <= MAX_ITEMS && |fs[i].name| <= MAX_KEY && Safe(h, fs[i].value, fs[i].name, 2) == v
    ensures SafeFields(h, fs, 2)[i] == Field(fs[i].name, v)
  {
    assert fs[i].name[..|fs[i].name|] == fs[i].name;
  }

  // ---- Comparing objects field by field --------------------------------------------------------

  lemma SameFieldwise(f: seq<Field>, g: seq<Field>)
    requires |f| == |g| && DistinctNames(f) && forall i :: 0 <= i < |f| ==> f[i].name == g[i].name
    ensures Same(Obj(f), Obj(g)) <==> forall i :: 0 <= i < |f| ==> Same(f[i].value, g[i].value)
  {
    if Same(Obj(f), Obj(g)) {
      forall i | 0 <= i < |f| ensures Same(f[i].value, g[i].value) {
        var j :| 0 <= j < |g| && f[i].name == g[j].name && Same(f[i].value, g[j].value);
        assert f[j].name == g[j].name;
      }
    }
    if forall i :: 0 <= i < |f| ==> Same(f[i].value, g[i].value) {
      forall i | 0 <= i < |f|
        ensures exists j :: 0 <= j < |g| && f[i].name == g[j].name && Same(f[i].value, g[j].value)
      {
        assert f[i].name == g[i].name && Same(f[i].value, g[i].value);
      }
    }
  }

  // The digest cannot tell these two items apart.
  ghost predicate Alike(h: Host, e: Item, f: Item) {
    && Leaf(h, e.kind) == Leaf(h, f.kind) && Leaf(h, e.source) == Leaf(h, f.source)
    && Same(e.expected, f.expected) && Same(e.observed, f.observed)
    && Same(Publicize(h, e.provenance, []), Publicize(h, f.provenance, []))
    && Same(e.request, f.request) && Same(e.response, f.response)
  }

  lemma SeenNames(h: Host, e: Item, f: Item)
    ensures var s, t := SeenFields(h, e), SeenFields(h, f);
      DistinctNames(s) && forall i :: 0 <= i < 7 ==> s[i].name == t[i].name
  {
    FieldNamesDistinct(e);
    var s := SeenFields(h, e);
    forall i | 0 <= i < 7 ensures s[i].name == Shown(e).fields[i].name {}
  }

  lemma SeenValues(h: Host, e: Item, f: Item)
    ensures var s, t := SeenFields(h, e), SeenFields(h, f);
      Alike(h, e, f) <==> forall i :: 0 <= i < 7 ==> Same(s[i].value, t[i].value)
  {
    var s, t := SeenFields(h, e), SeenFields(h, f);
    if forall i :: 0 <= i < 7 ==> Same(s[i].value, t[i].value) {
      assert Same(s[0].value, t[0].value) && Same(s[1].value, t[1].value) && Same(s[2].value, t[2].value);
      assert Same(s[3].value, t[3].value) && Same(s[4].value, t[4].value) && Same(s[5].value, t[5].value);
      assert Same(s[6].value, t[6].value);
    }
  }

  lemma SeenAlike(h: Host, e: Item, f: Item)
    ensures Same(Obj(SeenFields(h, e)), Obj(SeenFields(h, f))) <==> Alike(h, e, f)
  {
    SeenNames(h, e, f);
    SameFieldwise(SeenFields(h, e), SeenFields(h, f));
    SeenValues(h, e, f);
  }

  // ---- The exact reach -------------------------------------------------------------------------

  // At most a hundred items, each left alone by its constructor and nested no deeper than seen.
  ghost predicate Visible(h: Host, items: seq<Item>) {
    |items| <= MAX_ITEMS && forall i :: 0 <= i < |items| ==> Settled(h, items[i]) && Flat(items[i])
  }

  lemma CanonicalItem(h: Host, items: seq<Item>, i: nat)
    requires Sound(h) && Visible(h, items) && i < |items|
    ensures var v := Sanitized(h, Canonical(h, items));
      v.Arr? && |v.items| == |items| && v.items[i] == Obj(SeenFields(h, items[i]))
  {
    SanitizedLength(h, items);
    SanitizedFields(h, items[i]);
    SafeCore(h, Public(h, items[i]));
    assert Sanitized(h, Canonical(h, items)).items[i] == Safe(h, Shown(Public(h, items[i])), [], 1);
  }

  lemma CanonicalsAgree(h: Host, a: seq<Item>, b: seq<Item>)
    requires Sound(h) && Visible(h, a) && Visible(h, b)
    ensures Same(Sanitized(h, Canonical(h, a)), Sanitized(h, Canonical(h, b))) <==>
              |a| == |b| && forall i :: 0 <= i < |a| ==> Alike(h, a[i], b[i])
  {
    SanitizedLength(h, a);
    SanitizedLength(h, b);
    var v, w := Sanitized(h, Canonical(h, a)), Sanitized(h, Canonical(h, b));
    if |a| == |b| {
      forall i | 0 <= i < |a| ensures Same(v.items[i], w.items[i]) <==> Alike(h, a[i], b[i]) {
        CanonicalItem(h, a, i);
        CanonicalItem(h, b, i);
        SeenAlike(h, a[i], b[i]);
      }
      assert Same(v, w) <==> forall i :: 0 <= i < |a| ==> Same(v.items[i], w.items[i]);
    }
  }

  // Evidence of at most a hundred flat items, replaced after validation by other such evidence,
  // is reported exactly when the new evidence validates, its digest can be computed, and item
  // by item nothing changed but references with the same public form, texts beyond their
  // excerpt, and what the redactor hides in kind and source.
  lemma FlatMutationIsNoticedExactly(h: Host, c: Content, items: seq<Item>)
    requires Sound(h) && Confirmed(c.state) && Assured(GateOf(h), c)
    requires Visible(h, items) && Visible(h, c.evidence)
    ensures Asserted(GateOf(h), c.(evidence := items)).error.None? <==>
              && GateOf(h).faults(c.facts, items, c.state) == []
              && GateOf(h).digest(items).Ok?
              && |items| == |c.evidence| && forall i :: 0 <= i < |items| ==> Alike(h, items[i], c.evidence[i])
  {
    MutationIsNoticedExactly(h, c, items);
    CanonicalsAgree(h, items, c.evidence);
  }

  lemma SameAsItself(v: Json)
    requires IsValue(v)
    ensures Same(v, v)
  {
    DigestsEqual(v, v);
  }

  lemma {:induction false} PublicizeIsValue(h: Host, v: Json, key: Text)
    requires IsValue(v)
    ensures IsValue(Publicize(h, v, key))
    decreases v
  {
    match v
    case Arr(items) =>
      forall i | 0 <= i < |items| {
        PublicizeIsValue(h, items[i], key);
      }
    case Obj(fs) =>
      forall i | 0 <= i < |fs| {
        PublicizeIsValue(h, fs[i].value, fs[i].name);
      }
    case _ =>
  }

  // Items past the hundredth are not seen at all.
  lemma LaterItemsAreUnseen(h: Host, items: seq<Item>, more: seq<Item>, other: seq<Item>)
    requires Sound(h) && |items| == MAX_ITEMS
    ensures Sanitized(h, Canonical(h, items + more)) == Sanitized(h, Canonical(h, items + other))
  {
    SanitizedLength(h, items + more);
    SanitizedLength(h, items + other);
    var v, w := Sanitized(h, Canonical(h, items + more)).items, Sanitized(h, Canonical(h, items + other)).items;
    forall i | 0 <= i < MAX_ITEMS ensures v[i] == w[i] {
      assert (items + more)[i] == items[i] == (items + other)[i];
    }
    assert v == w;
  }

  // A source changed beyond its first 1800 characters is a change the digest does not notice.
  lemma LongSourcesAreAlike(h: Host, e: Item, tail: Text, other: Text)
    requires |e.source| == MAX_EXCERPT && tail != [] && other != []
    requires forall v :: v in [e.expected, e.observed, e.provenance, e.request, e.response] ==> IsValue(v)
    ensures Alike(h, e.(source := e.source + tail), e.(source := e.source + other))
  {
    assert (e.source + tail)[..MAX_EXCERPT] == e.source == (e.source + other)[..MAX_EXCERPT];
    SameAsItself(e.expected);
    SameAsItself(e.observed);
    PublicizeIsValue(h, e.provenance, []);
    SameAsItself(Publicize(h, e.provenance, []));
    SameAsItself(e.request);
    SameAsItself(e.response);
  }
}
