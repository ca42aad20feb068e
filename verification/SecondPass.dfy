// What a second pass of _safe_value changes. Substitution follows the cut at 1800 characters
// and may lengthen the text, so a second pass can cut again.
module SecondPass {
  import opened Text
  import opened Json
  import opened Evidence

  // ---- Which fields the pass keeps -------------------------------------------------------------

  // The last of the first hundred fields under its cut name.
  ghost predicate Kept(fs: seq<Field>, i: int) {
    && 0 <= i < Min(|fs|, MAX_ITEMS)
    && forall j :: i < j < Min(|fs|, MAX_ITEMS) ==> Cut(fs[j].name) != Cut(fs[i].name)
  }

  ghost predicate LastOfName(fs: seq<Field>, i: int) {
    0 <= i < |fs| && forall j :: i < j < |fs| ==> fs[j].name != fs[i].name
  }

  lemma {:induction false} AssignElements(fs: seq<Field>, f: Field, x: Field)
    requires DistinctNames(fs)
    ensures x in Assign(fs, f) <==> x == f || (x in fs && x.name != f.name)
  {
    if fs != [] {
      assert fs == [fs[0]] + fs[1..];
      if fs[0].name == f.name {
        assert x in fs[1..] ==> x.name != f.name;
      } else {
        AssignElements(fs[1..], f, x);
      }
    }
  }

  // A dict comprehension keeps exactly the last field of every name.
  lemma {:induction false} CollapsedFrom(fs: seq<Field>, x: Field) returns (i: int)
    requires x in Collapse(fs)
    ensures LastOfName(fs, i) && fs[i] == x
  {
    var n := |fs| - 1;
    CollapseIs(fs[..n]);
    AssignElements(Collapse(fs[..n]), fs[n], x);
    if x == fs[n] {
      i := n;
    } else {
      i := CollapsedFrom(fs[..n], x);
      assert fs[..n][i] == fs[i];
      forall j | i < j < n ensures fs[j].name != fs[i].name {
        assert fs[..n][j] == fs[j];
      }
    }
  }

  lemma LastOfInit(fs: seq<Field>, i: int)
    requires LastOfName(fs, i) && i < |fs| - 1
    ensures LastOfName(fs[..|fs| - 1], i) && fs[..|fs| - 1][i] == fs[i] && fs[i].name != fs[|fs| - 1].name
  {}

  lemma {:induction false} LastIsCollapsed(fs: seq<Field>, i: int)
    requires LastOfName(fs, i)
    ensures fs[i] in Collapse(fs)
  {
    var n := |fs| - 1;
    var init := fs[..n];
    if i < n {
      LastOfInit(fs, i);
      LastIsCollapsed(init, i);
    }
    CollapseIs(init);
    AssignElements(Collapse(init), fs[n], fs[i]);
  }

  lemma KeptIsLast(h: Host, fs: seq<Field>, depth: nat, i: int)
    ensures Kept(fs, i) <==> LastOfName(SafeFields(h, fs, depth), i)
  {
    forall j | 0 <= j < Min(|fs|, MAX_ITEMS) ensures SafeFields(h, fs, depth)[j].name == Cut(fs[j].name) {}
  }

  // ---- When one pass is enough -----------------------------------------------------------------

  // Every text the pass reaches and keeps comes out as a text it would leave alone.
  ghost predicate Settles(h: Host, v: Json, key: Text, depth: nat)
    decreases v
  {
    depth > MAX_DEPTH || Secret(h, key) ||
    match v
    case Obj(fs) => SettlesFields(h, fs, depth + 1)
    case Arr(items) => forall i :: 0 <= i < Min(|items|, MAX_ITEMS) ==> Settles(h, items[i], key, depth + 1)
    case Str(s) => Leaf(h, Leaf(h, s)) == Leaf(h, s)
    case _ => true
  }

  ghost predicate SettlesFields(h: Host, fs: seq<Field>, depth: nat)
    decreases fs
  {
    forall i :: Kept(fs, i) ==> Settles(h, fs[i].value, fs[i].name, depth)
  }

  lemma {:induction false} CleanExactlyWhenSettled(h: Host, v: Json, key: Text, depth: nat)
    requires Sound(h)
    ensures Clean(h, Safe(h, v, key, depth), key, depth) <==> Settles(h, v, key, depth)
    decreases v
  {
    if depth <= MAX_DEPTH && !Secret(h, key) {
      match v
      case Obj(fs) => ObjectSettled(h, fs, key, depth);
      case Arr(items) => ItemsSettled(h, items, key, depth);
      case _ =>
    }
  }

  lemma ObjectSettled(h: Host, fs: seq<Field>, key: Text, depth: nat)
    requires Sound(h) && depth <= MAX_DEPTH && !Secret(h, key)
    ensures Clean(h, Safe(h, Obj(fs), key, depth), key, depth) <==> Settles(h, Obj(fs), key, depth)
    decreases fs, 3
  {
    FieldsSettled(h, fs, depth + 1);
    ObjectCases(h, fs, key, depth);
  }

  lemma ObjectCases(h: Host, fs: seq<Field>, key: Text, depth: nat)
    requires depth <= MAX_DEPTH && !Secret(h, key)
    ensures Safe(h, Obj(fs), key, depth) == Obj(Collapse(SafeFields(h, fs, depth + 1)))
    ensures Settles(h, Obj(fs), key, depth) <==> SettlesFields(h, fs, depth + 1)
    ensures Clean(h, Safe(h, Obj(fs), key, depth), key, depth) <==>
              CleanFields(h, Collapse(SafeFields(h, fs, depth + 1)), depth + 1)
  {}

  lemma ItemsSettled(h: Host, items: seq<Json>, key: Text, depth: nat)
    requires Sound(h) && depth <= MAX_DEPTH && !Secret(h, key)
    ensures Clean(h, Safe(h, Arr(items), key, depth), key, depth) <==> Settles(h, Arr(items), key, depth)
    decreases items
  {
    var out := Safe(h, Arr(items), key, depth).items;
    forall i | 0 <= i < |out| ensures Clean(h, out[i], key, depth + 1) <==> Settles(h, items[i], key, depth + 1) {
      CleanExactlyWhenSettled(h, items[i], key, depth + 1);
    }
  }

  lemma FieldSettled(h: Host, fs: seq<Field>, depth: nat, i: nat)
    requires Sound(h) && i < Min(|fs|, MAX_ITEMS)
    ensures var f := SafeFields(h, fs, depth)[i];
      |f.name| <= MAX_KEY && (Clean(h, f.value, f.name, depth) <==> Settles(h, fs[i].value, fs[i].name, depth))
    decreases fs, 0
  {
    var f := SafeFields(h, fs, depth)[i];
    CleanExactlyWhenSettled(h, fs[i].value, fs[i].name, depth);
    CutKeepsSecrecy(h, fs[i].name);
    if Clean(h, f.value, f.name, depth) {
      CleanKey(h, f.value, f.name, fs[i].name, depth);
    }
    if Clean(h, f.value, fs[i].name, depth) {
      CleanKey(h, f.value, fs[i].name, f.name, depth);
    }
  }

  lemma FieldsSettled(h: Host, fs: seq<Field>, depth: nat)
    requires Sound(h)
    ensures CleanFields(h, Collapse(SafeFields(h, fs, depth)), depth) <==> SettlesFields(h, fs, depth)
    decreases fs, 2
  {
    CollapseIs(SafeFields(h, fs, depth));
    if CleanFields(h, Collapse(SafeFields(h, fs, depth)), depth) {
      forall i | Kept(fs, i) ensures Settles(h, fs[i].value, fs[i].name, depth) {
        CleanFieldSettles(h, fs, depth, i);
      }
    }
    if SettlesFields(h, fs, depth) {
      forall x | x in Collapse(SafeFields(h, fs, depth))
        ensures |x.name| <= MAX_KEY && Clean(h, x.value, x.name, depth)
      {
        SettledFieldIsClean(h, fs, depth, x);
      }
    }
  }

  lemma CleanFieldSettles(h: Host, fs: seq<Field>, depth: nat, i: nat)
    requires Sound(h) && Kept(fs, i) && CleanFields(h, Collapse(SafeFields(h, fs, depth)), depth)
    ensures Settles(h, fs[i].value, fs[i].name, depth)
    decreases fs, 1
  {
    var mapped := SafeFields(h, fs, depth);
    KeptIsLast(h, fs, depth, i);
    LastIsCollapsed(mapped, i);
    var k :| 0 <= k < |Collapse(mapped)| && Collapse(mapped)[k] == mapped[i];
    FieldSettled(h, fs, depth, i);
  }

  lemma SettledFieldIsClean(h: Host, fs: seq<Field>, depth: nat, x: Field)
    requires Sound(h) && SettlesFields(h, fs, depth) && x in Collapse(SafeFields(h, fs, depth))
    ensures |x.name| <= MAX_KEY && Clean(h, x.value, x.name, depth)
    decreases fs, 1
  {
    var i := CollapsedFrom(SafeFields(h, fs, depth), x);
    KeptIsLast(h, fs, depth, i);
    FieldSettled(h, fs, depth, i);
  }

  // Structural redaction is idempotent on a value exactly when it is on each text it keeps.
  lemma OnePassIsEnoughExactly(h: Host, v: Json, key: Text, depth: nat)
    requires Sound(h)
    ensures var once := Safe(h, v, key, depth);
      Safe(h, once, key, depth) == once <==> Settles(h, v, key, depth)
  {
    SafeFixesExactlyCleanValues(h, Safe(h, v, key, depth), key, depth);
    CleanExactlyWhenSettled(h, v, key, depth);
  }

  // ---- Texts -----------------------------------------------------------------------------------

  function Excerpt(s: Text): Text {
    if |s| > MAX_EXCERPT then s[..MAX_EXCERPT] + ELLIPSIS else s
  }

  // For a redactor whose own output it leaves alone, a text settles when its redacted form is
  // short enough not to be cut, or has exactly the length and the ending a cut text has.
  lemma LengthSettlesText(h: Host, s: Text)
    requires h.redact(h.redact(Excerpt(s))) == h.redact(Excerpt(s))
    requires var t := Leaf(h, s);
      |t| <= MAX_EXCERPT || (|t| == MAX_EXCERPT + |ELLIPSIS| && t[MAX_EXCERPT..] == ELLIPSIS)
    ensures Leaf(h, Leaf(h, s)) == Leaf(h, s)
  {
    var t := Leaf(h, s);
    if |t| > MAX_EXCERPT {
      assert t == t[..MAX_EXCERPT] + t[MAX_EXCERPT..];
    }
  }

  // A redacted text that is neither is changed by the second pass, if the redactor has nothing
  // to do on the cut text.
  lemma LongerTextIsCutAgain(h: Host, s: Text)
    requires var t := Leaf(h, s);
      |t| > MAX_EXCERPT && (|t| != MAX_EXCERPT + |ELLIPSIS| || t[MAX_EXCERPT..] != ELLIPSIS)
    requires h.redact(Excerpt(Leaf(h, s))) == Excerpt(Leaf(h, s))
    ensures Leaf(h, Leaf(h, s)) != Leaf(h, s)
  {
    var t := Leaf(h, s);
    assert Excerpt(t)[MAX_EXCERPT..] == ELLIPSIS;
  }

  function Times(t: Text, n: nat): Text {
    if n == 0 then [] else t + Times(t, n - 1)
  }

  lemma {:induction false} TimesLength(t: Text, n: nat)
    ensures |Times(t, n)| == n * |t|
  {
    if n > 0 {
      TimesLength(t, n - 1);
    }
  }

  // 223 short secrets, and what the token pattern makes of them.
  function ManyTokens(): Text { Times(Ascii("token=a "), 223) }

  function ManyRedacted(): Text { Times(Ascii("token=[REDACTED] "), 223) }

  // Cut at 1800 the last secret reads "token=[REDACTED...[TRUNCATED]", and is redacted whole.
  function RedactedAgain(): Text { Times(Ascii("token=[REDACTED] "), 105) + Ascii("token=[REDACTED]") }

  function TokenRedactor(t: Text): Text {
    if t == ManyTokens() then ManyRedacted()
    else if t == Excerpt(ManyRedacted()) then RedactedAgain()
    else t
  }

  // A host whose redactor does to these two texts what the source's patterns do to them.
  function TokenHost(): Host {
    Host(TokenRedactor, t => t, c => false, t => seq(64, _ => 48), t => Url([], [], []), t => [], t => [])
  }

  lemma TokenHostIsSound()
    ensures Sound(TokenHost())
  {
    var h := TokenHost();
    TokenSizes();
    forall t ensures Leaf(h, PublicRef(h, t)) == PublicRef(h, t) {
      assert |PublicRef(h, t)| == 23;
    }
  }

  lemma TokenSizes()
    ensures |ManyTokens()| == 1784 && |ManyRedacted()| == 3791 && |RedactedAgain()| == 1801
  {
    TimesLength(Ascii("token=a "), 223);
    TimesLength(Ascii("token=[REDACTED] "), 223);
    TimesLength(Ascii("token=[REDACTED] "), 105);
  }

  lemma EmptyKeyIsNotSecret(h: Host)
    requires Sound(h)
    ensures !Secret(h, [])
  {
    assert PlainKey([]);
    assert |Normalized(h, [])| == 0;
    forall k | k in SECRET_KEYS ensures |k| > 0 {}
  }

  // So sanitizing is not idempotent: 1,784 characters become 3,791, and the second pass cuts
  // those to 1,801.
  lemma SecondPassCutsAgain()
    ensures var h, s := TokenHost(), ManyTokens();
      && Sound(h) && |s| == 1784 && |Leaf(h, s)| == 3791 && |Leaf(h, Leaf(h, s))| == 1801
      && Safe(h, Safe(h, Str(s), [], 0), [], 0) != Safe(h, Str(s), [], 0)
  {
    TokenHostIsSound();
    TokenSizes();
    EmptyKeyIsNotSecret(TokenHost());
  }
}
