// _safe_value, safe_json, stable_digest, public_reference, _publicize_references and the
// Evidence record. Text redaction, lower-casing, whitespace and hashing are parameters.
module Evidence {
  import opened Wrappers
  import opened Text
  import opened Json
  import opened JsonSize
  import Snapshots

  const MAX_TEXT := 4096
  const MAX_EXCERPT := 1800
  const MAX_JSON_BYTES := 32_000
  const MAX_DEPTH := 6
  const MAX_ITEMS := 100
  const MAX_KEY := 128

  datatype Error = TextInvalid | TooLarge | TransitionInvalid | Incomplete | EvidenceInvalid | MetadataInvalid | Mutated

  // SHA-256 of a value's canonical JSON stands for the value itself: two digests are equal
  // exactly when the values are. NoDigest is the empty text.
  datatype Digest = NoDigest | Sha(of: Snapshots.Frozen)

  function DigestOf(v: Json): Digest { Sha(Snapshots.Freeze(v)) }

  lemma DigestsEqual(v: Json, w: Json)
    requires IsValue(v) && IsValue(w)
    ensures DigestOf(v) == DigestOf(w) <==> Same(v, w)
  {
    Snapshots.FreezeEqualIffSame(v, w);
  }

  // A parsed URL: its host ([] when there is none), its path, and the unquoted path segments.
  datatype Url = Url(host: Text, path: Text, segments: seq<Text>)

  // The functions this model leaves uninterpreted: secret-pattern substitution, str.lower,
  // str.isspace, the 64 hexadecimal digits of SHA-256 of a reference, and the URL functions of
  // the standard library.
  datatype Host = Host(
    redact: Text -> Text, lower: Text -> Text, space: Char -> bool, hash: Text -> Text,
    url: Text -> Url, assetHost: Text -> Text, segments: Text -> seq<Text>)

  ghost predicate PlainKey(t: Text) {
    forall i :: 0 <= i < |t| ==> t[i] == 95 || 97 <= t[i] <= 122
  }

  ghost predicate Sound(h: Host) {
    && (forall t {:trigger h.lower(t)} :: |t| <= |h.lower(t)| && (PlainKey(t) ==> h.lower(t) == t))
    && !h.space(115)
    && (forall t {:trigger h.hash(t)} :: |h.hash(t)| == 64 && forall i :: 0 <= i < 64 ==> !h.space(h.hash(t)[i]))
    && (forall t {:trigger PublicRef(h, t)} :: Leaf(h, t) == t ==> Leaf(h, PublicRef(h, t)) == PublicRef(h, t))
  }

  // ---- Sanitizing ---------------------------------------------------------------------------

  const TRUNCATED := Ascii("[TRUNCATED]")
  const REDACTED := Ascii("[REDACTED]")
  const ELLIPSIS := Ascii("...[TRUNCATED]")

  const SECRET_KEYS := [
    Ascii("authorization"), Ascii("cookie"), Ascii("set-cookie"), Ascii("token"), Ascii("access_token"),
    Ascii("refresh_token"), Ascii("password"), Ascii("secret"), Ascii("api_key"), Ascii("apikey"),
    Ascii("credential"), Ascii("credentials")]

  // key.lower().replace("-", "_")
  function Normalized(h: Host, key: Text): (r: Text)
    ensures |r| == |h.lower(key)|
  {
    var low := h.lower(key);
    seq(|low|, i requires 0 <= i < |low| => if low[i] == 45 then 95 else low[i])
  }

  predicate Secret(h: Host, key: Text) {
    Normalized(h, key) in SECRET_KEYS
  }

  // Dashes are gone before the lookup, so the dashed entry of the list never matches.
  lemma DashedKeyNeverMatches(h: Host, key: Text)
    ensures Normalized(h, key) != Ascii("set-cookie")
  {
    assert Ascii("set-cookie")[3] == 45;
  }

  function Leaf(h: Host, s: Text): Text {
    h.redact(if |s| > MAX_EXCERPT then s[..MAX_EXCERPT] + ELLIPSIS else s)
  }

  function Min(a: nat, b: nat): nat { if a < b then a else b }

  function Cut(key: Text): Text { key[..Min(|key|, MAX_KEY)] }

  // One assignment of a dict comprehension.
  function Assign(fs: seq<Field>, f: Field): (r: seq<Field>)
    ensures |r| <= |fs| + 1
  {
    if fs == [] then [f]
    else if fs[0].name == f.name then [f] + fs[1..]
    else [fs[0]] + Assign(fs[1..], f)
  }

  // A dict comprehension over these pairs: the last value of a name wins, at its first place.
  function Collapse(fs: seq<Field>): (r: seq<Field>)
    ensures |r| <= |fs|
  {
    if fs == [] then [] else Assign(Collapse(fs[..|fs| - 1]), fs[|fs| - 1])
  }

  function Safe(h: Host, v: Json, key: Text, depth: nat): Json
    decreases v
  {
    if depth > MAX_DEPTH then Str(TRUNCATED)
    else if Secret(h, key) then Str(REDACTED)
    else match v
      case Obj(fs) => Obj(Collapse(SafeFields(h, fs, depth + 1)))
      case Arr(items) =>
        Arr(seq(Min(|items|, MAX_ITEMS),
                i requires 0 <= i < Min(|items|, MAX_ITEMS) => Safe(h, items[i], key, depth + 1)))
      case Str(s) => Str(Leaf(h, s))
      case _ => v
  }

  function SafeFields(h: Host, fs: seq<Field>, depth: nat): (r: seq<Field>)
    ensures |r| == Min(|fs|, MAX_ITEMS)
    decreases fs
  {
    seq(Min(|fs|, MAX_ITEMS), i requires 0 <= i < Min(|fs|, MAX_ITEMS) =>
      Field(Cut(fs[i].name), Safe(h, fs[i].value, fs[i].name, depth)))
  }

  // The values sanitizing leaves alone.
  ghost predicate Clean(h: Host, v: Json, key: Text, depth: nat)
    decreases v
  {
    if depth > MAX_DEPTH then v == Str(TRUNCATED)
    else if Secret(h, key) then v == Str(REDACTED)
    else match v
      case Obj(fs) => CleanFields(h, fs, depth + 1)
      case Arr(items) =>
        |items| <= MAX_ITEMS && forall i :: 0 <= i < |items| ==> Clean(h, items[i], key, depth + 1)
      case Str(s) => Leaf(h, s) == s
      case _ => true
  }

  ghost predicate CleanFields(h: Host, fs: seq<Field>, depth: nat)
    decreases fs
  {
    && |fs| <= MAX_ITEMS && DistinctNames(fs)
    && forall i :: 0 <= i < |fs| ==> |fs[i].name| <= MAX_KEY && Clean(h, fs[i].value, fs[i].name, depth)
  }

  ghost predicate Has(fs: seq<Field>, name: Text) {
    exists i :: 0 <= i < |fs| && fs[i].name == name
  }

  lemma HasTail(fs: seq<Field>, name: Text)
    requires fs != [] && fs[0].name != name
    ensures Has(fs, name) <==> Has(fs[1..], name)
  {
    if Has(fs[1..], name) {
      var i :| 0 <= i < |fs[1..]| && fs[1..][i].name == name;
      assert fs[i + 1].name == name;
    }
    if Has(fs, name) {
      var i :| 0 <= i < |fs| && fs[i].name == name;
      assert fs[1..][i - 1].name == name;
    }
  }

  lemma {:induction false} AssignIs(fs: seq<Field>, f: Field)
    requires DistinctNames(fs)
    ensures DistinctNames(Assign(fs, f))
    ensures forall i :: 0 <= i < |Assign(fs, f)| ==> Assign(fs, f)[i] == f || Assign(fs, f)[i] in fs
    ensures |Assign(fs, f)| == |fs| + 1 <==> !Has(fs, f.name)
    ensures !Has(fs, f.name) ==> Assign(fs, f) == fs + [f]
  {
    if fs != [] && fs[0].name != f.name {
      AssignIs(fs[1..], f);
      HasTail(fs, f.name);
      var rest := Assign(fs[1..], f);
      forall j | 0 <= j < |rest| ensures rest[j].name != fs[0].name {
        assert rest[j] == f || rest[j] in fs[1..];
      }
    }
  }

  lemma {:induction false} CollapseIs(fs: seq<Field>)
    ensures DistinctNames(Collapse(fs))
    ensures forall i :: 0 <= i < |Collapse(fs)| ==> Collapse(fs)[i] in fs
  {
    if fs != [] {
      var n := |fs| - 1;
      CollapseIs(fs[..n]);
      AssignIs(Collapse(fs[..n]), fs[n]);
      forall i | 0 <= i < |Collapse(fs)| ensures Collapse(fs)[i] in fs {
        assert Collapse(fs)[i] == fs[n] || Collapse(fs)[i] in fs[..n];
      }
    }
  }

  lemma {:induction false} CollapseKeeps(fs: seq<Field>)
    requires DistinctNames(fs)
    ensures Collapse(fs) == fs
  {
    if fs != [] {
      var n := |fs| - 1;
      CollapseKeeps(fs[..n]);
      AssignIs(fs[..n], fs[n]);
      assert !Has(fs[..n], fs[n].name);
      assert fs == fs[..n] + [fs[n]];
    }
  }

  lemma {:induction false} CollapseShrinks(fs: seq<Field>)
    requires |Collapse(fs)| == |fs|
    ensures DistinctNames(fs)
  {
    if fs != [] {
      var n := |fs| - 1;
      var init := fs[..n];
      CollapseShrinks(init);
      CollapseKeeps(init);
      AssignIs(init, fs[n]);
      assert !Has(init, fs[n].name);
      forall i | 0 <= i < n ensures fs[i].name != fs[n].name {
        assert init[i].name == fs[i].name;
      }
    }
  }

  // Sanitizing leaves a value alone exactly when it is clean.
  lemma {:induction false} SafeFixesExactlyCleanValues(h: Host, v: Json, key: Text, depth: nat)
    ensures Safe(h, v, key, depth) == v <==> Clean(h, v, key, depth)
    decreases v
  {
    if depth <= MAX_DEPTH && !Secret(h, key) {
      if v.Obj? {
        FieldsFixed(h, v.fields, depth + 1);
      } else if v.Arr? {
        ItemsFixed(h, v.items, key, depth);
      }
    }
  }

  lemma ItemsFixed(h: Host, items: seq<Json>, key: Text, depth: nat)
    requires depth <= MAX_DEPTH && !Secret(h, key)
    ensures Safe(h, Arr(items), key, depth) == Arr(items) <==> Clean(h, Arr(items), key, depth)
    decreases items
  {
    forall i | 0 <= i < |items| {
      SafeFixesExactlyCleanValues(h, items[i], key, depth + 1);
    }
    var out := Safe(h, Arr(items), key, depth).items;
    if out == items {
      forall i | 0 <= i < |items| ensures Clean(h, items[i], key, depth + 1) {
        assert out[i] == items[i];
      }
    }
  }

  lemma FieldsFixed(h: Host, fs: seq<Field>, depth: nat)
    ensures Collapse(SafeFields(h, fs, depth)) == fs <==> CleanFields(h, fs, depth)
    decreases fs
  {
    forall i | 0 <= i < |fs| {
      SafeFixesExactlyCleanValues(h, fs[i].value, fs[i].name, depth);
    }
    var mapped := SafeFields(h, fs, depth);
    if Collapse(mapped) == fs {
      CollapseShrinks(mapped);
      CollapseKeeps(mapped);
      forall i | 0 <= i < |fs| ensures |fs[i].name| <= MAX_KEY && Clean(h, fs[i].value, fs[i].name, depth) {
        assert mapped[i] == fs[i];
      }
    }
    if CleanFields(h, fs, depth) {
      forall i | 0 <= i < |fs| ensures mapped[i] == fs[i] {
        assert |fs[i].name| <= MAX_KEY && fs[i].name[..|fs[i].name|] == fs[i].name;
      }
      assert mapped == fs;
      CollapseKeeps(fs);
    }
  }

  // No secret key is long enough to be cut.
  lemma CutKeepsSecrecy(h: Host, key: Text)
    requires Sound(h)
    ensures Secret(h, Cut(key)) <==> Secret(h, key)
  {
    forall k | k in SECRET_KEYS ensures |k| <= 13 {}
    if |key| <= MAX_KEY {
      assert Cut(key) == key;
    }
  }

  lemma {:induction false} CleanKey(h: Host, v: Json, key: Text, other: Text, depth: nat)
    requires Secret(h, key) == Secret(h, other) && Clean(h, v, key, depth)
    ensures Clean(h, v, other, depth)
    decreases v
  {
    if v.Arr? && depth <= MAX_DEPTH && !Secret(h, key) {
      forall i | 0 <= i < |v.items| {
        CleanKey(h, v.items[i], key, other, depth + 1);
      }
    }
  }

  lemma {:induction false} SafeIsValue(h: Host, v: Json, key: Text, depth: nat)
    ensures IsValue(Safe(h, v, key, depth))
    decreases v
  {
    if depth <= MAX_DEPTH && !Secret(h, key) {
      match v
      case Obj(fs) => FieldsAreValues(h, fs, depth + 1);
      case Arr(items) =>
        forall i | 0 <= i < Min(|items|, MAX_ITEMS) {
          SafeIsValue(h, items[i], key, depth + 1);
        }
      case _ =>
    }
  }

  lemma FieldsAreValues(h: Host, fs: seq<Field>, depth: nat)
    ensures IsValue(Obj(Collapse(SafeFields(h, fs, depth))))
    decreases fs
  {
    var mapped := SafeFields(h, fs, depth);
    CollapseIs(mapped);
    forall i | 0 <= i < |Collapse(mapped)| ensures IsValue(Collapse(mapped)[i].value) {
      var j :| 0 <= j < |mapped| && mapped[j] == Collapse(mapped)[i];
      SafeIsValue(h, fs[j].value, fs[j].name, depth);
    }
  }

  // ---- Public references --------------------------------------------------------------------

  function TrimLeft(h: Host, t: Text): Text {
    if t != [] && h.space(t[0]) then TrimLeft(h, t[1..]) else t
  }

  function TrimRight(h: Host, t: Text): Text {
    if t != [] && h.space(t[|t| - 1]) then TrimRight(h, t[..|t| - 1]) else t
  }

  function Strip(h: Host, t: Text): Text { TrimRight(h, TrimLeft(h, t)) }

  // _bounded_text: the stripped text, or an error.
  function Bounded(h: Host, t: Text): Result<Text, Error> {
    if Strip(h, t) == [] || |Strip(h, t)| > MAX_TEXT then Err(TextInvalid) else Ok(Strip(h, t))
  }

  const PUBLIC_PREFIX := Ascii("sha256:")
  const PUBLIC_DIGITS := 16

  predicate IsPublic(t: Text) {
    PUBLIC_PREFIX <= t && |t| == |PUBLIC_PREFIX| + PUBLIC_DIGITS
  }

  // public_reference on text that _bounded_text accepts.
  function PublicRef(h: Host, t: Text): Text {
    var s := Strip(h, t);
    if IsPublic(s) then s else PUBLIC_PREFIX + h.hash(s)[..Min(|h.hash(s)|, PUBLIC_DIGITS)]
  }

  const AUTHORIZATION_REFERENCE := Ascii("authorization_reference")
  const SCOPE_REFERENCE := Ascii("scope_reference")

  predicate Ref(h: Host, key: Text) {
    Normalized(h, key) == AUTHORIZATION_REFERENCE || Normalized(h, key) == SCOPE_REFERENCE
  }

  function Publicize(h: Host, v: Json, key: Text): Json
    decreases v
  {
    match v
    case Str(s) => if Ref(h, key) then Str(PublicRef(h, s)) else v
    case Obj(fs) => Obj(PublicFields(h, fs))
    case Arr(items) => Arr(seq(|items|, i requires 0 <= i < |items| => Publicize(h, items[i], key)))
    case _ => v
  }

  function PublicFields(h: Host, fs: seq<Field>): (r: seq<Field>)
    ensures |r| == |fs|
    decreases fs
  {
    seq(|fs|, i requires 0 <= i < |fs| => Field(fs[i].name, Publicize(h, fs[i].value, fs[i].name)))
  }

  // No reference in the value makes public_reference raise.
  predicate Publishable(h: Host, v: Json, key: Text)
    decreases v
  {
    match v
    case Str(s) => Ref(h, key) ==> Bounded(h, s).Ok?
    case Obj(fs) => PublishableFields(h, fs)
    case Arr(items) => forall i :: 0 <= i < |items| ==> Publishable(h, items[i], key)
    case _ => true
  }

  predicate PublishableFields(h: Host, fs: seq<Field>)
    decreases fs
  {
    forall i :: 0 <= i < |fs| ==> Publishable(h, fs[i].value, fs[i].name)
  }

  lemma {:induction false} TrimRightIs(h: Host, t: Text)
    ensures TrimRight(h, t) <= t
    ensures TrimRight(h, t) == [] || !h.space(TrimRight(h, t)[|TrimRight(h, t)| - 1])
  {
    if t != [] && h.space(t[|t| - 1]) {
      TrimRightIs(h, t[..|t| - 1]);
    }
  }

  lemma {:induction false} TrimLeftIs(h: Host, t: Text)
    ensures TrimLeft(h, t) == [] || !h.space(TrimLeft(h, t)[0])
  {
    if t != [] && h.space(t[0]) {
      TrimLeftIs(h, t[1..]);
    }
  }

  lemma StripTwice(h: Host, t: Text)
    ensures Strip(h, Strip(h, t)) == Strip(h, t)
  {
    TrimLeftIs(h, t);
    TrimRightIs(h, TrimLeft(h, t));
    var s := Strip(h, t);
    if s != [] {
      assert s[0] == TrimLeft(h, t)[0];
    }
  }

  lemma PublicRefIsPublic(h: Host, t: Text)
    requires Sound(h)
    ensures IsPublic(PublicRef(h, t)) && Bounded(h, PublicRef(h, t)) == Ok(PublicRef(h, t))
    ensures PublicRef(h, PublicRef(h, t)) == PublicRef(h, t)
  {
    StripTwice(h, t);
    var p := PublicRef(h, t);
    if !IsPublic(Strip(h, t)) {
      assert !h.space(p[0]) && !h.space(p[|p| - 1]);
      assert Strip(h, p) == p;
    }
  }

  lemma {:induction false} PublicizeIsIdempotent(h: Host, v: Json, key: Text)
    requires Sound(h)
    ensures Publicize(h, Publicize(h, v, key), key) == Publicize(h, v, key)
    ensures Publishable(h, Publicize(h, v, key), key)
    decreases v
  {
    match v
    case Str(s) => PublicRefIsPublic(h, s);
    case Obj(fs) =>
      forall i | 0 <= i < |fs| {
        PublicizeIsIdempotent(h, fs[i].value, fs[i].name);
      }
    case Arr(items) =>
      forall i | 0 <= i < |items| {
        PublicizeIsIdempotent(h, items[i], key);
      }
    case _ =>
  }

  lemma SecretIsNotRef(h: Host, key: Text)
    requires Secret(h, key)
    ensures !Ref(h, key)
  {
    forall k | k in SECRET_KEYS ensures |k| <= 13 {}
  }

  // Sanitizing a publicized clean value settles after one pass, and loses no reference:
  // publicizing again gives the same value. Only truncation markers below the depth bound,
  // publicized as if they were references, are put back by sanitizing.
  lemma {:induction false} PublicizeSettles(h: Host, v: Json, key: Text, depth: nat)
    requires Sound(h) && Clean(h, v, key, depth)
    ensures var p := Safe(h, Publicize(h, v, key), key, depth);
      Clean(h, p, key, depth) && Publicize(h, p, key) == Publicize(h, v, key)
    decreases v
  {
    if depth > MAX_DEPTH {
    } else if Secret(h, key) {
      SecretIsNotRef(h, key);
    } else {
      match v
      case Obj(fs) => FieldsSettle(h, fs, depth + 1);
      case Arr(items) => ItemsSettle(h, items, key, depth);
      case Str(s) => PublicRefIsPublic(h, s);
      case _ =>
    }
  }

  lemma ItemsSettle(h: Host, items: seq<Json>, key: Text, depth: nat)
    requires Sound(h) && Clean(h, Arr(items), key, depth) && depth <= MAX_DEPTH && !Secret(h, key)
    ensures var p := Safe(h, Publicize(h, Arr(items), key), key, depth);
      Clean(h, p, key, depth) && Publicize(h, p, key) == Publicize(h, Arr(items), key)
    decreases items
  {
    var once := Publicize(h, Arr(items), key);
    var p := Safe(h, once, key, depth);
    forall i | 0 <= i < |items|
      ensures Clean(h, p.items[i], key, depth + 1) && Publicize(h, p.items[i], key) == once.items[i]
    {
      PublicizeSettles(h, items[i], key, depth + 1);
    }
    assert Publicize(h, p, key).items == once.items;
  }

  lemma FieldsStayApart(h: Host, fs: seq<Field>, depth: nat)
    requires CleanFields(h, fs, depth)
    ensures var mapped := SafeFields(h, PublicFields(h, fs), depth);
      && Collapse(mapped) == mapped && DistinctNames(mapped)
      && forall i :: 0 <= i < |fs| ==> mapped[i].name == fs[i].name
  {
    var mapped := SafeFields(h, PublicFields(h, fs), depth);
    forall i | 0 <= i < |fs| ensures mapped[i].name == fs[i].name {
      assert |fs[i].name| <= MAX_KEY && fs[i].name[..|fs[i].name|] == fs[i].name;
    }
    CollapseKeeps(mapped);
  }

  lemma FieldsSettle(h: Host, fs: seq<Field>, depth: nat)
    requires Sound(h) && CleanFields(h, fs, depth)
    ensures var out := Collapse(SafeFields(h, PublicFields(h, fs), depth));
      CleanFields(h, out, depth) && PublicFields(h, out) == PublicFields(h, fs)
    decreases fs
  {
    var pub := PublicFields(h, fs);
    var mapped := SafeFields(h, pub, depth);
    FieldsStayApart(h, fs, depth);
    forall i | 0 <= i < |fs|
      ensures Clean(h, mapped[i].value, mapped[i].name, depth) && |mapped[i].name| <= MAX_KEY
      ensures Publicize(h, mapped[i].value, mapped[i].name) == pub[i].value
    {
      PublicizeSettles(h, fs[i].value, fs[i].name, depth);
    }
    assert PublicFields(h, mapped) == pub;
  }

  lemma {:induction false} PublishableSettles(h: Host, v: Json, key: Text, depth: nat)
    requires Sound(h) && Clean(h, v, key, depth) && Publishable(h, v, key)
    ensures Publishable(h, Safe(h, Publicize(h, v, key), key, depth), key)
    decreases v
  {
    if depth > MAX_DEPTH {
    } else if Secret(h, key) {
      SecretIsNotRef(h, key);
    } else {
      match v
      case Obj(fs) => PublishableFieldsSettle(h, fs, depth + 1);
      case Arr(items) =>
        forall i | 0 <= i < |items| {
          PublishableSettles(h, items[i], key, depth + 1);
        }
      case Str(s) => PublicRefIsPublic(h, s);
      case _ =>
    }
  }

  lemma PublishableFieldsSettle(h: Host, fs: seq<Field>, depth: nat)
    requires Sound(h) && CleanFields(h, fs, depth) && PublishableFields(h, fs)
    ensures PublishableFields(h, Collapse(SafeFields(h, PublicFields(h, fs), depth)))
    decreases fs
  {
    FieldsStayApart(h, fs, depth);
    forall i | 0 <= i < |fs| {
      PublishableSettles(h, fs[i].value, fs[i].name, depth);
    }
  }

  // The assumptions on the host's functions can be met.
  lemma SoundHostExists() returns (h: Host)
    ensures Sound(h)
  {
    h := Host(t => t, t => t, c => false, t => seq(64, _ => 48), t => Url([], [], []), t => [], t => []);
    forall t ensures Leaf(h, PublicRef(h, t)) == PublicRef(h, t) {
      assert |PublicRef(h, t)| == 23;
    }
  }
}
