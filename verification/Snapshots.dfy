// _freeze_value and _thaw_value: nested JSON values as tagged tuples with sorted fields, and
// the action snapshots built on them.
module Snapshots {
  import opened Wrappers
  import opened Text
  import opened Json

  // Python tuples over scalars.
  datatype Frozen = Scalar(v: Json) | Tuple(items: seq<Frozen>)

  const DICT_TAG: Text := [95, 95, 100, 105, 99, 116, 95, 95]
  const LIST_TAG: Text := [95, 95, 108, 105, 115, 116, 95, 95]

  datatype Pair = Pair(name: Text, value: Frozen)

  // ---- Sorting pairs by name ---------------------------------------------------------------

  function Insert(p: Pair, ps: seq<Pair>): seq<Pair> {
    if ps == [] || Less(p.name, ps[0].name) then [p] + ps
    else [ps[0]] + Insert(p, ps[1..])
  }

  function Sort(ps: seq<Pair>): seq<Pair> {
    if ps == [] then [] else Insert(ps[0], Sort(ps[1..]))
  }

  ghost predicate Sorted(ps: seq<Pair>) {
    forall i, j :: 0 <= i < j < |ps| ==> Less(ps[i].name, ps[j].name)
  }

  ghost predicate DistinctPairs(ps: seq<Pair>) {
    forall i, j :: 0 <= i < j < |ps| ==> ps[i].name != ps[j].name
  }

  lemma {:induction false} InsertElements(p: Pair, ps: seq<Pair>)
    ensures |Insert(p, ps)| == |ps| + 1
    ensures forall x :: x in Insert(p, ps) <==> x == p || x in ps
  {
    if ps != [] && !Less(p.name, ps[0].name) {
      InsertElements(p, ps[1..]);
      assert ps == [ps[0]] + ps[1..];
    }
  }

  lemma {:induction false} InsertKeepsSorted(p: Pair, ps: seq<Pair>)
    requires Sorted(ps) && forall i :: 0 <= i < |ps| ==> ps[i].name != p.name
    ensures Sorted(Insert(p, ps))
  {
    if ps == [] {
    } else if Less(p.name, ps[0].name) {
      forall i | 1 <= i < |ps| ensures Less(p.name, ps[i].name) {
        LessTransitive(p.name, ps[0].name, ps[i].name);
      }
    } else {
      LessTotal(p.name, ps[0].name);
      InsertKeepsSorted(p, ps[1..]);
      InsertElements(p, ps[1..]);
      var rest := Insert(p, ps[1..]);
      forall j | 0 <= j < |rest| ensures Less(ps[0].name, rest[j].name) {
        assert rest[j] in rest;
      }
    }
  }

  lemma {:induction false} SortIs(ps: seq<Pair>)
    ensures |Sort(ps)| == |ps| && forall x :: x in Sort(ps) <==> x in ps
    ensures DistinctPairs(ps) ==> Sorted(Sort(ps))
  {
    if ps != [] {
      SortIs(ps[1..]);
      InsertElements(ps[0], Sort(ps[1..]));
      assert ps == [ps[0]] + ps[1..];
      if DistinctPairs(ps) {
        forall i | 0 <= i < |Sort(ps[1..])| ensures Sort(ps[1..])[i].name != ps[0].name {
          assert Sort(ps[1..])[i] in ps[1..];
        }
        InsertKeepsSorted(ps[0], Sort(ps[1..]));
      }
    }
  }

  ghost predicate SameMembers(p: seq<Pair>, q: seq<Pair>) {
    forall x :: x in p <==> x in q
  }

  // Strictly sorted lists with the same elements are equal.
  lemma {:induction false} SortedIsUnique(p: seq<Pair>, q: seq<Pair>)
    requires Sorted(p) && Sorted(q) && SameMembers(p, q)
    ensures p == q
  {
    assert p == [] || p[0] in q;
    assert q == [] || q[0] in p;
    if p != [] {
      SortedHeads(p, q);
      forall x ensures x in p[1..] <==> x in q[1..] {
        TailMembers(p, x);
        TailMembers(q, x);
      }
      SortedIsUnique(p[1..], q[1..]);
      assert p == [p[0]] + p[1..] && q == [q[0]] + q[1..];
    }
  }

  lemma TailMembers(p: seq<Pair>, x: Pair)
    requires p != [] && Sorted(p)
    ensures x in p[1..] <==> x in p && x != p[0]
  {
    LessIrreflexive(p[0].name);
    assert p == [p[0]] + p[1..];
  }

  lemma SortedHeads(p: seq<Pair>, q: seq<Pair>)
    requires p != [] && q != [] && Sorted(p) && Sorted(q) && SameMembers(p, q)
    ensures p[0] == q[0]
  {
    assert p[0] in q && q[0] in p;
    if p[0] != q[0] {
      LessTransitive(p[0].name, q[0].name, p[0].name);
      LessIrreflexive(p[0].name);
    }
  }

  // ---- Freezing ------------------------------------------------------------------------------

  function Freeze(v: Json): Frozen
    decreases v
  {
    match v
    case Arr(items) => Tuple([Scalar(Str(LIST_TAG)), Tuple(FreezeAll(items))])
    case Obj(fs) => Tuple([Scalar(Str(DICT_TAG)), Tuple(Tuples(Sort(FreezeFields(fs))))])
    case _ => Scalar(v)
  }

  function FreezeAll(items: seq<Json>): (r: seq<Frozen>)
    ensures |r| == |items|
    decreases items
  {
    if items == [] then [] else [Freeze(items[0])] + FreezeAll(items[1..])
  }

  function FreezeFields(fs: seq<Field>): (r: seq<Pair>)
    ensures |r| == |fs|
    decreases fs
  {
    if fs == [] then [] else [Pair(fs[0].name, Freeze(fs[0].value))] + FreezeFields(fs[1..])
  }

  function Tuples(ps: seq<Pair>): (r: seq<Frozen>)
    ensures |r| == |ps| && forall i :: 0 <= i < |ps| ==> r[i] == Tuple([Scalar(Str(ps[i].name)), ps[i].value])
  {
    seq(|ps|, i requires 0 <= i < |ps| => Tuple([Scalar(Str(ps[i].name)), ps[i].value]))
  }

  lemma {:induction false} FreezeAllAt(items: seq<Json>, i: nat)
    requires i < |items|
    ensures FreezeAll(items)[i] == Freeze(items[i])
  {
    if i > 0 {
      FreezeAllAt(items[1..], i - 1);
    }
  }

  lemma {:induction false} FreezeFieldsAt(fs: seq<Field>, i: nat)
    requires i < |fs|
    ensures FreezeFields(fs)[i] == Pair(fs[i].name, Freeze(fs[i].value))
  {
    if i > 0 {
      FreezeFieldsAt(fs[1..], i - 1);
    }
  }

  lemma FrozenFieldsDistinct(fs: seq<Field>)
    requires DistinctNames(fs)
    ensures DistinctPairs(FreezeFields(fs))
  {
    forall i | 0 <= i < |fs| ensures FreezeFields(fs)[i].name == fs[i].name {
      FreezeFieldsAt(fs, i);
    }
  }

  // _thaw_value on the tuples _freeze_value makes; None stands for anything that is not a
  // JSON value.
  function Thaw(f: Frozen): Option<Json>
    decreases f
  {
    match f
    case Scalar(v) => Some(v)
    case Tuple(items) =>
      if |items| != 2 || !items[1].Tuple? then None
      else if items[0] == Scalar(Str(DICT_TAG)) then
        var fs := ThawFields(items[1].items);
        if fs.None? then None else Some(Obj(fs.value))
      else if items[0] == Scalar(Str(LIST_TAG)) then
        var vs := ThawAll(items[1].items);
        if vs.None? then None else Some(Arr(vs.value))
      else None
  }

  function ThawAll(items: seq<Frozen>): Option<seq<Json>>
    decreases items
  {
    if items == [] then Some([])
    else
      var head, tail := Thaw(items[0]), ThawAll(items[1..]);
      if head.None? || tail.None? then None else Some([head.value] + tail.value)
  }

  function ThawFields(items: seq<Frozen>): Option<seq<Field>>
    decreases items
  {
    if items == [] then Some([])
    else if !items[0].Tuple? || |items[0].items| != 2 || !items[0].items[0].Scalar? || !items[0].items[0].v.Str?
    then None
    else
      var head, tail := Thaw(items[0].items[1]), ThawFields(items[1..]);
      if head.None? || tail.None? then None else Some([Field(items[0].items[0].v.s, head.value)] + tail.value)
  }

  // ---- Faithfulness ------------------------------------------------------------------------

  lemma SortsAgree(f: seq<Field>, g: seq<Field>)
    requires DistinctNames(f) && DistinctNames(g)
    ensures Sort(FreezeFields(f)) == Sort(FreezeFields(g)) <==> SameMembers(FreezeFields(f), FreezeFields(g))
  {
    var p, q := FreezeFields(f), FreezeFields(g);
    SortIs(p);
    SortIs(q);
    FrozenFieldsDistinct(f);
    FrozenFieldsDistinct(g);
    if SameMembers(p, q) {
      SortedIsUnique(Sort(p), Sort(q));
    }
    if Sort(p) == Sort(q) {
      forall x ensures x in p <==> x in q {
        assert x in Sort(p) <==> x in Sort(q);
      }
    }
  }

  lemma TuplesInjective(p: seq<Pair>, q: seq<Pair>)
    ensures Tuples(p) == Tuples(q) <==> p == q
  {
    if Tuples(p) == Tuples(q) {
      forall i | 0 <= i < |p| ensures p[i] == q[i] {
        assert Tuples(p)[i] == Tuples(q)[i];
      }
    }
  }

  // Distinct-name lists of equal length: one-sided inclusion is equality of members.
  lemma InclusionIsEquality(p: seq<Pair>, q: seq<Pair>)
    requires DistinctPairs(p) && DistinctPairs(q) && |p| == |q|
    requires forall x :: x in p ==> x in q
    ensures forall x :: x in q ==> x in p
  {
    var ps, qs := set x | x in p, set x | x in q;
    MembersCount(p);
    MembersCount(q);
    assert ps <= qs;
    assert |qs - ps| == |qs| - |ps|;
    assert qs - ps == {};
    forall x | x in q ensures x in p {
      assert x in qs && x !in qs - ps;
    }
  }

  lemma {:induction false} MembersCount(p: seq<Pair>)
    requires DistinctPairs(p)
    ensures |set x | x in p| == |p|
  {
    if p != [] {
      MembersCount(p[1..]);
      assert (set x | x in p) == {p[0]} + (set x | x in p[1..]) by {
        assert p == [p[0]] + p[1..];
      }
      assert p[0] !in p[1..];
    }
  }

  // Freezing identifies exactly the equal values: it is injective up to the insertion order
  // of fields, and independent of that order. So comparing snapshots detects every change.
  lemma {:induction false} FreezeEqualIffSame(v: Json, w: Json)
    requires IsValue(v) && IsValue(w)
    ensures Freeze(v) == Freeze(w) <==> Same(v, w)
    decreases v
  {
    if v.Arr? && w.Arr? {
      FreezeListsAgree(v.items, w.items);
    } else if v.Obj? && w.Obj? {
      FreezeObjectsAgree(v.fields, w.fields);
    } else {
      assert DICT_TAG[2] != LIST_TAG[2];
    }
  }

  lemma FreezeListsAgree(x: seq<Json>, y: seq<Json>)
    requires IsValue(Arr(x)) && IsValue(Arr(y))
    ensures Freeze(Arr(x)) == Freeze(Arr(y)) <==> Same(Arr(x), Arr(y))
    decreases x
  {
    forall i | 0 <= i < |x| ensures FreezeAll(x)[i] == Freeze(x[i]) { FreezeAllAt(x, i); }
    forall i | 0 <= i < |y| ensures FreezeAll(y)[i] == Freeze(y[i]) { FreezeAllAt(y, i); }
    if |x| == |y| {
      forall i | 0 <= i < |x| ensures Freeze(x[i]) == Freeze(y[i]) <==> Same(x[i], y[i]) {
        FreezeEqualIffSame(x[i], y[i]);
      }
      if Same(Arr(x), Arr(y)) {
        assert FreezeAll(x) == FreezeAll(y);
      }
    }
    assert Freeze(Arr(x)).items[1].items == FreezeAll(x) && Freeze(Arr(y)).items[1].items == FreezeAll(y);
    if Freeze(Arr(x)) == Freeze(Arr(y)) {
      assert FreezeAll(x) == FreezeAll(y);
      assert |x| == |y|;
    }
  }

  lemma FrozenObjectsAgree(f: seq<Field>, g: seq<Field>)
    requires DistinctNames(f) && DistinctNames(g)
    ensures Freeze(Obj(f)) == Freeze(Obj(g)) <==> SameMembers(FreezeFields(f), FreezeFields(g))
  {
    SortsAgree(f, g);
    TuplesInjective(Sort(FreezeFields(f)), Sort(FreezeFields(g)));
    assert Freeze(Obj(f)).items[1].items == Tuples(Sort(FreezeFields(f)));
    assert Freeze(Obj(g)).items[1].items == Tuples(Sort(FreezeFields(g)));
  }

  // The pairwise comparison that both sides of the object case reduce to.
  ghost predicate PairsMatch(f: seq<Field>, g: seq<Field>) {
    forall i, j :: 0 <= i < |f| && 0 <= j < |g| ==>
      (FreezeFields(f)[i] == FreezeFields(g)[j] <==> f[i].name == g[j].name && Same(f[i].value, g[j].value))
  }

  lemma EqualMembersAreSame(f: seq<Field>, g: seq<Field>)
    requires DistinctNames(f) && DistinctNames(g) && PairsMatch(f, g)
    requires SameMembers(FreezeFields(f), FreezeFields(g))
    ensures Same(Obj(f), Obj(g))
  {
    var p, q := FreezeFields(f), FreezeFields(g);
    FrozenFieldsDistinct(f);
    FrozenFieldsDistinct(g);
    MembersCount(p);
    MembersCount(q);
    assert (set x | x in p) == (set x | x in q);
    forall i | 0 <= i < |f|
      ensures exists j :: 0 <= j < |g| && f[i].name == g[j].name && Same(f[i].value, g[j].value)
    {
      assert p[i] in q;
      var j :| 0 <= j < |q| && q[j] == p[i];
    }
  }

  lemma SameHasEqualMembers(f: seq<Field>, g: seq<Field>)
    requires DistinctNames(f) && DistinctNames(g) && PairsMatch(f, g)
    requires Same(Obj(f), Obj(g))
    ensures SameMembers(FreezeFields(f), FreezeFields(g))
  {
    var p, q := FreezeFields(f), FreezeFields(g);
    forall x | x in p ensures x in q {
      var i :| 0 <= i < |p| && p[i] == x;
      var j :| 0 <= j < |g| && f[i].name == g[j].name && Same(f[i].value, g[j].value);
      assert q[j] == x;
    }
    FrozenFieldsDistinct(f);
    FrozenFieldsDistinct(g);
    InclusionIsEquality(p, q);
  }

  lemma FreezeObjectsAgree(f: seq<Field>, g: seq<Field>)
    requires IsValue(Obj(f)) && IsValue(Obj(g))
    ensures Freeze(Obj(f)) == Freeze(Obj(g)) <==> Same(Obj(f), Obj(g))
    decreases f
  {
    forall i, j | 0 <= i < |f| && 0 <= j < |g|
      ensures FreezeFields(f)[i] == FreezeFields(g)[j] <==> f[i].name == g[j].name && Same(f[i].value, g[j].value)
    {
      FreezeFieldsAt(f, i);
      FreezeFieldsAt(g, j);
      FreezeEqualIffSame(f[i].value, g[j].value);
    }
    FrozenObjectsAgree(f, g);
    if Same(Obj(f), Obj(g)) {
      SameHasEqualMembers(f, g);
    }
    if SameMembers(FreezeFields(f), FreezeFields(g)) {
      EqualMembersAreSame(f, g);
    }
  }

  lemma {:induction false} ThawAllAt(items: seq<Frozen>)
    requires forall i :: 0 <= i < |items| ==> Thaw(items[i]).Some?
    ensures ThawAll(items).Some? && |ThawAll(items).value| == |items|
    ensures forall i :: 0 <= i < |items| ==> ThawAll(items).value[i] == Thaw(items[i]).value
  {
    if items != [] {
      ThawAllAt(items[1..]);
    }
  }

  lemma {:induction false} ThawFieldsAt(ps: seq<Pair>)
    requires forall i :: 0 <= i < |ps| ==> Thaw(ps[i].value).Some?
    ensures ThawFields(Tuples(ps)).Some? && |ThawFields(Tuples(ps)).value| == |ps|
    ensures forall i :: 0 <= i < |ps| ==> ThawFields(Tuples(ps)).value[i] == Field(ps[i].name, Thaw(ps[i].value).value)
  {
    if ps != [] {
      ThawFieldsAt(ps[1..]);
      assert Tuples(ps)[1..] == Tuples(ps[1..]);
    }
  }

  // Thawing a frozen value gives the value back, up to the order of fields.
  lemma {:induction false} ThawFreeze(v: Json)
    requires IsValue(v)
    ensures Thaw(Freeze(v)).Some? && Same(Thaw(Freeze(v)).value, v)
    decreases v
  {
    match v
    case Arr(items) => ThawList(items);
    case Obj(fs) => ThawObject(fs);
    case _ =>
  }

  lemma ThawList(items: seq<Json>)
    requires IsValue(Arr(items))
    ensures Thaw(Freeze(Arr(items))).Some? && Same(Thaw(Freeze(Arr(items))).value, Arr(items))
    decreases items
  {
    forall i | 0 <= i < |items|
      ensures Thaw(FreezeAll(items)[i]).Some? && Same(Thaw(FreezeAll(items)[i]).value, items[i])
    {
      FreezeAllAt(items, i);
      ThawFreeze(items[i]);
    }
    ThawAllAt(FreezeAll(items));
    assert DICT_TAG[2] != LIST_TAG[2];
  }

  lemma ThawPair(fs: seq<Field>, p: Pair) returns (i: nat)
    requires IsValue(Obj(fs)) && p in FreezeFields(fs)
    ensures i < |fs| && p.name == fs[i].name
    ensures Thaw(p.value).Some? && Same(Thaw(p.value).value, fs[i].value)
    decreases fs, 0
  {
    i :| 0 <= i < |fs| && FreezeFields(fs)[i] == p;
    FreezeFieldsAt(fs, i);
    ThawFreeze(fs[i].value);
  }

  lemma ThawObject(fs: seq<Field>)
    requires IsValue(Obj(fs))
    ensures Thaw(Freeze(Obj(fs))).Some? && Same(Thaw(Freeze(Obj(fs))).value, Obj(fs))
    decreases fs, 1
  {
    var ps := Sort(FreezeFields(fs));
    SortIs(FreezeFields(fs));
    forall k | 0 <= k < |ps|
      ensures Thaw(ps[k].value).Some?
      ensures exists i :: 0 <= i < |fs| && ps[k].name == fs[i].name && Same(Thaw(ps[k].value).value, fs[i].value)
    {
      assert ps[k] in FreezeFields(fs);
      var i := ThawPair(fs, ps[k]);
    }
    ThawFieldsAt(ps);
  }
}
