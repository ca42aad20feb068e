// The output-fitting loops of the local evidence stages.
module Fitting {
  import opened Text
  import opened TextSets
  import opened Json
  import opened JsonSize

  // json.dumps separates with ", " and ": ".
  const SEP := 2

  // The smallest budget a research stage accepts.
  const MIN_STAGE_OUTPUT_BYTES := 256

  const LIMIT_REACHED := Ascii("stage_output_limit_reached")

  function Bytes(v: Json): nat { Size(v, SEP) }

  function Texts(ts: seq<Text>): Json { Arr(seq(|ts|, i requires 0 <= i < |ts| => Str(ts[i]))) }

  function Named(name: string, v: Json): Field { Field(Ascii(name), v) }

  lemma Grow(fs: seq<Field>, f: Field)
    ensures FieldsSize(fs + [f], SEP)
         == FieldsSize(fs, SEP) + (if fs == [] then 0 else SEP) + 2 + TextSize(f.name) + SEP + Bytes(f.value)
  {
    assert (fs + [f])[..|fs|] == fs;
  }

  // ---- The inventory -------------------------------------------------------------------------

  const INVENTORY_FALLBACK :=
    Obj([Named("kind", Str(Ascii("LOCAL_INVENTORY"))), Named("network_accessed", Bool(false)), Named("files", Arr([])),
         Named("endpoints", Arr([])), Named("urls_observed", Arr([])), Named("packages", Arr([])),
         Named("limitations", Texts([LIMIT_REACHED])), Named("artifact_count", Num(0))])

  lemma {:induction false} IntSizeGrows(m: nat, n: nat)
    requires m <= n
    ensures IntSize(m) <= IntSize(n)
  {
    if n >= 10 && m >= 10 {
      IntSizeGrows(m / 10, n / 10);
    }
  }

  // The four lists in the order in which ties between longest lists are broken.
  const ENDPOINTS := 0
  const URLS := 1
  const PACKAGES := 2
  const FILES := 3

  // Every list is a prefix of what it was, and one that was cut was cut only while no other
  // list was longer.
  ghost predicate Trimmed(was: seq<seq<Json>>, now: seq<seq<Json>>) {
    && |now| == |was|
    && (forall i :: 0 <= i < |was| ==> now[i] <= was[i])
    && (forall i, j :: 0 <= i < |was| && 0 <= j < |was| && |now[i]| < |was[i]| ==> |now[j]| <= |now[i]| + 1)
  }

  function Total(lists: seq<seq<Json>>): nat {
    if lists == [] then 0 else Total(lists[..|lists| - 1]) + |lists[|lists| - 1]|
  }

  // The first longest list.
  predicate Longest(lists: seq<seq<Json>>, m: nat) {
    && m < |lists|
    && (forall i :: 0 <= i < |lists| ==> |lists[i]| <= |lists[m]|)
    && (forall i :: 0 <= i < m ==> |lists[i]| < |lists[m]|)
  }

  function Popped(lists: seq<seq<Json>>, m: nat): seq<seq<Json>>
    requires m < |lists| && lists[m] != []
  {
    lists[m := lists[m][..|lists[m]| - 1]]
  }

  lemma PoppedIsTrimmed(was: seq<seq<Json>>, now: seq<seq<Json>>, m: nat)
    requires Trimmed(was, now) && Longest(now, m) && now[m] != []
    ensures Trimmed(was, Popped(now, m))
  {}

  lemma {:induction false} PoppedIsSmaller(lists: seq<seq<Json>>, m: nat)
    requires m < |lists| && lists[m] != []
    ensures Total(Popped(lists, m)) == Total(lists) - 1
  {
    var n := |lists| - 1;
    if m < n {
      PoppedIsSmaller(lists[..n], m);
      assert Popped(lists, m)[..n] == Popped(lists[..n], m);
    } else {
      assert Popped(lists, m)[..n] == lists[..n];
    }
  }

  class Inventory {
    var lists: seq<seq<Json>>
    var limitations: seq<Text>
    var artifactCount: nat

    predicate Valid()
      reads this
    {
      |lists| == 4
    }

    constructor (endpoints: seq<Json>, urls: seq<Json>, packages: seq<Json>, files: seq<Json>, limitations: seq<Text>)
      ensures Valid() && lists == [endpoints, urls, packages, files] && artifactCount == |lists[FILES]|
    {
      this.lists := [endpoints, urls, packages, files];
      this.limitations, artifactCount := limitations, |files|;
    }

    function Fields(): seq<Field>
      reads this
      requires Valid()
    {
      [Named("kind", Str(Ascii("LOCAL_INVENTORY"))), Named("network_accessed", Bool(false)),
       Named("files", Arr(lists[FILES])), Named("endpoints", Arr(lists[ENDPOINTS])),
       Named("urls_observed", Arr(lists[URLS])), Named("packages", Arr(lists[PACKAGES])),
       Named("limitations", Texts(limitations))]
    }

    function Output(): Json
      reads this
      requires Valid()
    {
      Obj(Fields() + [Named("artifact_count", Num(artifactCount))])
    }

    // max(candidates, key=len): the first longest list.
    method LongestList() returns (m: nat)
      requires Valid()
      ensures Longest(lists, m)
    {
      m := 0;
      for i := 1 to |lists|
        invariant m < i
        invariant forall j :: 0 <= j < i ==> |lists[j]| <= |lists[m]|
        invariant forall j :: 0 <= j < m ==> |lists[j]| < |lists[m]|
      {
        if |lists[i]| > |lists[m]| {
          m := i;
        }
      }
    }

    // Recounting artifacts does not make the output longer.
    method CountFiles()
      requires Valid()
      modifies this`artifactCount
      ensures artifactCount == |lists[FILES]|
      ensures old(artifactCount) >= |lists[FILES]| ==> Bytes(Output()) <= old(Bytes(Output()))
    {
      ghost var fields := Fields();
      Grow(fields, Named("artifact_count", Num(artifactCount)));
      if artifactCount >= |lists[FILES]| {
        IntSizeGrows(|lists[FILES]|, artifactCount);
      }
      artifactCount := |lists[FILES]|;
      Grow(fields, Named("artifact_count", Num(artifactCount)));
    }

    // _fit_inventory_output. The result fits or is the fallback; lists are trimmed evenly from
    // their ends, and the fallback is returned only when not even empty lists fit.
    method Fit(budget: nat) returns (r: Json)
      requires Valid()
      modifies this
      ensures Valid() && (r == Output() || r == INVENTORY_FALLBACK)
      ensures Bytes(r) <= budget || r == INVENTORY_FALLBACK
      ensures Trimmed(old(lists), lists)
      ensures old(Bytes(Output())) <= budget ==> Output() == old(Output()) && r == Output()
      ensures old(Bytes(Output())) > budget ==>
                limitations == SortedSet(old(limitations) + [LIMIT_REACHED]) && artifactCount == |lists[FILES]|
      ensures old(artifactCount) == old(|lists[FILES]|) && r != Output() ==> forall i :: 0 <= i < 4 ==> lists[i] == []
    {
      if Bytes(Output()) <= budget {
        return Output();
      }
      limitations := SortedSet(limitations + [LIMIT_REACHED]);
      while Bytes(Output()) > budget
        invariant Valid() && Trimmed(old(lists), lists)
        invariant limitations == SortedSet(old(limitations) + [LIMIT_REACHED]) && artifactCount == old(artifactCount)
        decreases Total(lists)
      {
        var largest := LongestList();
        if lists[largest] == [] {
          break;
        }
        PoppedIsTrimmed(old(lists), lists, largest);
        PoppedIsSmaller(lists, largest);
        lists := Popped(lists, largest);
      }
      CountFiles();
      if Bytes(Output()) > budget {
        return INVENTORY_FALLBACK;
      }
      return Output();
    }
  }
}
