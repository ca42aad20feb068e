// ActionRequest with its normalizing constructor, _action_snapshot and _action_from_snapshot.
module ActionSnapshots {
  import opened Wrappers
  import opened Text
  import opened Json
  import opened Snapshots
  import opened TextSets

  // The request's fields; scalars holds the plain fields the snapshot copies one by one.
  datatype Action = Action(
    requested: seq<Text>, declared: Option<seq<Text>>, resources: Json, fingerprint: Text, scalars: seq<Json>)

  datatype Snapshot = Snapshot(
    requested: seq<Text>, declared: seq<Text>, resources: Frozen, fingerprint: Text, scalars: seq<Json>)

  // ---- Construction and snapshots -----------------------------------------------------------

  // ActionRequest.__post_init__; digest is input_fingerprint.
  function Construct(a: Action, digest: Json -> Text): Action {
    a.(requested := SortedSet(a.requested),
       declared := Some(if a.declared.None? then SortedSet(a.requested) else SortedSet(a.declared.value)),
       fingerprint := if a.fingerprint == [] then digest(a.resources) else a.fingerprint)
  }

  function Take(a: Action): Snapshot {
    Snapshot(a.requested, if a.declared.None? then [] else a.declared.value, Freeze(a.resources), a.fingerprint,
             a.scalars)
  }

  function Rebuild(s: Snapshot, digest: Json -> Text): Option<Action> {
    var thawed := Thaw(s.resources);
    if thawed.None? then None
    else Some(Construct(Action(s.requested, Some(s.declared), thawed.value, s.fingerprint, s.scalars), digest))
  }

  // Python equality of two requests.
  ghost predicate Equal(a: Action, b: Action) {
    && a.(resources := Null) == b.(resources := Null)
    && Same(a.resources, b.resources)
  }

  ghost predicate Normal(a: Action) {
    Ascending(a.requested) && a.declared.Some? && Ascending(a.declared.value) && a.fingerprint != []
  }

  lemma ConstructIsNormal(a: Action, digest: Json -> Text)
    requires digest(a.resources) != []
    ensures Normal(Construct(a, digest))
    ensures forall c :: c in Construct(a, digest).requested <==> c in a.requested
    ensures Normal(a) <==> Construct(a, digest) == a
  {
    SortedSetIs(a.requested);
    SortedSetFixes(a.requested);
    if a.declared.Some? {
      SortedSetIs(a.declared.value);
      SortedSetFixes(a.declared.value);
    }
  }

  // A snapshot rebuilds to the action it was taken from exactly when that action is in the
  // normal form its constructor gives: one whose lists were reordered or whose fingerprint was
  // cleared afterwards comes back different.
  lemma RebuildRestoresExactlyNormalActions(a: Action, digest: Json -> Text)
    requires IsValue(a.resources) && forall v :: digest(v) != []
    ensures Rebuild(Take(a), digest).Some?
    ensures Equal(Rebuild(Take(a), digest).value, a) <==> Normal(a)
  {
    ThawFreeze(a.resources);
    var s := Take(a);
    SortedSetFixes(s.requested);
    SortedSetFixes(s.declared);
  }

  // Comparing snapshots of constructed actions detects exactly the changed ones.
  lemma SnapshotsDetectEveryChange(a: Action, b: Action)
    requires IsValue(a.resources) && IsValue(b.resources) && a.declared.Some? && b.declared.Some?
    ensures Take(a) == Take(b) <==> Equal(a, b)
  {
    FreezeEqualIffSame(a.resources, b.resources);
  }
}
