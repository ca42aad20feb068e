// JSON values. An object keeps its fields in insertion order, as a Python dict does.
module Json {
  import opened Text

  datatype Json =
    | Null
    | Bool(b: bool)
    | Num(n: int)
    | Str(s: Text)
    | Arr(items: seq<Json>)
    | Obj(fields: seq<Field>)

  datatype Field = Field(name: Text, value: Json)

  ghost predicate DistinctNames(fs: seq<Field>) {
    forall i, j :: 0 <= i < j < |fs| ==> fs[i].name != fs[j].name
  }

  // Every object in the value has distinct field names: it can be a Python value.
  ghost predicate IsValue(v: Json)
    decreases v
  {
    match v
    case Arr(items) => forall i :: 0 <= i < |items| ==> IsValue(items[i])
    case Obj(fs) => DistinctNames(fs) && forall i :: 0 <= i < |fs| ==> IsValue(fs[i].value)
    case _ => true
  }

  // Python equality: the order of an object's fields does not matter.
  predicate Same(v: Json, w: Json)
    decreases v
  {
    match v
    case Arr(items) =>
      w.Arr? && |w.items| == |items| && forall i :: 0 <= i < |items| ==> Same(items[i], w.items[i])
    case Obj(fs) =>
      && w.Obj? && |w.fields| == |fs|
      && (forall i :: 0 <= i < |fs| ==>
            exists j :: 0 <= j < |w.fields| && fs[i].name == w.fields[j].name && Same(fs[i].value, w.fields[j].value))
    case _ => w == v
  }
}
