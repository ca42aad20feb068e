// The number of UTF-8 bytes json.dumps(..., ensure_ascii=False) writes for a value. The order
// of an object's fields does not change it.
module JsonSize {
  import opened Text
  import opened Json

  function CharSize(c: Char): nat {
    if c == 0x22 || c == 0x5C || c == 8 || c == 9 || c == 10 || c == 12 || c == 13 then 2
    else if c < 0x20 then 6
    else Utf8(c)
  }

  function TextSize(t: Text): nat {
    if t == [] then 0 else TextSize(t[..|t| - 1]) + CharSize(t[|t| - 1])
  }

  function IntSize(n: int): nat
    decreases if n < 0 then 1 - n else n
  {
    if n < 0 then 1 + IntSize(-n) else if n < 10 then 1 else IntSize(n / 10) + 1
  }

  // sep is the width of both separators: 1 for "," and ":", 2 for ", " and ": ".
  function Size(v: Json, sep: nat): nat
    decreases v
  {
    match v
    case Null => 4
    case Bool(b) => if b then 4 else 5
    case Num(n) => IntSize(n)
    case Str(s) => 2 + TextSize(s)
    case Arr(items) => 2 + ItemsSize(items, sep)
    case Obj(fs) => 2 + FieldsSize(fs, sep)
  }

  function ItemsSize(items: seq<Json>, sep: nat): nat
    decreases items
  {
    if items == [] then 0
    else
      var n := |items| - 1;
      ItemsSize(items[..n], sep) + (if n > 0 then sep else 0) + Size(items[n], sep)
  }

  function FieldsSize(fs: seq<Field>, sep: nat): nat
    decreases fs
  {
    if fs == [] then 0
    else
      var n := |fs| - 1;
      FieldsSize(fs[..n], sep) + (if n > 0 then sep else 0) + 2 + TextSize(fs[n].name) + sep + Size(fs[n].value, sep)
  }

  lemma {:induction false} ItemSmaller(items: seq<Json>, i: nat, sep: nat)
    requires i < |items|
    ensures Size(items[i], sep) <= ItemsSize(items, sep)
  {
    if i < |items| - 1 {
      ItemSmaller(items[..|items| - 1], i, sep);
    }
  }

  lemma {:induction false} FieldSmaller(fs: seq<Field>, i: nat, sep: nat)
    requires i < |fs|
    ensures Size(fs[i].value, sep) <= FieldsSize(fs, sep)
  {
    if i < |fs| - 1 {
      FieldSmaller(fs[..|fs| - 1], i, sep);
    }
  }

  lemma {:induction false} FieldsPrefixSmaller(fs: seq<Field>, n: nat, sep: nat)
    requires n <= |fs|
    ensures FieldsSize(fs[..n], sep) <= FieldsSize(fs, sep)
  {
    if n < |fs| {
      var m := |fs| - 1;
      FieldsPrefixSmaller(fs[..m], n, sep);
      assert fs[..m][..n] == fs[..n];
    } else {
      assert fs[..n] == fs;
    }
  }

  lemma Distribute(n: nat, x: nat)
    requires n > 0
    ensures n * x == (n - 1) * x + x
  {}

  lemma LastItem(items: seq<Json>, v: Json, sep: nat)
    ensures ItemsSize(items + [v], sep) == ItemsSize(items, sep) + (if items == [] then 0 else sep) + Size(v, sep)
  {
    assert (items + [v])[..|items|] == items;
  }

  lemma OneMore(v: Json, n: nat)
    ensures seq(n + 1, _ => v) == seq(n, _ => v) + [v]
  {}

  // n copies of one item.
  lemma {:induction false} RepeatedSize(v: Json, n: nat, sep: nat)
    ensures ItemsSize(seq(n, _ => v), sep) == n * Size(v, sep) + (if n > 0 then (n - 1) * sep else 0)
  {
    if n > 0 {
      var fewer := seq(n - 1, _ => v);
      RepeatedSize(v, n - 1, sep);
      OneMore(v, n - 1);
      LastItem(fewer, v, sep);
      Distribute(n, Size(v, sep));
      if n > 1 {
        Distribute(n - 1, sep);
      }
    }
  }

  lemma {:induction false} PrintableSize(t: Text)
    requires forall i :: 0 <= i < |t| ==> 0x20 <= t[i] < 0x7F && t[i] != 0x22 && t[i] != 0x5C
    ensures TextSize(t) == |t|
  {
    if t != [] {
      PrintableSize(t[..|t| - 1]);
    }
  }
}
