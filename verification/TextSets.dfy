// sorted(set(xs)) on texts.
module TextSets {
  import opened Text

  function Put(x: Text, xs: seq<Text>): seq<Text> {
    if xs == [] || Less(x, xs[0]) then [x] + xs
    else if x == xs[0] then xs
    else [xs[0]] + Put(x, xs[1..])
  }

  function SortedSet(xs: seq<Text>): seq<Text> {
    if xs == [] then [] else Put(xs[0], SortedSet(xs[1..]))
  }

  ghost predicate Ascending(xs: seq<Text>) {
    forall i, j :: 0 <= i < j < |xs| ==> Less(xs[i], xs[j])
  }

  lemma {:induction false} PutElements(x: Text, xs: seq<Text>)
    ensures forall y :: y in Put(x, xs) <==> y == x || y in xs
  {
    if xs != [] && !Less(x, xs[0]) && x != xs[0] {
      PutElements(x, xs[1..]);
      assert xs == [xs[0]] + xs[1..];
    }
  }

  lemma {:induction false} PutAscends(x: Text, xs: seq<Text>)
    requires Ascending(xs)
    ensures Ascending(Put(x, xs))
  {
    if xs == [] || x == xs[0] {
    } else if Less(x, xs[0]) {
      forall i | 1 <= i < |xs| ensures Less(x, xs[i]) {
        LessTransitive(x, xs[0], xs[i]);
      }
    } else {
      LessTotal(x, xs[0]);
      PutAscends(x, xs[1..]);
      PutElements(x, xs[1..]);
      var rest := Put(x, xs[1..]);
      forall j | 0 <= j < |rest| ensures Less(xs[0], rest[j]) {
        assert rest[j] in rest;
      }
    }
  }

  lemma {:induction false} SortedSetIs(xs: seq<Text>)
    ensures Ascending(SortedSet(xs))
    ensures forall y :: y in SortedSet(xs) <==> y in xs
  {
    if xs != [] {
      SortedSetIs(xs[1..]);
      PutAscends(xs[0], SortedSet(xs[1..]));
      PutElements(xs[0], SortedSet(xs[1..]));
      assert xs == [xs[0]] + xs[1..];
    }
  }

  // The normal form is kept exactly by the lists that are already in it.
  lemma {:induction false} SortedSetFixes(xs: seq<Text>)
    ensures SortedSet(xs) == xs <==> Ascending(xs)
  {
    SortedSetIs(xs);
    if xs != [] && Ascending(xs) {
      SortedSetFixes(xs[1..]);
      assert xs == [xs[0]] + xs[1..];
    }
  }
}
