// PassiveResearchAdapter: the bounded cache, the accounting of collect, and _fit.
module PassiveSources {
  import opened Wrappers
  import opened Text

  const MAX_SOURCES := 4
  const MAX_CACHE_ENTRIES := 16
  const MAX_CACHE_TTL_SECONDS := 300

  datatype Source = Source(kind: Text, url: Text)

  // fault is the record's "error" field, present only for a failed fetch.
  datatype Retrieval = Retrieval(
    source: Source, at: Text, status: Option<int>, sha: Text, length: nat, excerpt: Text, fault: Option<Text>,
    hit: bool)

  datatype Entry = Entry(key: Source, at: int, value: Retrieval)

  datatype Outcome = Fetched(status: int, text: Text, sha: Text, length: nat) | Failed(error: Text)

  // The clock readings and the fetch outcome one source request would meet.
  datatype Visit = Visit(checkedAt: int, storedAt: int, stamp: Text, outcome: Outcome)

  function Recorded(s: Source, v: Visit): Retrieval {
    match v.outcome
    case Fetched(status, text, sha, length) =>
      if 100 <= status <= 599 then Retrieval(s, v.stamp, Some(status), sha, length, text, None, false)
      else Retrieval(s, v.stamp, None, [], 0, [], Some(Ascii("source_fetch_failed")), false)
    case Failed(error) => Retrieval(s, v.stamp, None, [], 0, [], Some(error), false)
  }

  // A retrieval has a status exactly if something with a real HTTP status was fetched, and then
  // its text, hash and length are those; otherwise it has no content and says what went wrong.
  lemma RecordedMeans(s: Source, v: Visit)
    ensures var r := Recorded(s, v);
      && r.source == s && r.at == v.stamp && !r.hit
      && (r.status.Some? <==> v.outcome.Fetched? && v.outcome.status >= 100 && v.outcome.status < 600)
      && (r.status.Some? ==>
            && r.status.value == v.outcome.status && r.excerpt == v.outcome.text && r.sha == v.outcome.sha
            && r.length == v.outcome.length && r.fault == None)
      && (r.status.None? ==>
            && r.excerpt == [] && r.sha == [] && r.length == 0 && r.fault.Some?
            && (v.outcome.Failed? ==> r.fault.value == v.outcome.error))
  {}

  // ---- The cache: a dict in insertion order ----------------------------------------------------

  ghost predicate CacheOk(cache: seq<Entry>) {
    && |cache| <= 16
    && forall i, j :: 0 <= i < j < |cache| ==> cache[i].key != cache[j].key
  }

  function Find(cache: seq<Entry>, key: Source): Option<Entry> {
    if cache == [] then None else if cache[0].key == key then Some(cache[0]) else Find(cache[1..], key)
  }

  function Dropped(cache: seq<Entry>, key: Source): seq<Entry> {
    if cache == [] then [] else if cache[0].key == key then cache[1..] else [cache[0]] + Dropped(cache[1..], key)
  }

  lemma {:induction false} FindIs(cache: seq<Entry>, key: Source)
    ensures Find(cache, key).Some? ==> Find(cache, key).value in cache && Find(cache, key).value.key == key
    ensures Find(cache, key).None? ==> forall i :: 0 <= i < |cache| ==> cache[i].key != key
  {
    if cache != [] && cache[0].key != key {
      FindIs(cache[1..], key);
    }
  }

  lemma {:induction false} DroppedIs(cache: seq<Entry>, key: Source)
    requires CacheOk(cache)
    ensures CacheOk(Dropped(cache, key))
    ensures forall e :: e in Dropped(cache, key) <==> e in cache && e.key != key
    ensures Find(cache, key).Some? ==> |Dropped(cache, key)| == |cache| - 1
    ensures |Dropped(cache, key)| <= |cache|
  {
    if cache != [] {
      assert cache == [cache[0]] + cache[1..];
      if cache[0].key == key {
        forall e | e in cache[1..] ensures e.key != key {}
      } else {
        DroppedIs(cache[1..], key);
        var rest := Dropped(cache[1..], key);
        forall i | 0 <= i < |rest| ensures rest[i].key != cache[0].key {
          assert rest[i] in cache[1..];
        }
        if Find(cache, key).None? {
          NothingDropped(cache[1..], key);
        }
      }
    }
  }

  lemma {:induction false} NothingDropped(cache: seq<Entry>, key: Source)
    requires Find(cache, key).None?
    ensures Dropped(cache, key) == cache
  {
    if cache != [] {
      NothingDropped(cache[1..], key);
    }
  }

  lemma {:induction false} DroppedIsGone(cache: seq<Entry>, key: Source)
    requires CacheOk(cache)
    ensures Find(Dropped(cache, key), key).None?
  {
    DroppedIs(cache, key);
    FindIs(Dropped(cache, key), key);
  }

  // The dict after an assignment: a present key keeps its place.
  function Assigned(cache: seq<Entry>, e: Entry): seq<Entry> {
    if cache == [] then [e]
    else if cache[0].key == e.key then [e] + cache[1..]
    else [cache[0]] + Assigned(cache[1..], e)
  }

  lemma {:induction false} AssignedIs(cache: seq<Entry>, e: Entry)
    requires forall i, j :: 0 <= i < j < |cache| ==> cache[i].key != cache[j].key
    ensures var out := Assigned(cache, e);
      && (forall i, j :: 0 <= i < j < |out| ==> out[i].key != out[j].key)
      && (forall x :: x in out <==> x == e || (x in cache && x.key != e.key))
      && |out| == |cache| + (if Find(cache, e.key).None? then 1 else 0)
      && (Find(cache, e.key).None? ==> out == cache + [e])
  {
    if cache != [] {
      assert cache == [cache[0]] + cache[1..];
      if cache[0].key != e.key {
        AssignedIs(cache[1..], e);
        var rest := Assigned(cache[1..], e);
        forall i | 0 <= i < |rest| ensures rest[i].key != cache[0].key {
          assert rest[i] == e || rest[i] in cache[1..];
        }
      }
    }
  }

  // ---- The answers ----------------------------------------------------------------------------

  ghost predicate DistinctSources(s: seq<Source>) {
    forall i, j :: 0 <= i < j < |s| ==> s[i] != s[j]
  }

  function Hits(rs: seq<Retrieval>): nat {
    if rs == [] then 0 else Hits(rs[..|rs| - 1]) + if rs[|rs| - 1].hit then 1 else 0
  }

  function ErrorText(r: Retrieval): Text
    requires r.fault.Some?
  {
    r.source.kind + [58] + r.fault.value
  }

  // A cached failure is not reported again.
  function FreshErrors(rs: seq<Retrieval>): seq<Text> {
    if rs == [] then []
    else
      var last := rs[|rs| - 1];
      FreshErrors(rs[..|rs| - 1]) + if !last.hit && last.fault.Some? then [ErrorText(last)] else []
  }

  ghost predicate Unexpired(cache: seq<Entry>, s: Source, v: Visit) {
    exists e :: e in cache && e.key == s && v.checkedAt - e.at <= 300
  }

  // A retrieval is either fetched now, or a copy of a cached one at most 300 seconds old.
  ghost predicate Answers(cache: seq<Entry>, s: Source, v: Visit, r: Retrieval) {
    if r.hit then
      exists e :: e in cache && e.key == s && r == e.value.(hit := true)
                  && v.checkedAt - e.at <= 300
    else r == Recorded(s, v)
  }

  lemma KeptOrNew(was: seq<Entry>, now: seq<Entry>, added: Entry)
    requires CacheOk(was)
    requires now == Assigned(was, added) || exists gone :: gone in was && now == Assigned(Dropped(was, gone.key), added)
    ensures forall e :: e in now ==> e == added || e in was
  {
    AssignedIs(was, added);
    if now != Assigned(was, added) {
      var gone :| gone in was && now == Assigned(Dropped(was, gone.key), added);
      DroppedIs(was, gone.key);
      AssignedIs(Dropped(was, gone.key), added);
    }
  }

  class PassiveResearchAdapter {
    var cache: seq<Entry>

    ghost predicate Valid()
      reads this
    {
      CacheOk(cache)
    }

    constructor ()
      ensures Valid() && cache == []
    {
      cache := [];
    }

    // A hit is the entry under this key, at most 300 seconds old; an older one is dropped.
    method Cached(key: Source, now: int) returns (r: Option<Retrieval>)
      requires Valid()
      modifies this
      ensures Valid()
      ensures r.Some? ==> cache == old(cache) && exists e :: e in cache && e.key == key && e.value == r.value
                                                             && now - e.at <= 300
      ensures r.None? ==> cache == Dropped(old(cache), key)
                          && forall e :: e in old(cache) && e.key == key ==> now - e.at > 300
      ensures |cache| <= old(|cache|) && forall e :: e in old(cache) && e.key != key ==> e in cache
    {
      var entry := Find(cache, key);
      FindIs(cache, key);
      DroppedIs(cache, key);
      if entry.None? {
        NothingDropped(cache, key);
        return None;
      }
      if now - entry.value.at > MAX_CACHE_TTL_SECONDS {
        cache := Dropped(cache, key);
        return None;
      }
      return Some(entry.value.value);
    }

    method Oldest() returns (m: nat)
      requires cache != []
      ensures m < |cache| && forall i :: 0 <= i < |cache| ==> cache[m].at <= cache[i].at
      ensures forall i :: 0 <= i < m ==> cache[m].at < cache[i].at
    {
      m := 0;
      for i := 1 to |cache|
        invariant m < i && forall j :: 0 <= j < i ==> cache[m].at <= cache[j].at
        invariant forall j :: 0 <= j < m ==> cache[m].at < cache[j].at
      {
        if cache[i].at < cache[m].at {
          m := i;
        }
      }
    }

    // A full cache first loses one entry, whether or not the key is present, and none of those
    // kept is older than it.
    method Store(key: Source, now: int, value: Retrieval)
      requires Valid()
      modifies this
      ensures Valid() && Entry(key, now, value) in cache && |cache| <= old(|cache|) + 1
      ensures |old(cache)| < MAX_CACHE_ENTRIES ==> forall e :: e in old(cache) && e.key != key ==> e in cache
      ensures |old(cache)| < MAX_CACHE_ENTRIES ==> cache == Assigned(old(cache), Entry(key, now, value))
      ensures |old(cache)| == MAX_CACHE_ENTRIES ==>
                exists gone :: gone in old(cache)
                               && cache == Assigned(Dropped(old(cache), gone.key), Entry(key, now, value))
                               && forall e :: e in old(cache) ==> gone.at <= e.at
    {
      if |cache| >= MAX_CACHE_ENTRIES {
        var oldest := Oldest();
        ghost var gone := cache[oldest];
        FindIs(cache, gone.key);
        DroppedIs(cache, gone.key);
        cache := Dropped(cache, cache[oldest].key);
      }
      AssignedIs(cache, Entry(key, now, value));
      cache := Assigned(cache, Entry(key, now, value));
    }

    // One turn of the loop of collect; asked is what is still to be answered.
    method Answer(key: Source, visit: Visit, ghost before: seq<Entry>, ghost asked: seq<Source>) returns (r: Retrieval)
      requires Valid() && asked != [] && asked[0] == key && DistinctSources(asked)
      requires forall e :: e in cache && e.key in asked ==> e in before
      modifies this
      ensures Valid() && Answers(before, key, visit, r)
      ensures forall e :: e in cache && e.key in asked[1..] ==> e in before
      ensures r.hit <==> Unexpired(old(cache), key, visit)
      ensures |cache| <= old(|cache|) + 1
      ensures old(|cache|) < MAX_CACHE_ENTRIES ==>
                forall e :: e in old(cache) && e.key != key ==> e in cache
    {
      ghost var was := cache;
      var found := Cached(key, visit.checkedAt);
      DroppedIs(was, key);
      assert forall e :: e in cache ==> e in was;
      assert key !in asked[1..];
      if found.Some? {
        return found.value.(hit := true);
      }
      r := Recorded(key, visit);
      DroppedIsGone(was, key);
      ghost var kept := cache;
      Store(key, visit.storedAt, r);
      KeptOrNew(kept, cache, Entry(key, visit.storedAt, r));
    }

    // The loop of collect. Every source is answered, in order, by a fetch or from the cache as
    // it was before; while the cache has room, from the cache exactly when it has an entry that
    // is not too old.
    method Gather(sources: seq<Source>, visits: seq<Visit>)
      returns (retrievals: seq<Retrieval>, errors: seq<Text>, requests: nat, hits: nat)
      requires Valid() && |visits| == |sources| && DistinctSources(sources)
      modifies this
      ensures Valid() && |retrievals| == |sources| == requests + hits
      ensures hits == Hits(retrievals) && errors == FreshErrors(retrievals)
      ensures forall i :: 0 <= i < |sources| ==> Answers(old(cache), sources[i], visits[i], retrievals[i])
      ensures old(|cache|) + |sources| <= MAX_CACHE_ENTRIES ==>
                forall i :: 0 <= i < |sources| ==> retrievals[i].hit == Unexpired(old(cache), sources[i], visits[i])
    {
      retrievals, errors, requests, hits := [], [], 0, 0;
      ghost var before := cache;
      var i := 0;
      while i < |sources|
        invariant 0 <= i <= |sources| && Valid()
        invariant |retrievals| == i == requests + hits
        invariant hits == Hits(retrievals) && errors == FreshErrors(retrievals)
        invariant forall j :: 0 <= j < i ==> Answers(before, sources[j], visits[j], retrievals[j])
        invariant forall e :: e in cache && e.key in sources[i..] ==> e in before
        invariant |cache| <= |before| + i
        invariant |before| + |sources| <= MAX_CACHE_ENTRIES ==>
                    forall e :: e in before && e.key in sources[i..] ==> e in cache
        invariant |before| + |sources| <= MAX_CACHE_ENTRIES ==>
                    forall j :: 0 <= j < i ==> retrievals[j].hit == Unexpired(before, sources[j], visits[j])
      {
        var r := Answer(sources[i], visits[i], before, sources[i..]);
        if r.hit {
          hits := hits + 1;
        } else {
          requests := requests + 1;
          if r.fault.Some? {
            errors := errors + [ErrorText(r)];
          }
        }
        assert (retrievals + [r])[..i] == retrievals;
        retrievals := retrievals + [r];
        i := i + 1;
      }
    }
  }
}
