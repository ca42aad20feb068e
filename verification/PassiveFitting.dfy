// PassiveResearchAdapter._fit and collect.
module PassiveFitting {
  import opened Wrappers
  import opened Text
  import opened TextSets
  import opened Json
  import opened JsonSize
  import opened Fitting
  import opened FallbackSizes
  import opened PassiveSources

  function RecordOf(r: Retrieval): Json {
    Obj([Named("source_type", Str(r.source.kind)), Named("source_url", Str(r.source.url)),
         Named("retrieved_at", Str(r.at)),
         Named("status_code", if r.status.Some? then Num(r.status.value) else Null),
         Named("content_sha256", Str(r.sha)),
         Named("content_length", Num(r.length)), Named("text_excerpt", Str(r.excerpt))]
        + (if r.fault.Some? then [Named("error", Str(r.fault.value))] else [])
        + [Named("provenance", Obj([Named("adapter", Str(r.source.kind)), Named("transport", Str(Ascii("https"))),
                                    Named("authorization_basis", Str(Ascii("public_source_only"))),
                                    Named("cache_hit", Bool(r.hit))]))])
  }

  datatype Counts = Counts(sources: nat, requests: nat, hits: nat)

  function Counters(c: Counts): seq<Field> {
    [] + [Named("source_requests", Num(c.sources))] + [Named("network_requests", Num(c.requests))]
    + [Named("cache_hits", Num(c.hits))]
  }

  // json.dumps sorts the keys: the order of the fields here does not matter.
  function PassiveHead(c: Counts): seq<Field> {
    Counters(c) + [Named("kind", Str(Ascii("PASSIVE_RESEARCH")))] + [Named("network_accessed", Bool(c.requests > 0))]
  }

  function PassiveOf(c: Counts, retrievals: seq<Retrieval>, errors: seq<Text>, limitations: seq<Text>): Json {
    Obj(PassiveHead(c)
        + [Named("retrievals", Arr(seq(|retrievals|, i requires 0 <= i < |retrievals| => RecordOf(retrievals[i]))))]
        + [Named("errors", Texts(errors))] + [Named("limitations", Texts(limitations))])
  }

  function PassiveFallback(c: Counts): Json { PassiveOf(c, [], [LIMIT_REACHED], [LIMIT_REACHED]) }

  function Blanked(rs: seq<Retrieval>): (r: seq<Retrieval>)
    ensures |r| == |rs|
  {
    seq(|rs|, i requires 0 <= i < |rs| => rs[i].(excerpt := []))
  }

  class PassiveOutput {
    const counts: Counts
    var retrievals: seq<Retrieval>
    var errors: seq<Text>
    var limitations: seq<Text>

    constructor (counts: Counts, retrievals: seq<Retrieval>, errors: seq<Text>, limitations: seq<Text>)
      ensures this.counts == counts && this.retrievals == retrievals
      ensures this.errors == errors && this.limitations == limitations
    {
      this.counts, this.retrievals, this.errors, this.limitations := counts, retrievals, errors, limitations;
    }

    function Output(): Json
      reads this
    {
      PassiveOf(counts, retrievals, errors, limitations)
    }

    method BlankExcerpts()
      modifies this`retrievals
      ensures retrievals == Blanked(old(retrievals))
    {
      ghost var was := retrievals;
      for i := 0 to |retrievals|
        invariant |retrievals| == |was|
        invariant forall j :: 0 <= j < i ==> retrievals[j] == was[j].(excerpt := [])
        invariant forall j :: i <= j < |was| ==> retrievals[j] == was[j]
      {
        retrievals := retrievals[i := retrievals[i].(excerpt := [])];
      }
    }

    // _fit. The result fits or is the fallback; what is cut is a suffix of the retrievals, whose
    // excerpts are blanked first, and no more is cut than needed.
    method Fit(budget: nat) returns (r: Json)
      modifies this
      ensures r == Output() || (r == PassiveFallback(counts) && retrievals == [])
      ensures Bytes(r) <= budget || r == PassiveFallback(counts)
      ensures old(Bytes(Output())) <= budget ==> Output() == old(Output()) && r == Output()
      ensures old(Bytes(Output())) > budget ==>
                && limitations == SortedSet(old(limitations) + [LIMIT_REACHED]) && errors == old(errors)
                && retrievals <= Blanked(old(retrievals))
                && (|retrievals| < old(|retrievals|) ==>
                      Bytes(PassiveOf(counts, Blanked(old(retrievals))[..|retrievals| + 1], errors,
                                      limitations)) > budget)
    {
      if Bytes(Output()) <= budget {
        return Output();
      }
      limitations := SortedSet(limitations + [LIMIT_REACHED]);
      BlankExcerpts();
      ghost var blanked := retrievals;
      while Bytes(Output()) > budget && retrievals != []
        invariant retrievals <= blanked && errors == old(errors)
        invariant limitations == SortedSet(old(limitations) + [LIMIT_REACHED])
        invariant |retrievals| < |blanked| ==>
                    Bytes(PassiveOf(counts, blanked[..|retrievals| + 1], errors, limitations)) > budget
        decreases |retrievals|
      {
        assert retrievals == blanked[..|retrievals|];
        retrievals := retrievals[..|retrievals| - 1];
      }
      if Bytes(Output()) > budget {
        return PassiveFallback(counts);
      }
      return Output();
    }
  }

  lemma CountersSize(c: Counts)
    requires c.sources < 10 && c.requests < 10 && c.hits < 10
    ensures FieldsSize(Counters(c), SEP) == 60
  {
    CounterNames();
    var a := [] + [Named("source_requests", Num(c.sources))];
    GrowNamed([], "source_requests", Num(c.sources));
    GrowNamed(a, "network_requests", Num(c.requests));
    GrowNamed(a + [Named("network_requests", Num(c.requests))], "cache_hits", Num(c.hits));
  }

  lemma PassiveHeadSize(c: Counts)
    requires c.sources < 10 && c.requests < 10 && c.hits < 10
    ensures FieldsSize(PassiveHead(c), SEP) == if c.requests > 0 then 114 else 115
  {
    CountersSize(c);
    CommonNames();
    PassiveNames();
    GrowNamed(Counters(c), "kind", Str(Ascii("PASSIVE_RESEARCH")));
    GrowNamed(Counters(c) + [Named("kind", Str(Ascii("PASSIVE_RESEARCH")))], "network_accessed", Bool(c.requests > 0));
  }

  lemma PassiveFallbackSize(c: Counts)
    requires c.sources < 10 && c.requests < 10 && c.hits < 10
    ensures Bytes(PassiveFallback(c)) == (if c.requests > 0 then 223 else 224)
    ensures Bytes(PassiveFallback(c)) <= MIN_STAGE_OUTPUT_BYTES
  {
    PassiveHeadSize(c);
    CommonNames();
    PassiveNames();
    LimitReachedBytes();
    var none: seq<Retrieval> := [];
    var list := Arr(seq(|none|, i requires 0 <= i < |none| => RecordOf(none[i])));
    assert list == Arr([]);
    var a := PassiveHead(c) + [Named("retrievals", list)];
    var b := a + [Named("errors", Texts([LIMIT_REACHED]))];
    GrowNamed(PassiveHead(c), "retrievals", list);
    GrowNamed(a, "errors", Texts([LIMIT_REACHED]));
    GrowNamed(b, "limitations", Texts([LIMIT_REACHED]));
    assert PassiveFallback(c) == Obj(b + [Named("limitations", Texts([LIMIT_REACHED]))]);
  }

  const NOTES := [
    Ascii("public_sources_only"), Ascii("public_source_is_not_authorization"), Ascii("active_testing_not_performed")]

  // collect on normalized sources: distinct, and at most four. The output fits every budget a
  // stage accepts, and its counters account for every source asked.
  method Collect(adapter: PassiveResearchAdapter, sources: seq<Source>, visits: seq<Visit>, maxItems: nat, budget: nat)
    returns (r: Json, ghost retrievals: seq<Retrieval>, counts: Counts)
    requires adapter.Valid() && |visits| == |sources| <= MAX_SOURCES && DistinctSources(sources)
    requires budget >= MIN_STAGE_OUTPUT_BYTES
    modifies adapter
    ensures adapter.Valid() && Bytes(r) <= budget
    ensures counts.sources == |retrievals| == Min(|sources|, maxItems) == counts.requests + counts.hits
    ensures counts.hits == Hits(retrievals)
    ensures forall i :: 0 <= i < |retrievals| ==> Answers(old(adapter.cache), sources[i], visits[i], retrievals[i])
    ensures Bytes(PassiveOf(counts, retrievals, FreshErrors(retrievals), NOTES)) <= budget ==>
              r == PassiveOf(counts, retrievals, FreshErrors(retrievals), NOTES)
  {
    var n := Min(|sources|, maxItems);
    var bounded, asked := sources[..n], visits[..n];
    var found, errors, requests, hits := adapter.Gather(bounded, asked);
    retrievals := found;
    counts := Counts(|bounded|, requests, hits);
    ErrorsAreFew(found);
    assert errors[..Min(|errors|, maxItems)] == errors;
    var output := new PassiveOutput(counts, found, errors[..Min(|errors|, maxItems)], NOTES);
    r := output.Fit(budget);
    PassiveFallbackSize(counts);
  }

  function Min(a: nat, b: nat): nat { if a < b then a else b }

  lemma {:induction false} ErrorsAreFew(rs: seq<Retrieval>)
    ensures |FreshErrors(rs)| <= |rs|
  {
    if rs != [] {
      ErrorsAreFew(rs[..|rs| - 1]);
    }
  }
}
