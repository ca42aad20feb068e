// The shrinking loop of build_local_report, and the sizes of the fixed fallbacks.
module ReportFitting {
  import opened Text
  import opened Json
  import opened JsonSize
  import opened Fitting

  // What the markdown is rendered from, besides the fixed fields.
  datatype Body = Body(
    network: bool, refs: seq<Json>, retrievals: seq<Json>, endpoints: seq<Json>, hypotheses: seq<Json>,
    cases: seq<Json>, limitations: seq<Text>, recognized: nat)

  const STOPPED := [Ascii("local_only"), LIMIT_REACHED]

  function StatusText(network: bool): Text {
    if network then Ascii("PUBLIC_PASSIVE_UNVERIFIED") else Ascii("LOCAL_ONLY_UNVERIFIED")
  }

  function ReportFallback(network: bool): Json {
    Obj([Named("kind", Str(Ascii("LOCAL_REPORT"))), Named("network_accessed", Bool(network)),
         Named("report_status", Str(StatusText(network))), Named("finding_confirmation_allowed", Bool(false)),
         Named("limitations", Texts(STOPPED))])
  }

  function ReportOf(b: Body, markdown: Text): Json {
    Obj([Named("kind", Str(Ascii("LOCAL_REPORT"))), Named("network_accessed", Bool(b.network)),
         Named("report_status", Str(StatusText(b.network))), Named("finding_confirmation_allowed", Bool(false)),
         Named("artifact_refs", Arr(b.refs)), Named("source_retrievals", Arr(b.retrievals)),
         Named("observed_endpoints", Arr(b.endpoints)), Named("hypotheses", Arr(b.hypotheses)),
         Named("verification_cases", Arr(b.cases)), Named("limitations", Texts(b.limitations)),
         Named("recognized_stage_results", Num(b.recognized)), Named("report_markdown", Str(markdown))])
  }

  // Prefixes, cut in the order hypotheses, cases, endpoints, references.
  ghost predicate Cut(was: Body, now: Body) {
    && now.network == was.network && now.retrievals == was.retrievals && now.recognized == was.recognized
    && now.limitations == was.limitations
    && now.hypotheses <= was.hypotheses && now.cases <= was.cases && now.endpoints <= was.endpoints
    && now.refs <= was.refs
    && (now.cases != was.cases ==> now.hypotheses == [])
    && (now.endpoints != was.endpoints ==> now.hypotheses == [] && now.cases == [])
    && (now.refs != was.refs ==> now.hypotheses == [] && now.cases == [] && now.endpoints == [])
  }

  predicate Bare(b: Body) { b.hypotheses == [] && b.cases == [] && b.endpoints == [] && b.refs == [] }

  // The body one item longer: what there was before the last cut.
  ghost function Longer(was: Body, now: Body): Body {
    if |now.refs| < |was.refs| then now.(refs := was.refs[..|now.refs| + 1])
    else if |now.endpoints| < |was.endpoints| then now.(endpoints := was.endpoints[..|now.endpoints| + 1])
    else if |now.cases| < |was.cases| then now.(cases := was.cases[..|now.cases| + 1])
    else if |now.hypotheses| < |was.hypotheses| then now.(hypotheses := was.hypotheses[..|now.hypotheses| + 1])
    else now
  }

  function Shortened(b: Body): Body
    requires !Bare(b)
  {
    if b.hypotheses != [] then b.(hypotheses := b.hypotheses[..|b.hypotheses| - 1])
    else if b.cases != [] then b.(cases := b.cases[..|b.cases| - 1])
    else if b.endpoints != [] then b.(endpoints := b.endpoints[..|b.endpoints| - 1])
    else b.(refs := b.refs[..|b.refs| - 1])
  }

  lemma ShortenedIsCut(was: Body, now: Body)
    requires Cut(was, now) && !Bare(now)
    ensures Cut(was, Shortened(now)) && Longer(was, Shortened(now)) == now
  {}

  ghost predicate NoFurther(was: Body, now: Body, budget: nat, render: Body -> Text) {
    now == was || Bytes(ReportOf(Longer(was, now), render(Longer(was, now)))) > budget
  }

  class Report {
    const network: bool
    const recognized: nat
    var refs: seq<Json>
    var retrievals: seq<Json>
    var endpoints: seq<Json>
    var hypotheses: seq<Json>
    var cases: seq<Json>
    var limitations: seq<Text>
    var markdown: Text

    constructor (body: Body)
      ensures Content() == body
    {
      network, recognized := body.network, body.recognized;
      refs, retrievals, endpoints := body.refs, body.retrievals, body.endpoints;
      hypotheses, cases, limitations := body.hypotheses, body.cases, body.limitations;
      markdown := [];
    }

    function Content(): Body
      reads this
    {
      Body(network, refs, retrievals, endpoints, hypotheses, cases, limitations, recognized)
    }

    function Output(): Json
      reads this
    {
      ReportOf(Content(), markdown)
    }

    method PopFirstKind()
      requires !Bare(Content())
      modifies this`hypotheses, this`cases, this`endpoints, this`refs
      ensures Content() == Shortened(old(Content()))
    {
      if hypotheses != [] {
        hypotheses := hypotheses[..|hypotheses| - 1];
      } else if cases != [] {
        cases := cases[..|cases| - 1];
      } else if endpoints != [] {
        endpoints := endpoints[..|endpoints| - 1];
      } else {
        refs := refs[..|refs| - 1];
      }
    }

    // The popping branches of the loop; render is render_markdown.
    method Shrink(budget: nat, render: Body -> Text)
      requires markdown == render(Content())
      modifies this`hypotheses, this`cases, this`endpoints, this`refs, this`markdown
      ensures markdown == render(Content()) && (Bytes(Output()) <= budget || Bare(Content()))
      ensures Cut(old(Content()), Content()) && NoFurther(old(Content()), Content(), budget, render)
    {
      ghost var was := Content();
      while Bytes(Output()) > budget && !(hypotheses == [] && cases == [] && endpoints == [] && refs == [])
        invariant Cut(was, Content()) && markdown == render(Content()) && NoFurther(was, Content(), budget, render)
        decreases |hypotheses| + |cases| + |endpoints| + |refs|
      {
        ShortenedIsCut(was, Content());
        PopFirstKind();
        markdown := render(Content());
      }
    }

    // The shrinking loop of build_local_report. The result fits or is the fallback. Lists are
    // cut from their ends, one kind after the other, and no further than needed: with the last
    // cut item back, the report was too large. The limitations are replaced only when nothing
    // is left to cut. The markdown always renders what is left.
    method Fit(budget: nat, render: Body -> Text) returns (r: Json, ghost now: Body)
      modifies this
      ensures r == Output() || (r == ReportFallback(network) && Bare(Content()))
      ensures Bytes(r) <= budget || r == ReportFallback(network)
      ensures markdown == render(Content())
      ensures Content() == now || (Content() == now.(limitations := STOPPED) && Bare(now))
      ensures Cut(old(Content()), now) && NoFurther(old(Content()), now, budget, render)
    {
      markdown := render(Content());
      Shrink(budget, render);
      now := Content();
      if Bytes(Output()) > budget {
        limitations := STOPPED;
        markdown := render(Content());
        if Bytes(Output()) > budget {
          r := ReportFallback(network);
          return;
        }
      }
      r := Output();
    }
  }
}
