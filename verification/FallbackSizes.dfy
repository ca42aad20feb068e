// The sizes of the fixed fallbacks: they fit every budget a research stage accepts.
module FallbackSizes {
  import opened Text
  import opened Json
  import opened JsonSize
  import opened Fitting
  import opened ReportFitting

  predicate Measured(s: string) { TextSize(Ascii(s)) == |s| }

  lemma Measure(s: string)
    requires forall i :: 0 <= i < |s| ==> 32 as char <= s[i] < 127 as char && s[i] != '"' && s[i] != '\\'
    ensures Measured(s)
  {
    PrintableSize(Ascii(s));
  }

  lemma CommonNames()
    ensures Measured("kind") && Measured("network_accessed") && Measured("limitations")
  {
    Measure("kind");
    Measure("network_accessed");
    Measure("limitations");
  }

  lemma InventoryNames()
    ensures Measured("files") && Measured("endpoints") && Measured("urls_observed")
  {
    Measure("files");
    Measure("endpoints");
    Measure("urls_observed");
  }

  lemma MoreInventoryNames()
    ensures Measured("packages") && Measured("artifact_count") && Measured("LOCAL_INVENTORY")
  {
    Measure("packages");
    Measure("artifact_count");
    Measure("LOCAL_INVENTORY");
  }

  lemma ReportNames()
    ensures Measured("LOCAL_REPORT") && Measured("report_status") && Measured("finding_confirmation_allowed")
  {
    Measure("LOCAL_REPORT");
    Measure("report_status");
    Measure("finding_confirmation_allowed");
  }

  lemma StatusNames()
    ensures Measured("PUBLIC_PASSIVE_UNVERIFIED") && Measured("LOCAL_ONLY_UNVERIFIED")
  {
    Measure("PUBLIC_PASSIVE_UNVERIFIED");
    Measure("LOCAL_ONLY_UNVERIFIED");
  }

  lemma LimitNames()
    ensures Measured("local_only") && Measured("stage_output_limit_reached")
  {
    Measure("local_only");
    Measure("stage_output_limit_reached");
  }

  lemma CounterNames()
    ensures Measured("source_requests") && Measured("network_requests") && Measured("cache_hits")
  {
    Measure("source_requests");
    Measure("network_requests");
    Measure("cache_hits");
  }

  lemma PassiveNames()
    ensures Measured("PASSIVE_RESEARCH") && Measured("retrievals") && Measured("errors")
  {
    Measure("PASSIVE_RESEARCH");
    Measure("retrievals");
    Measure("errors");
  }

  lemma GrowNamed(fs: seq<Field>, name: string, v: Json)
    requires Measured(name)
    ensures FieldsSize(fs + [Named(name, v)], SEP)
         == FieldsSize(fs, SEP) + (if fs == [] then 0 else SEP) + 2 + |name| + SEP + Bytes(v)
  {
    Grow(fs, Named(name, v));
  }

  lemma OneText(t: Text)
    ensures Bytes(Texts([t])) == 4 + TextSize(t)
  {
    LastItem([], Str(t), SEP);
    assert Texts([t]).items == [] + [Str(t)];
  }

  lemma TwoTexts(s: Text, t: Text)
    ensures Bytes(Texts([s, t])) == 8 + TextSize(s) + TextSize(t)
  {
    LastItem([], Str(s), SEP);
    LastItem([] + [Str(s)], Str(t), SEP);
    assert Texts([s, t]).items == [] + [Str(s)] + [Str(t)];
  }

  lemma LimitReachedBytes()
    ensures Bytes(Texts([LIMIT_REACHED])) == 30
  {
    LimitNames();
    OneText(LIMIT_REACHED);
  }

  // ---- The inventory -------------------------------------------------------------------------

  function InventoryHead(): seq<Field> {
    [] + [Named("kind", Str(Ascii("LOCAL_INVENTORY")))] + [Named("network_accessed", Bool(false))]
  }

  function InventoryLists(): seq<Field> {
    InventoryHead() + [Named("files", Arr([]))] + [Named("endpoints", Arr([]))] + [Named("urls_observed", Arr([]))]
  }

  lemma InventoryHeadSize()
    ensures FieldsSize(InventoryHead(), SEP) == 52
  {
    CommonNames();
    MoreInventoryNames();
    GrowNamed([], "kind", Str(Ascii("LOCAL_INVENTORY")));
    GrowNamed([] + [Named("kind", Str(Ascii("LOCAL_INVENTORY")))], "network_accessed", Bool(false));
  }

  lemma InventoryListsSize()
    ensures FieldsSize(InventoryLists(), SEP) == 103
  {
    InventoryHeadSize();
    InventoryNames();
    var a := InventoryHead() + [Named("files", Arr([]))];
    GrowNamed(InventoryHead(), "files", Arr([]));
    GrowNamed(a, "endpoints", Arr([]));
    GrowNamed(a + [Named("endpoints", Arr([]))], "urls_observed", Arr([]));
  }

  lemma InventoryFallbackFields()
    ensures INVENTORY_FALLBACK.fields ==
              InventoryLists() + [Named("packages", Arr([]))] + [Named("limitations", Texts([LIMIT_REACHED]))]
              + [Named("artifact_count", Num(0))]
  {}

  lemma InventoryFallbackSize()
    ensures Bytes(INVENTORY_FALLBACK) == 189 <= MIN_STAGE_OUTPUT_BYTES
  {
    InventoryListsSize();
    CommonNames();
    MoreInventoryNames();
    LimitReachedBytes();
    InventoryFallbackFields();
    var f := InventoryLists() + [Named("packages", Arr([]))];
    var g := f + [Named("limitations", Texts([LIMIT_REACHED]))];
    GrowNamed(InventoryLists(), "packages", Arr([]));
    GrowNamed(f, "limitations", Texts([LIMIT_REACHED]));
    GrowNamed(g, "artifact_count", Num(0));
  }

  // ---- The report ----------------------------------------------------------------------------

  function ReportHead(network: bool): seq<Field> {
    [] + [Named("kind", Str(Ascii("LOCAL_REPORT")))] + [Named("network_accessed", Bool(network))]
  }

  function ReportStatus(network: bool): seq<Field> {
    ReportHead(network) + [Named("report_status", Str(StatusText(network)))]
  }

  lemma ReportHeadSize(network: bool)
    ensures FieldsSize(ReportHead(network), SEP) == if network then 48 else 49
  {
    CommonNames();
    ReportNames();
    GrowNamed([], "kind", Str(Ascii("LOCAL_REPORT")));
    GrowNamed([] + [Named("kind", Str(Ascii("LOCAL_REPORT")))], "network_accessed", Bool(network));
  }

  lemma ReportStatusSize(network: bool)
    ensures FieldsSize(ReportStatus(network), SEP) == if network then 94 else 91
  {
    ReportHeadSize(network);
    ReportNames();
    StatusNames();
    GrowNamed(ReportHead(network), "report_status", Str(StatusText(network)));
  }

  lemma StoppedBytes()
    ensures Bytes(Texts(STOPPED)) == 44
  {
    LimitNames();
    TwoTexts(Ascii("local_only"), LIMIT_REACHED);
  }

  lemma ReportFallbackFields(network: bool)
    ensures ReportFallback(network).fields ==
              ReportStatus(network) + [Named("finding_confirmation_allowed", Bool(false))]
              + [Named("limitations", Texts(STOPPED))]
  {}

  lemma ReportFallbackSize(network: bool)
    ensures Bytes(ReportFallback(network)) == (if network then 196 else 193)
    ensures Bytes(ReportFallback(network)) <= MIN_STAGE_OUTPUT_BYTES
  {
    ReportStatusSize(network);
    StoppedBytes();
    CommonNames();
    ReportNames();
    ReportFallbackFields(network);
    var d := ReportStatus(network) + [Named("finding_confirmation_allowed", Bool(false))];
    GrowNamed(ReportStatus(network), "finding_confirmation_allowed", Bool(false));
    GrowNamed(d, "limitations", Texts(STOPPED));
  }
}
