// What validation and serialization read and show, down to names and numbers.
module FindingReads {
  import opened Wrappers
  import opened Text
  import opened Json
  import opened Evidence
  import opened Findings
  import opened FindingStates

  // ---- Secret keys -------------------------------------------------------------------------------

  predicate SecretName(t: Text) {
    || t == Ascii("authorization") || t == Ascii("cookie") || t == Ascii("token") || t == Ascii("access_token")
    || t == Ascii("refresh_token") || t == Ascii("password") || t == Ascii("secret") || t == Ascii("api_key")
    || t == Ascii("apikey") || t == Ascii("credential") || t == Ascii("credentials")
  }

  // A value is hidden whole exactly under one of eleven names, in any case and with dashes for
  // underscores, at any depth that is not cut off; and nothing of it remains.
  lemma HiddenKeysAre(h: Host, key: Text)
    ensures Secret(h, key) <==> SecretName(Normalized(h, key))
    ensures SecretName(Normalized(h, key)) ==>
              forall v, depth: nat :: Safe(h, v, key, depth) in {Str(REDACTED), Str(TRUNCATED)}
  {
    DashedKeyNeverMatches(h, key);
  }

  // ---- Comparison --------------------------------------------------------------------------------

  predicate ProtectedName(t: Text) {
    || t == Ascii("owner_id") || t == Ascii("tenant_id") || t == Ascii("sensitivity") || t == Ascii("classification")
    || t == Ascii("amount") || t == Ascii("details") || t == Ascii("value")
  }

  lemma GuardedExactly(fs: seq<Field>)
    ensures Guarded(Obj(fs)) <==> exists i :: 0 <= i < |fs| && ProtectedName(fs[i].name)
  {
    if Guarded(Obj(fs)) {
      var k :| 0 <= k < |PROTECTED| && Contains(Obj(fs), PROTECTED[k]);
      var i :| 0 <= i < |fs| && fs[i].name == PROTECTED[k];
      assert ProtectedName(fs[i].name);
    }
    if i :| 0 <= i < |fs| && ProtectedName(fs[i].name) {
      var k := ProtectedIndex(fs[i].name);
      assert Contains(Obj(fs), PROTECTED[k]);
    }
  }

  lemma ProtectedIndex(t: Text) returns (k: nat)
    requires ProtectedName(t)
    ensures k < |PROTECTED| && PROTECTED[k] == t
  {
    k := if t == Ascii("owner_id") then 0 else if t == Ascii("tenant_id") then 1
         else if t == Ascii("sensitivity") then 2 else if t == Ascii("classification") then 3
         else if t == Ascii("amount") then 4 else if t == Ascii("details") then 5 else 6;
  }

  // What a demonstration shows: a request that policy denies was answered below 300 with an
  // object that has a protected field, as the owner's baseline does.
  lemma ProtectedContentWasReturned(h: Host, f: Facts, e: Item)
    requires Demonstrates(h, f, e)
    ensures var status, body := Lookup(e.observed, Ascii("status")), Lookup(e.observed, Ascii("body"));
      && (status.Bool? || (status.Num? && status.n < 300))
      && body.Obj? && exists i :: 0 <= i < |body.fields| && ProtectedName(body.fields[i].name)
    ensures var body := Lookup(e.expected, Ascii("body"));
      body.Obj? && exists i :: 0 <= i < |body.fields| && ProtectedName(body.fields[i].name)
  {
    GuardedExactly(Lookup(e.observed, Ascii("body")).fields);
    GuardedExactly(Lookup(e.expected, Ascii("body")).fields);
  }

  predicate Placeholder(t: Text) { |t| > 0 && t[0] == 123 && t[|t| - 1] == 125 }

  // Two segments differ only under a placeholder in braces; a template without one matches
  // only itself, and a placeholder matches whatever stands there.
  lemma SegmentsMatchExactly(template: seq<Text>, actual: seq<Text>)
    ensures !SegmentsMatch(template, actual) <==>
              |template| != |actual|
              || exists i :: 0 <= i < |template| && template[i] != actual[i] && !Placeholder(template[i])
    ensures (forall i :: 0 <= i < |template| ==> !Placeholder(template[i])) ==>
              (SegmentsMatch(template, actual) <==> actual == template)
    ensures SegmentsMatch(template, actual) ==>
              forall i, t {:trigger actual[i := t]} ::
                0 <= i < |template| && Placeholder(template[i]) ==> SegmentsMatch(template, actual[i := t])
  {}

  // ---- Records -----------------------------------------------------------------------------------

  predicate FirstTwenty<T(==)>(all: seq<T>, shown: seq<T>) {
    shown <= all && |shown| == if |all| < 20 then |all| else 20
  }

  // What a record shows of a finding: its state and validation as they are, at most the first
  // twenty entries of every list, and, in public, references for the scope and in the provenance.
  lemma RecordShows(h: Host, c: Content, public: bool)
    requires Serialized(h, c, public).Ok?
    ensures var r := Serialized(h, c, public).value;
      && r.state == c.state && r.status == c.status && r.digest == c.digest && FirstTwenty(c.faults, r.faults)
      && FirstTwenty(c.facts.steps, r.facts.steps) && FirstTwenty(c.facts.preconditions, r.facts.preconditions)
      && FirstTwenty(c.facts.identities, r.facts.identities) && FirstTwenty(c.facts.limitations, r.facts.limitations)
      && r.facts.scope == (if public then PublicRef(h, c.facts.scope) else c.facts.scope)
      && r.facts.(scope := c.facts.scope, steps := c.facts.steps, preconditions := c.facts.preconditions,
                  identities := c.facts.identities, limitations := c.facts.limitations) == c.facts
    ensures var r := Serialized(h, c, public).value;
      && |r.evidence| == (if |c.evidence| < 20 then |c.evidence| else 20)
      && forall i :: 0 <= i < |r.evidence| ==>
           && r.evidence[i].sha == DigestOf(Sanitized(h, Core(c.evidence[i])))
           && r.evidence[i].item ==
                if public then c.evidence[i].(provenance := Publicize(h, c.evidence[i].provenance, []))
                else c.evidence[i]
  {
    ReportingChecksAssurance(GateOf(h), c);
    var shown := First(c.evidence);
    var r := RenderAll(h, shown, public).value;
    forall i | 0 <= i < |shown| ensures Render(h, c.evidence[i], public) == Ok(r[i]) {
      assert shown[i] == c.evidence[i];
    }
  }
}
