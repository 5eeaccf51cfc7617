/** Encoding undoes decoding, and user expansions keep a plan acceptable. */
module QuestionPlanLaws {
  import opened Options
  import opened QuestionPlan

  // ---------------------------------------------------------------- plans in normal form

  predicate NormalText(t: Texts, s: string) { s != "" && t.normalize(s) == s }

  predicate NormalTexts(t: Texts, values: seq<string>) { Distinct(values) && forall s | s in values :: NormalText(t, s) }

  predicate NormalFact(t: Texts, f: Fact) { NormalText(t, f.id) && NormalText(t, f.text) }

  predicate NormalIssue(t: Texts, version: int, i: Issue) {
    && NormalText(t, i.id) && NormalText(t, i.question) && NormalTexts(t, i.dependsOn) && NormalTexts(t, i.facets)
    && i.roles != [] && Distinct(i.roles) && (version == 3 <==> i.facets != [])
  }

  predicate NormalAnchor(t: Texts, a: Anchor) { NormalText(t, a.text) }

  predicate NormalProvenance(t: Texts, origin: Origin, p: Provenance) { NormalText(t, p.text) && p.source == origin }

  predicate NormalRequest(t: Texts, r: Request) {
    NormalText(t, r.id) && NormalText(t, r.text) && NormalTexts(t, r.issues) && r.issues != []
  }

  predicate NormalQuestions(t: Texts, p: Plan) {
    && NormalText(t, p.question)
    && (p.rawQuestion.Some? ==> t.compose(p.rawQuestion.value) == p.rawQuestion.value && t.normalize(p.rawQuestion.value) == p.question)
    && (p.normalizedQuestion.Some? ==> p.normalizedQuestion.value == p.question)
  }

  predicate NormalParts(t: Texts, p: Plan) {
    && (forall f | f in p.facts :: NormalFact(t, f)) && (forall f | f in p.assumptions :: NormalFact(t, f))
    && (forall i | i in p.issues :: NormalIssue(t, p.version, i)) && (forall a | a in p.anchors :: NormalAnchor(t, a))
    && (forall r | r in p.requests :: NormalRequest(t, r))
    && (forall c | c in p.documentContext :: NormalProvenance(t, FromDocument, c))
    && (forall c | c in p.plannerInference :: NormalProvenance(t, FromPlanner, c))
  }

  predicate Normal(t: Texts, p: Plan) { p.version in {2, 3} && NormalQuestions(t, p) && NormalParts(t, p) }

  // ---------------------------------------------------------------- decoding yields normal form

  lemma TextIsNormal(t: Texts, s: string)
    requires Proper(t) && Text(t, s).Some?
    ensures NormalText(t, Text(t, s).value)
  {
  }

  lemma TextsAreNormal(t: Texts, values: seq<string>)
    requires Proper(t) && All((s: string) => Text(t, s), values).Some? && Distinct(All((s: string) => Text(t, s), values).value)
    ensures NormalTexts(t, All((s: string) => Text(t, s), values).value)
  {
    var all := All((s: string) => Text(t, s), values).value;
    forall s | s in all
      ensures NormalText(t, s)
    {
      var i :| 0 <= i < |all| && all[i] == s;
      TextIsNormal(t, values[i]);
    }
  }

  lemma IssueIsNormal(t: Texts, version: int, raw: RawIssue)
    requires Proper(t) && version in {1, 2, 3} && DecodeIssue(t, version, raw).Some?
    ensures NormalIssue(t, Landed(version), DecodeIssue(t, version, raw).value)
  {
    TextsAreNormal(t, raw.dependsOn);
    if version == 3 { TextsAreNormal(t, raw.facets.value); }
    hide All, Distinct;
    RolesAreNormal(version, raw);
  }

  lemma RolesAreNormal(version: int, raw: RawIssue)
    requires DecodeRoles(version, raw).Some?
    ensures DecodeRoles(version, raw).value != [] && Distinct(DecodeRoles(version, raw).value)
  {
  }

  lemma RequestIsNormal(t: Texts, version: int, raw: RawRequest)
    requires Proper(t) && DecodeRequest(t, version, raw).Some?
    ensures NormalRequest(t, DecodeRequest(t, version, raw).value)
  {
    TextsAreNormal(t, raw.issues);
  }

  /** The contract version a document version lands on. */
  function Landed(version: int): int { if version == 1 then 2 else version }

  lemma FactsAreNormal(t: Texts, raw: seq<RawFact>)
    requires Proper(t) && All((f: RawFact) => DecodeFact(t, f), raw).Some?
    ensures forall f | f in All((f: RawFact) => DecodeFact(t, f), raw).value :: NormalFact(t, f)
  {
    var facts := All((f: RawFact) => DecodeFact(t, f), raw).value;
    forall f | f in facts
      ensures NormalFact(t, f)
    {
      var k :| 0 <= k < |facts| && facts[k] == f;
    }
  }

  lemma IssuesAreNormal(t: Texts, version: int, raw: seq<RawIssue>)
    requires Proper(t) && version in {1, 2, 3} && DecodeIssues(t, version, raw).Some?
    ensures forall i | i in DecodeIssues(t, version, raw).value :: NormalIssue(t, Landed(version), i)
  {
    hide NormalIssue, DecodeIssue;
    var issues := DecodeIssues(t, version, raw).value;
    forall i | i in issues
      ensures NormalIssue(t, Landed(version), i)
    {
      var k :| 0 <= k < |issues| && issues[k] == i;
      IssueIsNormal(t, version, raw[k]);
    }
  }

  lemma AnchorsAreNormal(t: Texts, raw: seq<RawAnchor>)
    requires Proper(t) && All((a: RawAnchor) => DecodeAnchor(t, a), raw).Some?
    ensures forall a | a in All((a: RawAnchor) => DecodeAnchor(t, a), raw).value :: NormalAnchor(t, a)
  {
    var anchors := All((a: RawAnchor) => DecodeAnchor(t, a), raw).value;
    forall a | a in anchors
      ensures NormalAnchor(t, a)
    {
      var k :| 0 <= k < |anchors| && anchors[k] == a;
    }
  }

  lemma RequestsAreNormal(t: Texts, version: int, raw: seq<RawRequest>)
    requires Proper(t) && DecodeRequests(t, version, raw).Some?
    ensures forall r | r in DecodeRequests(t, version, raw).value :: NormalRequest(t, r)
  {
    hide NormalRequest, DecodeRequest;
    var requests := DecodeRequests(t, version, raw).value;
    forall r | r in requests
      ensures NormalRequest(t, r)
    {
      var k :| 0 <= k < |requests| && requests[k] == r;
      RequestIsNormal(t, version, raw[k]);
    }
  }

  /** Every decoded plan is in normal form; version 1 lands on version 2. */
  lemma DecodedIsNormal(t: Texts, raw: RawPlan, expected: string)
    requires Proper(t) && Shape(t, raw, expected).Some?
    ensures Normal(t, Shape(t, raw, expected).value)
    ensures Shape(t, raw, expected).value.version == Landed(raw.version)
  {
    hide NormalFact, NormalIssue, NormalAnchor, NormalRequest, NormalProvenance, DecodeFact, DecodeIssue, DecodeAnchor, DecodeRequest,
      DecodeProvenances, DecodeIssues, DecodeRequests, All;
    FactsAreNormal(t, raw.facts);
    FactsAreNormal(t, raw.assumptions);
    IssuesAreNormal(t, raw.version, raw.issues);
    AnchorsAreNormal(t, raw.anchors);
    RequestsAreNormal(t, raw.version, raw.requests);
    ProvenancesAreNormal(t, FromDocument, raw.documentContext);
    ProvenancesAreNormal(t, FromPlanner, raw.plannerInference);
  }

  lemma ProvenancesAreNormal(t: Texts, origin: Origin, raw: Option<seq<RawProvenance>>)
    requires Proper(t) && DecodeProvenances(t, origin, raw).Some?
    ensures forall c | c in DecodeProvenances(t, origin, raw).value :: NormalProvenance(t, origin, c)
  {
    var all := DecodeProvenances(t, origin, raw).value;
    forall c | c in all
      ensures NormalProvenance(t, origin, c)
    {
      var k :| 0 <= k < |all| && all[k] == c;
    }
  }

  // ---------------------------------------------------------------- decoding what was encoded

  /** Decoding each encoded value gives the values back. */
  lemma AllEncoded<A, B>(f: A -> Option<B>, e: B -> A, values: seq<B>)
    requires forall v | v in values :: f(e(v)) == Some(v)
    ensures All(f, Map(e, values)) == Some(values)
  {
    var raw := Map(e, values);
    forall i | 0 <= i < |values|
      ensures f(raw[i]) == Some(values[i])
    {
      assert values[i] in values;
    }
    var all := All(f, raw);
    forall i | 0 <= i < |values|
      ensures all.value[i] == values[i]
    {
      assert f(raw[i]) == Some(all.value[i]);
    }
    assert all.value == values;
  }

  lemma {:induction false} TextsRoundTrip(t: Texts, values: seq<string>)
    requires NormalTexts(t, values)
    ensures All((s: string) => Text(t, s), values) == Some(values)
  {
    var f := (s: string) => Text(t, s);
    assert Map((s: string) => s, values) == values;
    AllEncoded(f, (s: string) => s, values);
  }

  lemma IssueRoundTrip(t: Texts, version: int, i: Issue)
    requires version in {2, 3} && NormalIssue(t, version, i)
    ensures DecodeIssue(t, version, EncodeIssue(version, i)) == Some(i)
  {
    TextsRoundTrip(t, i.dependsOn);
    TextsRoundTrip(t, i.facets);
    AllEncoded((role: Option<Role>) => role, (r: Role) => Some(r), i.roles);
    hide All, Map, Distinct;
  }

  lemma RequestRoundTrip(t: Texts, version: int, r: Request)
    requires version in {2, 3} && NormalRequest(t, r)
    ensures DecodeRequest(t, version, EncodeRequest(r)) == Some(r)
  {
    TextsRoundTrip(t, r.issues);
  }

  lemma ProvenancesRoundTrip(t: Texts, origin: Origin, values: seq<Provenance>)
    requires forall c | c in values :: NormalProvenance(t, origin, c)
    ensures DecodeProvenances(t, origin, if values == [] then None else Some(Map(EncodeProvenance, values))) == Some(values)
  {
    if values != [] { AllEncoded((p: RawProvenance) => DecodeProvenance(t, origin, p), EncodeProvenance, values); }
  }

  /** A plan in normal form is spelled out again by its document. */
  lemma ShapeOfDocument(t: Texts, p: Plan, expected: string)
    requires Normal(t, p) && t.normalize(expected) == p.question
    ensures Shape(t, QuestionPlanDocument(p), expected) == Some(p)
  {
    hide DecodeIssue, EncodeIssue, DecodeRequest, EncodeRequest, DecodeFact, EncodeFact, DecodeAnchor, EncodeAnchor, DecodeProvenances,
      DecodeIssues, DecodeRequests, All, Map, NormalParts;
    PartsRoundTrip(t, p);
  }

  /** Each list of a plan is decoded from its encoding. */
  lemma PartsRoundTrip(t: Texts, p: Plan)
    requires p.version in {2, 3} && NormalParts(t, p)
    ensures All((f: RawFact) => DecodeFact(t, f), Map(EncodeFact, p.facts)) == Some(p.facts)
    ensures All((f: RawFact) => DecodeFact(t, f), Map(EncodeFact, p.assumptions)) == Some(p.assumptions)
    ensures DecodeIssues(t, p.version, Map((i: Issue) => EncodeIssue(p.version, i), p.issues)) == Some(p.issues)
    ensures All((a: RawAnchor) => DecodeAnchor(t, a), Map(EncodeAnchor, p.anchors)) == Some(p.anchors)
    ensures DecodeRequests(t, p.version, Map(EncodeRequest, p.requests)) == Some(p.requests)
    ensures DecodeProvenances(t, FromDocument, if p.documentContext == [] then None else Some(Map(EncodeProvenance, p.documentContext)))
            == Some(p.documentContext)
    ensures DecodeProvenances(t, FromPlanner, if p.plannerInference == [] then None else Some(Map(EncodeProvenance, p.plannerInference)))
            == Some(p.plannerInference)
  {
    hide All, Map, NormalIssue, NormalRequest, DecodeIssue, EncodeIssue, DecodeRequest, EncodeRequest;
    IssuesRoundTrip(t, p.version, p.issues);
    RequestsRoundTrip(t, p.version, p.requests);
    AllEncoded((f: RawFact) => DecodeFact(t, f), EncodeFact, p.facts);
    AllEncoded((f: RawFact) => DecodeFact(t, f), EncodeFact, p.assumptions);
    AllEncoded((a: RawAnchor) => DecodeAnchor(t, a), EncodeAnchor, p.anchors);
    ProvenancesRoundTrip(t, FromDocument, p.documentContext);
    ProvenancesRoundTrip(t, FromPlanner, p.plannerInference);
  }

  lemma IssuesRoundTrip(t: Texts, version: int, issues: seq<Issue>)
    requires version in {2, 3} && forall i | i in issues :: NormalIssue(t, version, i)
    ensures DecodeIssues(t, version, Map((i: Issue) => EncodeIssue(version, i), issues)) == Some(issues)
  {
    hide DecodeIssue, EncodeIssue, NormalIssue, All, Map;
    forall i | i in issues
      ensures DecodeIssue(t, version, EncodeIssue(version, i)) == Some(i)
    {
      IssueRoundTrip(t, version, i);
    }
    AllEncoded((i: RawIssue) => DecodeIssue(t, version, i), (i: Issue) => EncodeIssue(version, i), issues);
  }

  lemma RequestsRoundTrip(t: Texts, version: int, requests: seq<Request>)
    requires version in {2, 3} && forall r | r in requests :: NormalRequest(t, r)
    ensures DecodeRequests(t, version, Map(EncodeRequest, requests)) == Some(requests)
  {
    hide DecodeRequest, EncodeRequest, NormalRequest, All, Map;
    forall r | r in requests
      ensures DecodeRequest(t, version, EncodeRequest(r)) == Some(r)
    {
      RequestRoundTrip(t, version, r);
    }
    AllEncoded((r: RawRequest) => DecodeRequest(t, version, r), EncodeRequest, requests);
  }

  /** Encoding undoes decoding: the document of any decoded plan decodes to that same plan. */
  lemma DocumentRoundTrip(t: Texts, raw: RawPlan, expected: string)
    requires Proper(t) && Decoded(t, raw, expected).Some?
    ensures var p := Decoded(t, raw, expected).value;
            && Decoded(t, QuestionPlanDocument(p), expected) == Some(p)
            && Decoded(t, QuestionPlanDocument(p), p.question) == Some(p)
  {
    var p := Decoded(t, raw, expected).value;
    DecodedIsNormal(t, raw, expected);
    ShapeOfDocument(t, p, expected);
    assert t.normalize(p.question) == p.question;
    ShapeOfDocument(t, p, p.question);
    hide Coherent, Shape, QuestionPlanDocument;
  }
}
