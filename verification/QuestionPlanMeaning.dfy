/** Which documents are accepted as plans for a question, and what each field of the plan is then, field
    by field over the document. */
module QuestionPlanMeaning {
  import opened Options
  import opened QuestionPlan
  import IssueGraph

  // ---------------------------------------------------------------- the fields of a document

  function Normalized(t: Texts, values: seq<string>): (normalized: seq<string>)
    ensures |normalized| == |values| && forall i | 0 <= i < |values| :: normalized[i] == t.normalize(values[i])
  {
    seq(|values|, i requires 0 <= i < |values| => t.normalize(values[i]))
  }

  /** Texts that are not blank and differ once normalized. */
  predicate DifferentTexts(t: Texts, values: seq<string>) {
    && (forall s | s in values :: t.normalize(s) != "")
    && (forall i, j | 0 <= i < j < |values| :: t.normalize(values[i]) != t.normalize(values[j]))
  }

  predicate HeaderFits(t: Texts, raw: RawPlan, expected: string) {
    && raw.formatMatches && (raw.version == 1 || raw.version == 2 || raw.version == 3)
    && t.normalize(expected) != "" && t.normalize(raw.question) == t.normalize(expected)
    && (raw.rawQuestion.Some? ==> t.normalize(raw.rawQuestion.value) == t.normalize(expected))
    && (raw.normalizedQuestion.Some? ==> t.normalize(raw.normalizedQuestion.value) == t.normalize(expected))
  }

  predicate FactFits(t: Texts, f: RawFact) { t.normalize(f.id) != "" && t.normalize(f.text) != "" && f.polarity.Some? }

  /** Roles come with version 2 and facets with version 3; before, the field is unknown and refused. */
  predicate IssueFits(t: Texts, version: int, i: RawIssue) {
    && t.normalize(i.id) != "" && t.normalize(i.question) != "" && DifferentTexts(t, i.dependsOn)
    && (version == 1 ==> i.roles.None?)
    && (version != 1 ==> i.roles.Some? && i.roles.value != [] && None !in i.roles.value
                         && forall a, b | 0 <= a < b < |i.roles.value| :: i.roles.value[a] != i.roles.value[b])
    && (version < 3 ==> i.facets.None?)
    && (version >= 3 ==> i.facets.Some? && i.facets.value != [] && DifferentTexts(t, i.facets.value))
  }

  predicate AnchorFits(t: Texts, a: RawAnchor) { t.normalize(a.text) != "" && a.source.Some? }

  predicate ProvenanceFits(t: Texts, origin: Origin, p: RawProvenance) { t.normalize(p.text) != "" && p.source == Some(origin) }

  /** A role that is no known one stands as present but absent in value. */
  predicate RequestFits(t: Texts, version: int, r: RawRequest) {
    && t.normalize(r.id) != "" && t.normalize(r.text) != "" && r.kind.Some? && r.source.Some?
    && r.issues != [] && DifferentTexts(t, r.issues)
    && (version == 1 ==> r.role.None?) && (version != 1 ==> r.role.Some? && r.role.value.Some?)
  }

  predicate FieldsFit(t: Texts, raw: RawPlan) {
    && (forall f | f in raw.facts :: FactFits(t, f)) && (forall f | f in raw.assumptions :: FactFits(t, f))
    && (forall i | i in raw.issues :: IssueFits(t, raw.version, i)) && (forall a | a in raw.anchors :: AnchorFits(t, a))
    && (forall r | r in raw.requests :: RequestFits(t, raw.version, r))
    && (raw.documentContext.Some? ==> forall p | p in raw.documentContext.value :: ProvenanceFits(t, FromDocument, p))
    && (raw.plannerInference.Some? ==> forall p | p in raw.plannerInference.value :: ProvenanceFits(t, FromPlanner, p))
  }

  // ---------------------------------------------------------------- across the fields

  predicate WithinBounds(raw: RawPlan) { 1 <= |raw.issues| <= 8 && 1 <= |raw.requests| <= 24 && |raw.anchors| <= 20 }

  /** Facts and assumptions share one space of identifiers. */
  predicate IdentifiersDiffer(t: Texts, raw: RawPlan) {
    var facts := raw.facts + raw.assumptions;
    && (forall i, j | 0 <= i < j < |facts| :: t.normalize(facts[i].id) != t.normalize(facts[j].id))
    && (forall i, j | 0 <= i < j < |raw.issues| :: t.normalize(raw.issues[i].id) != t.normalize(raw.issues[j].id))
    && (forall i, j | 0 <= i < j < |raw.requests| ::
          && t.normalize(raw.requests[i].id) != t.normalize(raw.requests[j].id)
          && (t.normalize(raw.requests[i].text) != t.normalize(raw.requests[j].text) || raw.requests[i].kind != raw.requests[j].kind))
  }

  /** Issue `i` depends on issue `j`. */
  predicate DependsOn(t: Texts, issues: seq<RawIssue>, i: nat, j: nat) {
    i < |issues| && j < |issues| && exists d | d in issues[i].dependsOn :: t.normalize(d) == t.normalize(issues[j].id)
  }

  /** Positions of issues, each depending on the next, that come back to the first. */
  predicate Returning(t: Texts, issues: seq<RawIssue>, path: seq<nat>) {
    && |path| > 1 && path[0] == path[|path| - 1]
    && forall k | 0 <= k < |path| - 1 :: DependsOn(t, issues, path[k], path[k + 1])
  }

  ghost predicate DependenciesFit(t: Texts, issues: seq<RawIssue>) {
    && (forall i, d | 0 <= i < |issues| && d in issues[i].dependsOn ::
          exists j | 0 <= j < |issues| :: t.normalize(d) == t.normalize(issues[j].id))
    && (forall path :: !Returning(t, issues, path))
  }

  /** Issue `i` has the identifier `id` and, from version 2 on, lists the role of the request. */
  predicate Asks(t: Texts, version: int, r: RawRequest, id: string, i: RawIssue) {
    t.normalize(i.id) == t.normalize(id) && (version != 1 ==> r.role.Some? && i.roles.Some? && r.role.value in i.roles.value)
  }

  /** Every issue a request names exists and asks for it. */
  predicate RolesAsked(t: Texts, raw: RawPlan) {
    forall r, id | r in raw.requests && id in r.issues ::
      exists i | i in raw.issues :: Asks(t, raw.version, r, id, i)
  }

  ghost predicate AnchorsFit(t: Texts, question: string, anchors: seq<RawAnchor>) {
    && (forall a | a in anchors && a.source == Some(User) :: t.contains(question, t.normalize(a.text)))
    && (forall citation | citation in t.citations(question) ::
          exists a | a in anchors :: a.source == Some(User) && t.contains(t.citationKey(t.normalize(a.text)), citation))
  }

  /** Some text of the document, once normalized, carries the number. */
  predicate NumberFits(t: Texts, raw: RawPlan, number: string) {
    || (exists f | f in raw.facts :: number in t.numbers(t.normalize(f.text)))
    || (exists f | f in raw.assumptions :: number in t.numbers(t.normalize(f.text)))
    || (exists i | i in raw.issues :: number in t.numbers(t.normalize(i.question)))
    || (exists a | a in raw.anchors :: number in t.numbers(t.normalize(a.text)))
    || (exists r | r in raw.requests :: number in t.numbers(t.normalize(r.text)))
  }

  ghost predicate NumbersFit(t: Texts, question: string, raw: RawPlan) {
    forall number | number in t.numbers(question) :: NumberFits(t, raw, number)
  }

  /** The documents accepted as plans for the question. */
  ghost predicate Accepts(t: Texts, raw: RawPlan, expected: string) {
    && HeaderFits(t, raw, expected) && FieldsFit(t, raw)
    && WithinBounds(raw) && IdentifiersDiffer(t, raw) && DependenciesFit(t, raw.issues) && RolesAsked(t, raw)
    && AnchorsFit(t, t.normalize(expected), raw.anchors) && NumbersFit(t, t.normalize(expected), raw)
  }

  // ---------------------------------------------------------------- the fields of the plan

  predicate SpellsFact(t: Texts, raw: RawFact, f: Fact) {
    f.id == t.normalize(raw.id) && f.text == t.normalize(raw.text) && Some(f.polarity) == raw.polarity
  }

  /** In version 1 every issue asks for a rule and has no facets. */
  predicate SpellsIssue(t: Texts, version: int, raw: RawIssue, i: Issue) {
    && i.id == t.normalize(raw.id) && i.question == t.normalize(raw.question) && i.dependsOn == Normalized(t, raw.dependsOn)
    && (version == 1 ==> i.roles == [RuleRole])
    && (version != 1 ==> raw.roles.Some? && |i.roles| == |raw.roles.value|
                         && forall k | 0 <= k < |i.roles| :: Some(i.roles[k]) == raw.roles.value[k])
    && (version < 3 ==> i.facets == [])
    && (version >= 3 ==> raw.facets.Some? && i.facets == Normalized(t, raw.facets.value))
  }

  predicate SpellsAnchor(t: Texts, raw: RawAnchor, a: Anchor) { a.text == t.normalize(raw.text) && Some(a.source) == raw.source }

  predicate SpellsProvenance(t: Texts, raw: RawProvenance, p: Provenance) { p.text == t.normalize(raw.text) && Some(p.source) == raw.source }

  predicate SpellsRequest(t: Texts, version: int, raw: RawRequest, r: Request) {
    && r.id == t.normalize(raw.id) && r.text == t.normalize(raw.text) && r.issues == Normalized(t, raw.issues)
    && Some(r.kind) == raw.kind && Some(r.source) == raw.source
    && (if version == 1 then r.role == RuleRole else raw.role == Some(Some(r.role)))
  }

  predicate SpellsLists(t: Texts, raw: RawPlan, p: Plan) {
    && |p.facts| == |raw.facts| && (forall k | 0 <= k < |raw.facts| :: SpellsFact(t, raw.facts[k], p.facts[k]))
    && |p.assumptions| == |raw.assumptions| && (forall k | 0 <= k < |raw.assumptions| :: SpellsFact(t, raw.assumptions[k], p.assumptions[k]))
    && |p.issues| == |raw.issues| && (forall k | 0 <= k < |raw.issues| :: SpellsIssue(t, raw.version, raw.issues[k], p.issues[k]))
    && |p.anchors| == |raw.anchors| && (forall k | 0 <= k < |raw.anchors| :: SpellsAnchor(t, raw.anchors[k], p.anchors[k]))
    && |p.requests| == |raw.requests| && (forall k | 0 <= k < |raw.requests| :: SpellsRequest(t, raw.version, raw.requests[k], p.requests[k]))
  }

  predicate SpellsContext(t: Texts, raw: Option<seq<RawProvenance>>, context: seq<Provenance>) {
    if raw.None? then context == []
    else |context| == |raw.value| && forall k | 0 <= k < |context| :: SpellsProvenance(t, raw.value[k], context[k])
  }

  /** What the accepted plan says: every text normalized, the raw question only composed, and version 1
      raised to version 2. */
  predicate Spells(t: Texts, raw: RawPlan, expected: string, p: Plan) {
    && p.question == t.normalize(expected)
    && SpellsLists(t, raw, p)
    && (raw.rawQuestion.None? ==> p.rawQuestion.None?) && (raw.rawQuestion.Some? ==> p.rawQuestion == Some(t.compose(raw.rawQuestion.value)))
    && (raw.normalizedQuestion.None? ==> p.normalizedQuestion.None?)
    && (raw.normalizedQuestion.Some? ==> p.normalizedQuestion == Some(t.normalize(raw.normalizedQuestion.value)))
    && SpellsContext(t, raw.documentContext, p.documentContext) && SpellsContext(t, raw.plannerInference, p.plannerInference)
    && p.version == (if raw.version == 3 then 3 else 2)
  }

  // ---------------------------------------------------------------- one entity

  /** A list is decoded when each of its members is. */
  lemma {:induction false} AllMeans<A, B>(f: A -> Option<B>, values: seq<A>)
    ensures All(f, values).Some? <==> forall v | v in values :: f(v).Some?
  {
    if forall v | v in values :: f(v).Some? {
      assert forall i | 0 <= i < |values| :: values[i] in values;
    }
  }

  lemma {:induction false} TextsDecode(t: Texts, values: seq<string>)
    ensures var all := All((s: string) => Text(t, s), values);
            && (all.Some? && Distinct(all.value) <==> DifferentTexts(t, values))
            && (all.Some? ==> all.value == Normalized(t, values))
  {
    var f := (s: string) => Text(t, s);
    AllMeans(f, values);
    assert forall s :: f(s).Some? <==> t.normalize(s) != "";
    var all := All(f, values);
    if all.Some? {
      forall i | 0 <= i < |values| ensures all.value[i] == t.normalize(values[i]) {
        assert f(values[i]) == Some(all.value[i]);
      }
      assert all.value == Normalized(t, values);
    }
  }

  lemma RolesDecode(version: int, raw: RawIssue)
    requires version != 1 && raw.roles.Some?
    ensures var values := raw.roles.value;
            DecodeRoles(version, raw).Some? <==>
              values != [] && None !in values && forall a, b | 0 <= a < b < |values| :: values[a] != values[b]
    ensures DecodeRoles(version, raw).Some? ==>
              var values, roles := raw.roles.value, DecodeRoles(version, raw).value;
              |roles| == |values| && forall k | 0 <= k < |roles| :: Some(roles[k]) == values[k]
  {
    var f := (role: Option<Role>) => role;
    AllMeans(f, raw.roles.value);
    var all := All(f, raw.roles.value);
    if all.Some? {
      assert forall i | 0 <= i < |raw.roles.value| :: f(raw.roles.value[i]) == raw.roles.value[i] == Some(all.value[i]);
    }
  }

  lemma IssueDecodes(t: Texts, version: int, raw: RawIssue)
    ensures DecodeIssue(t, version, raw).Some? <==> IssueFits(t, version, raw)
    ensures DecodeIssue(t, version, raw).Some? ==> SpellsIssue(t, version, raw, DecodeIssue(t, version, raw).value)
  {
    TextsDecode(t, raw.dependsOn);
    if raw.facets.Some? { TextsDecode(t, raw.facets.value); }
    if version != 1 && raw.roles.Some? { RolesDecode(version, raw); }
    hide All, Distinct, DifferentTexts, Normalized;
  }

  lemma RequestDecodes(t: Texts, version: int, raw: RawRequest)
    ensures DecodeRequest(t, version, raw).Some? <==> RequestFits(t, version, raw)
    ensures DecodeRequest(t, version, raw).Some? ==> SpellsRequest(t, version, raw, DecodeRequest(t, version, raw).value)
  {
    TextsDecode(t, raw.issues);
    hide Distinct, DifferentTexts;
  }

  // ---------------------------------------------------------------- the lists

  lemma FactsDecode(t: Texts, raw: seq<RawFact>)
    ensures var all := All((f: RawFact) => DecodeFact(t, f), raw);
            && (all.Some? <==> forall f | f in raw :: FactFits(t, f))
            && (all.Some? ==> |all.value| == |raw| && forall k | 0 <= k < |raw| :: SpellsFact(t, raw[k], all.value[k]))
  {
    var f := (f: RawFact) => DecodeFact(t, f);
    AllMeans(f, raw);
    assert forall x :: f(x).Some? <==> FactFits(t, x);
    var all := All(f, raw);
    if all.Some? {
      forall k | 0 <= k < |raw| ensures SpellsFact(t, raw[k], all.value[k]) { assert f(raw[k]) == Some(all.value[k]); }
    }
  }

  lemma AnchorsDecode(t: Texts, raw: seq<RawAnchor>)
    ensures var all := All((a: RawAnchor) => DecodeAnchor(t, a), raw);
            && (all.Some? <==> forall a | a in raw :: AnchorFits(t, a))
            && (all.Some? ==> |all.value| == |raw| && forall k | 0 <= k < |raw| :: SpellsAnchor(t, raw[k], all.value[k]))
  {
    var f := (a: RawAnchor) => DecodeAnchor(t, a);
    AllMeans(f, raw);
    assert forall x :: f(x).Some? <==> AnchorFits(t, x);
    var all := All(f, raw);
    if all.Some? {
      forall k | 0 <= k < |raw| ensures SpellsAnchor(t, raw[k], all.value[k]) { assert f(raw[k]) == Some(all.value[k]); }
    }
  }

  lemma IssuesDecode(t: Texts, version: int, raw: seq<RawIssue>)
    ensures var all := DecodeIssues(t, version, raw);
            && (all.Some? <==> forall i | i in raw :: IssueFits(t, version, i))
            && (all.Some? ==> |all.value| == |raw| && forall k | 0 <= k < |raw| :: SpellsIssue(t, version, raw[k], all.value[k]))
  {
    hide DecodeIssue, IssueFits, SpellsIssue;
    var f := (i: RawIssue) => DecodeIssue(t, version, i);
    AllMeans(f, raw);
    forall i: RawIssue ensures f(i).Some? <==> IssueFits(t, version, i) { IssueDecodes(t, version, i); }
    var all := All(f, raw);
    if all.Some? {
      forall k | 0 <= k < |raw| ensures SpellsIssue(t, version, raw[k], all.value[k]) {
        IssueDecodes(t, version, raw[k]);
        assert f(raw[k]) == Some(all.value[k]);
      }
    }
  }

  lemma RequestsDecode(t: Texts, version: int, raw: seq<RawRequest>)
    ensures var all := DecodeRequests(t, version, raw);
            && (all.Some? <==> forall r | r in raw :: RequestFits(t, version, r))
            && (all.Some? ==> |all.value| == |raw| && forall k | 0 <= k < |raw| :: SpellsRequest(t, version, raw[k], all.value[k]))
  {
    hide DecodeRequest, RequestFits, SpellsRequest;
    var f := (r: RawRequest) => DecodeRequest(t, version, r);
    AllMeans(f, raw);
    forall r: RawRequest ensures f(r).Some? <==> RequestFits(t, version, r) { RequestDecodes(t, version, r); }
    var all := All(f, raw);
    if all.Some? {
      forall k | 0 <= k < |raw| ensures SpellsRequest(t, version, raw[k], all.value[k]) {
        RequestDecodes(t, version, raw[k]);
        assert f(raw[k]) == Some(all.value[k]);
      }
    }
  }

  lemma ProvenancesDecode(t: Texts, origin: Origin, raw: Option<seq<RawProvenance>>)
    ensures var all := DecodeProvenances(t, origin, raw);
            && (all.Some? <==> (raw.Some? ==> forall p | p in raw.value :: ProvenanceFits(t, origin, p)))
            && (all.Some? ==> SpellsContext(t, raw, all.value))
  {
    if raw.Some? {
      var f := (p: RawProvenance) => DecodeProvenance(t, origin, p);
      AllMeans(f, raw.value);
      assert forall x :: f(x).Some? <==> ProvenanceFits(t, origin, x);
      var all := All(f, raw.value);
      if all.Some? {
        forall k | 0 <= k < |raw.value| ensures SpellsProvenance(t, raw.value[k], all.value[k]) { assert f(raw.value[k]) == Some(all.value[k]); }
      }
    }
  }

  /** Which documents have the shape of a plan, and what the plan says. */
  lemma ShapeMeans(t: Texts, raw: RawPlan, expected: string)
    ensures Shape(t, raw, expected).Some? <==> HeaderFits(t, raw, expected) && FieldsFit(t, raw)
    ensures Shape(t, raw, expected).Some? ==> Spells(t, raw, expected, Shape(t, raw, expected).value)
  {
    hide DecodeFact, DecodeAnchor, DecodeIssues, DecodeRequests, DecodeProvenances, All, FactFits, IssueFits, AnchorFits, RequestFits,
      ProvenanceFits, SpellsFact, SpellsIssue, SpellsAnchor, SpellsRequest, SpellsContext;
    FactsDecode(t, raw.facts);
    FactsDecode(t, raw.assumptions);
    IssuesDecode(t, raw.version, raw.issues);
    AnchorsDecode(t, raw.anchors);
    RequestsDecode(t, raw.version, raw.requests);
    ProvenancesDecode(t, FromDocument, raw.documentContext);
    ProvenancesDecode(t, FromPlanner, raw.plannerInference);
  }

  // ---------------------------------------------------------------- the cross-field checks

  lemma FactsDiffer(t: Texts, raw: RawPlan, p: Plan)
    requires SpellsLists(t, raw, p)
    ensures var facts := raw.facts + raw.assumptions;
            UniqueFacts(p.facts, p.assumptions) <==>
              forall i, j | 0 <= i < j < |facts| :: t.normalize(facts[i].id) != t.normalize(facts[j].id)
  {
    hide SpellsIssue, SpellsRequest, SpellsAnchor;
    var facts, all := raw.facts + raw.assumptions, p.facts + p.assumptions;
    assert forall k | 0 <= k < |facts| :: all[k].id == t.normalize(facts[k].id);
    assert UniqueFacts(p.facts, p.assumptions) <==> forall i, j | 0 <= i < j < |all| :: all[i].id != all[j].id by {
      BothUnique(p.facts, p.assumptions);
    }
  }

  lemma BothUnique(a: seq<Fact>, b: seq<Fact>)
    ensures UniqueFacts(a, b) <==> forall i, j | 0 <= i < j < |a + b| :: (a + b)[i].id != (a + b)[j].id
  {
    var all := a + b;
    if forall i, j | 0 <= i < j < |all| :: all[i].id != all[j].id {
      forall i, j | 0 <= i < j < |a| ensures a[i].id != a[j].id { assert all[i] == a[i] && all[j] == a[j]; }
      forall i, j | 0 <= i < j < |b| ensures b[i].id != b[j].id { assert all[|a| + i] == b[i] && all[|a| + j] == b[j]; }
      forall x, y | x in a && y in b ensures x.id != y.id {
        var i :| 0 <= i < |a| && a[i] == x;
        var j :| 0 <= j < |b| && b[j] == y;
        assert all[i] == x && all[|a| + j] == y;
      }
    }
  }

  lemma RequestsDiffer(t: Texts, raw: RawPlan, p: Plan)
    requires SpellsLists(t, raw, p)
    ensures UniqueIssues(p.issues) <==>
              forall i, j | 0 <= i < j < |raw.issues| :: t.normalize(raw.issues[i].id) != t.normalize(raw.issues[j].id)
    ensures (forall r | r in raw.requests :: r.kind.Some?) ==>
              (UniqueRequests(p.requests) <==>
                 forall i, j | 0 <= i < j < |raw.requests| ::
                   && t.normalize(raw.requests[i].id) != t.normalize(raw.requests[j].id)
                   && (t.normalize(raw.requests[i].text) != t.normalize(raw.requests[j].text) || raw.requests[i].kind != raw.requests[j].kind))
  {
    hide SpellsFact, SpellsAnchor;
    forall i, j | 0 <= i < j < |raw.issues|
      ensures p.issues[i].id != p.issues[j].id <==> t.normalize(raw.issues[i].id) != t.normalize(raw.issues[j].id)
    {
      assert SpellsIssue(t, raw.version, raw.issues[i], p.issues[i]) && SpellsIssue(t, raw.version, raw.issues[j], p.issues[j]);
    }
    hide SpellsIssue;
    forall k | 0 <= k < |raw.requests|
      ensures p.requests[k].id == t.normalize(raw.requests[k].id) && p.requests[k].text == t.normalize(raw.requests[k].text)
      ensures Some(p.requests[k].kind) == raw.requests[k].kind
    {
      assert SpellsRequest(t, raw.version, raw.requests[k], p.requests[k]);
    }
    hide SpellsRequest;
  }

  /** The plan's anchors, one by one. */
  lemma AnchorsCheck(t: Texts, question: string, raw: seq<RawAnchor>, anchors: seq<Anchor>)
    requires |anchors| == |raw| && forall k | 0 <= k < |raw| :: SpellsAnchor(t, raw[k], anchors[k])
    ensures AnchorsGrounded(t, question, anchors) && CitationsKept(t, question, anchors) <==> AnchorsFit(t, question, raw)
  {
    forall a | a in anchors ensures exists x | x in raw :: SpellsAnchor(t, x, a) {
      var k :| 0 <= k < |anchors| && anchors[k] == a;
      assert raw[k] in raw;
    }
    forall x | x in raw ensures exists a | a in anchors :: SpellsAnchor(t, x, a) {
      var k :| 0 <= k < |raw| && raw[k] == x;
      assert anchors[k] in anchors;
    }
  }

  lemma FactNumber(t: Texts, raw: seq<RawFact>, facts: seq<Fact>, number: string)
    requires |facts| == |raw| && forall k | 0 <= k < |raw| :: SpellsFact(t, raw[k], facts[k])
    ensures (exists f | f in facts :: number in t.numbers(f.text)) <==> exists f | f in raw :: number in t.numbers(t.normalize(f.text))
  {
    if k :| 0 <= k < |facts| && number in t.numbers(facts[k].text) { assert facts[k] in facts && raw[k] in raw; }
  }

  lemma AnchorNumber(t: Texts, raw: seq<RawAnchor>, anchors: seq<Anchor>, number: string)
    requires |anchors| == |raw| && forall k | 0 <= k < |raw| :: SpellsAnchor(t, raw[k], anchors[k])
    ensures (exists a | a in anchors :: number in t.numbers(a.text)) <==> exists a | a in raw :: number in t.numbers(t.normalize(a.text))
  {
    if k :| 0 <= k < |anchors| && number in t.numbers(anchors[k].text) { assert anchors[k] in anchors && raw[k] in raw; }
  }

  lemma IssueNumber(t: Texts, version: int, raw: seq<RawIssue>, issues: seq<Issue>, number: string)
    requires |issues| == |raw| && forall k | 0 <= k < |raw| :: SpellsIssue(t, version, raw[k], issues[k])
    ensures (exists i | i in issues :: number in t.numbers(i.question)) <==> exists i | i in raw :: number in t.numbers(t.normalize(i.question))
  {
    forall k | 0 <= k < |raw| ensures issues[k].question == t.normalize(raw[k].question) {
      assert SpellsIssue(t, version, raw[k], issues[k]);
    }
    hide SpellsIssue;
    if k :| 0 <= k < |issues| && number in t.numbers(issues[k].question) { assert issues[k] in issues && raw[k] in raw; }
  }

  lemma RequestNumber(t: Texts, version: int, raw: seq<RawRequest>, requests: seq<Request>, number: string)
    requires |requests| == |raw| && forall k | 0 <= k < |raw| :: SpellsRequest(t, version, raw[k], requests[k])
    ensures (exists r | r in requests :: number in t.numbers(r.text)) <==> exists r | r in raw :: number in t.numbers(t.normalize(r.text))
  {
    forall k | 0 <= k < |raw| ensures requests[k].text == t.normalize(raw[k].text) {
      assert SpellsRequest(t, version, raw[k], requests[k]);
    }
    hide SpellsRequest;
    if k :| 0 <= k < |requests| && number in t.numbers(requests[k].text) { assert requests[k] in requests && raw[k] in raw; }
  }

  lemma NumberCheck(t: Texts, raw: RawPlan, p: Plan, number: string)
    requires SpellsLists(t, raw, p)
    ensures NumberKept(t, p, number) <==> NumberFits(t, raw, number)
  {
    hide SpellsFact, SpellsAnchor, SpellsIssue, SpellsRequest;
    FactNumber(t, raw.facts, p.facts, number);
    FactNumber(t, raw.assumptions, p.assumptions, number);
    IssueNumber(t, raw.version, raw.issues, p.issues, number);
    AnchorNumber(t, raw.anchors, p.anchors, number);
    RequestNumber(t, raw.version, raw.requests, p.requests, number);
  }

  lemma NumbersCheck(t: Texts, raw: RawPlan, p: Plan)
    requires SpellsLists(t, raw, p)
    ensures NumbersKept(t, p) <==> NumbersFit(t, p.question, raw)
  {
    hide SpellsLists, NumberKept, NumberFits;
    forall number | number in t.numbers(p.question) ensures NumberKept(t, p, number) <==> NumberFits(t, raw, number) {
      NumberCheck(t, raw, p, number);
    }
  }

  /** A request may ask an issue of a document when it may ask the issue of the plan. */
  lemma RoleAsked(t: Texts, version: int, rawRequest: RawRequest, rawIssue: RawIssue, r: Request, i: Issue)
    requires SpellsRequest(t, version, rawRequest, r) && SpellsIssue(t, version, rawIssue, i)
    ensures r.role in i.roles <==>
              (version != 1 ==> rawRequest.role.Some? && rawIssue.roles.Some? && rawRequest.role.value in rawIssue.roles.value)
  {
    if version != 1 {
      assert rawRequest.role.value == Some(r.role);
      if r.role in i.roles {
        var k :| 0 <= k < |i.roles| && i.roles[k] == r.role;
        assert rawIssue.roles.value[k] == Some(r.role);
      }
      if Some(r.role) in rawIssue.roles.value {
        var k :| 0 <= k < |rawIssue.roles.value| && rawIssue.roles.value[k] == Some(r.role);
        assert i.roles[k] == r.role;
      }
    }
  }

  predicate AsksOne(issues: seq<Issue>, r: Request, id: string) {
    exists issue | issue in issues :: issue.id == id && r.role in issue.roles
  }

  predicate AskedOne(t: Texts, version: int, issues: seq<RawIssue>, x: RawRequest, id: string) {
    exists i | i in issues :: Asks(t, version, x, id, i)
  }

  lemma RequestRoles(t: Texts, raw: RawPlan, p: Plan, x: RawRequest, r: Request)
    requires SpellsLists(t, raw, p) && SpellsRequest(t, raw.version, x, r)
    ensures RolesRequired(p.issues, r) <==> forall id | id in x.issues :: AskedOne(t, raw.version, raw.issues, x, id)
  {
    assert r.issues == Normalized(t, x.issues);
    hide SpellsIssue, SpellsFact, SpellsAnchor, AsksOne, AskedOne, SpellsRequest;
    forall k | 0 <= k < |x.issues|
      ensures AsksOne(p.issues, r, r.issues[k]) <==> AskedOne(t, raw.version, raw.issues, x, x.issues[k])
    {
      OneRole(t, raw.version, raw.issues, p.issues, x, r, x.issues[k]);
    }
    hide SpellsLists;
    RequiredByPosition(p.issues, r);
  }

  lemma RequiredByPosition(issues: seq<Issue>, r: Request)
    ensures RolesRequired(issues, r) <==> forall k | 0 <= k < |r.issues| :: AsksOne(issues, r, r.issues[k])
  {
    assert RolesRequired(issues, r) <==> forall id | id in r.issues :: AsksOne(issues, r, id);
    hide AsksOne;
  }

  lemma OneRole(t: Texts, version: int, raw: seq<RawIssue>, issues: seq<Issue>, x: RawRequest, r: Request, id: string)
    requires SpellsRequest(t, version, x, r)
    requires |issues| == |raw| && forall k | 0 <= k < |raw| :: SpellsIssue(t, version, raw[k], issues[k])
    ensures AsksOne(issues, r, t.normalize(id)) <==> AskedOne(t, version, raw, x, id)
  {
    hide SpellsRequest, SpellsIssue;
    forall k | 0 <= k < |raw|
      ensures issues[k].id == t.normalize(id) && r.role in issues[k].roles <==> Asks(t, version, x, id, raw[k])
    {
      RoleAsked(t, version, x, raw[k], r, issues[k]);
      SameId(t, version, raw[k], issues[k]);
    }
    hide Asks;
    if k :| 0 <= k < |issues| && issues[k].id == t.normalize(id) && r.role in issues[k].roles { assert raw[k] in raw && issues[k] in issues; }
    if k :| 0 <= k < |raw| && Asks(t, version, x, id, raw[k]) { assert issues[k] in issues && raw[k] in raw; }
  }

  lemma SameId(t: Texts, version: int, raw: RawIssue, i: Issue)
    requires SpellsIssue(t, version, raw, i)
    ensures i.id == t.normalize(raw.id) && i.dependsOn == Normalized(t, raw.dependsOn)
  {
  }

  lemma RolesCheck(t: Texts, raw: RawPlan, p: Plan)
    requires SpellsLists(t, raw, p)
    ensures (forall r | r in p.requests :: RolesRequired(p.issues, r)) <==> RolesAsked(t, raw)
  {
    hide RolesRequired, SpellsRequest, SpellsIssue, SpellsFact, SpellsAnchor, AskedOne;
    forall k | 0 <= k < |raw.requests|
      ensures RolesRequired(p.issues, p.requests[k])
              <==> forall id | id in raw.requests[k].issues :: AskedOne(t, raw.version, raw.issues, raw.requests[k], id)
    {
      RequestRoles(t, raw, p, raw.requests[k], p.requests[k]);
    }
    hide SpellsLists;
    assert RolesAsked(t, raw) <==>
      forall r, id | r in raw.requests && id in r.issues :: AskedOne(t, raw.version, raw.issues, r, id) by { AskedMeans(t, raw); }
  }

  lemma AskedMeans(t: Texts, raw: RawPlan)
    ensures RolesAsked(t, raw) <==> forall r, id | r in raw.requests && id in r.issues :: AskedOne(t, raw.version, raw.issues, r, id)
  {
  }

  // ---------------------------------------------------------------- the dependencies

  /** With different identifiers an identifier leads to its issue. */
  lemma LookUp(issues: seq<Issue>, k: nat)
    requires UniqueIssues(issues) && k < |issues|
    ensures var deps := IssueGraph.ById(GraphOf(issues)); issues[k].id in deps && deps[issues[k].id] == issues[k].dependsOn
  {
    var graph := GraphOf(issues);
    var deps := IssueGraph.ById(graph);
    assert graph[k].id == issues[k].id;
    var j :| 0 <= j < |graph| && graph[j] == IssueGraph.Issue(issues[k].id, deps[issues[k].id]);
    hide IssueGraph.ById;
    SamePlace(issues, j, k);
  }

  lemma DependsMeans(t: Texts, version: int, raw: seq<RawIssue>, issues: seq<Issue>, i: nat, j: nat)
    requires |issues| == |raw| && forall k | 0 <= k < |raw| :: SpellsIssue(t, version, raw[k], issues[k])
    requires i < |raw| && j < |raw|
    ensures DependsOn(t, raw, i, j) <==> issues[j].id in issues[i].dependsOn
  {
    SameId(t, version, raw[i], issues[i]);
    SameId(t, version, raw[j], issues[j]);
    hide SpellsIssue;
    var all := Normalized(t, raw[i].dependsOn);
    if n :| 0 <= n < |all| && all[n] == issues[j].id { assert raw[i].dependsOn[n] in raw[i].dependsOn; }
    if d :| d in raw[i].dependsOn && t.normalize(d) == t.normalize(raw[j].id) {
      var n :| 0 <= n < |all| && raw[i].dependsOn[n] == d;
      assert all[n] in all;
    }
  }

  predicate Known(issues: seq<Issue>) {
    forall i, d | 0 <= i < |issues| && d in issues[i].dependsOn :: exists j | 0 <= j < |issues| :: issues[j].id == d
  }

  lemma KnownMeans(t: Texts, version: int, raw: seq<RawIssue>, issues: seq<Issue>)
    requires |issues| == |raw| && forall k | 0 <= k < |raw| :: SpellsIssue(t, version, raw[k], issues[k])
    ensures IssueGraph.AllKnown(GraphOf(issues)) <==> Known(issues)
    ensures Known(issues) <==>
      forall i, d | 0 <= i < |raw| && d in raw[i].dependsOn :: exists j | 0 <= j < |raw| :: t.normalize(d) == t.normalize(raw[j].id)
  {
    KnownInGraph(issues);
    forall k | 0 <= k < |raw| ensures issues[k].id == t.normalize(raw[k].id) && issues[k].dependsOn == Normalized(t, raw[k].dependsOn) {
      SameId(t, version, raw[k], issues[k]);
    }
    hide SpellsIssue;
    forall i, d | 0 <= i < |raw| && d in raw[i].dependsOn ensures t.normalize(d) in issues[i].dependsOn {
      var n :| 0 <= n < |raw[i].dependsOn| && raw[i].dependsOn[n] == d;
      assert issues[i].dependsOn[n] == t.normalize(d);
    }
    forall i, d | 0 <= i < |raw| && d in issues[i].dependsOn ensures exists e | e in raw[i].dependsOn :: t.normalize(e) == d {
      var n :| 0 <= n < |issues[i].dependsOn| && issues[i].dependsOn[n] == d;
      assert raw[i].dependsOn[n] in raw[i].dependsOn;
    }
  }

  lemma {:induction false} KnownInGraph(issues: seq<Issue>)
    ensures IssueGraph.AllKnown(GraphOf(issues)) <==> Known(issues)
  {
    var graph := GraphOf(issues);
    assert forall id :: id in IssueGraph.ById(graph) <==> exists j | 0 <= j < |graph| :: graph[j].id == id;
    hide IssueGraph.ById;
    forall id ensures id in IssueGraph.ById(graph) <==> exists j | 0 <= j < |issues| :: issues[j].id == id {
      if j :| 0 <= j < |graph| && graph[j].id == id { assert issues[j].id == id; }
      if j :| 0 <= j < |issues| && issues[j].id == id { assert graph[j].id == id; }
    }
    if Known(issues) {
      forall i, d | 0 <= i < |graph| && d in graph[i].dependsOn ensures d in IssueGraph.ById(graph) {
        assert d in issues[i].dependsOn;
      }
    }
    if IssueGraph.AllKnown(graph) {
      forall i, d | 0 <= i < |issues| && d in issues[i].dependsOn ensures exists j | 0 <= j < |issues| :: issues[j].id == d {
        assert d in graph[i].dependsOn && d in IssueGraph.ById(graph);
      }
    }
  }

  /** A chain of positions that returns is a cycle of identifiers. */
  lemma ChainIsCycle(t: Texts, version: int, raw: seq<RawIssue>, issues: seq<Issue>, path: seq<nat>)
    requires |issues| == |raw| && (forall k | 0 <= k < |raw| :: SpellsIssue(t, version, raw[k], issues[k])) && UniqueIssues(issues)
    requires Returning(t, raw, path)
    ensures IssueGraph.Cyclic(IssueGraph.ById(GraphOf(issues)))
  {
    hide SpellsIssue, IssueGraph.ById, GraphOf, UniqueIssues, Returning, IssueGraph.IsPath, DependsOn;
    LongChain(t, raw, path);
    forall k | 0 <= k < |path| ensures path[k] < |issues| { InChain(t, raw, path, k); }
    forall k | 0 <= k < |path| ensures IsAt(issues, IdsAt(issues, path)[k], path[k]) { LookUp(issues, path[k]); }
    forall k | 0 <= k < |path| - 1 ensures IdsAt(issues, path)[k + 1] in issues[path[k]].dependsOn {
      ChainStep(t, raw, path, k);
      DependsMeans(t, version, raw, issues, path[k], path[k + 1]);
    }
    PathOfIds(issues, path, IdsAt(issues, path));
    Returns(IssueGraph.ById(GraphOf(issues)), IdsAt(issues, path));
  }

  lemma Returns(deps: IssueGraph.Dependencies, ids: seq<string>)
    requires IssueGraph.IsPath(deps, ids) && |ids| > 1 && ids[0] == ids[|ids| - 1]
    ensures IssueGraph.Cyclic(deps)
  {
    hide IssueGraph.IsPath;
  }

  function IdsAt(issues: seq<Issue>, path: seq<nat>): (ids: seq<string>)
    requires forall k | 0 <= k < |path| :: path[k] < |issues|
    ensures |ids| == |path| && forall k | 0 <= k < |path| :: ids[k] == issues[path[k]].id
  {
    seq(|path|, k requires 0 <= k < |path| => issues[path[k]].id)
  }

  lemma LongChain(t: Texts, raw: seq<RawIssue>, path: seq<nat>)
    requires Returning(t, raw, path)
    ensures |path| > 1 && path[0] == path[|path| - 1]
  {
  }

  lemma ChainStep(t: Texts, raw: seq<RawIssue>, path: seq<nat>, k: nat)
    requires Returning(t, raw, path) && k + 1 < |path|
    ensures DependsOn(t, raw, path[k], path[k + 1])
  {
  }

  ghost predicate IsAt(issues: seq<Issue>, id: string, k: nat) {
    var deps := IssueGraph.ById(GraphOf(issues));
    k < |issues| && id in deps && deps[id] == issues[k].dependsOn
  }

  lemma PathOfIds(issues: seq<Issue>, path: seq<nat>, ids: seq<string>)
    requires 0 < |path| == |ids| && (forall k | 0 <= k < |path| :: IsAt(issues, ids[k], path[k]))
    requires forall k | 0 <= k < |path| - 1 :: path[k] < |issues| && ids[k + 1] in issues[path[k]].dependsOn
    ensures IssueGraph.IsPath(IssueGraph.ById(GraphOf(issues)), ids)
  {
    hide IssueGraph.ById;
    var deps := IssueGraph.ById(GraphOf(issues));
    forall k | 0 <= k < |ids| - 1 ensures ids[k] in deps && ids[k + 1] in deps[ids[k]] {
      assert IsAt(issues, ids[k], path[k]);
    }
    forall k | 0 <= k < |ids| ensures ids[k] in deps {
      assert IsAt(issues, ids[k], path[k]);
    }
  }

  lemma InChain(t: Texts, raw: seq<RawIssue>, path: seq<nat>, k: nat)
    requires Returning(t, raw, path) && k < |path|
    ensures path[k] < |raw|
  {
    if k + 1 < |path| { assert DependsOn(t, raw, path[k], path[k + 1]); } else { assert DependsOn(t, raw, path[k - 1], path[k - 1 + 1]); }
  }

  lemma {:induction false} PlaceOf(issues: seq<Issue>, id: string) returns (k: nat)
    requires id in IssueGraph.ById(GraphOf(issues))
    ensures k < |issues| && issues[k].id == id
  {
    var graph := GraphOf(issues);
    k :| 0 <= k < |graph| && graph[k].id == id;
  }

  lemma {:induction false} Places(issues: seq<Issue>, ids: seq<string>, n: nat) returns (path: seq<nat>)
    requires n <= |ids| && forall k | 0 <= k < |ids| :: ids[k] in IssueGraph.ById(GraphOf(issues))
    ensures |path| == n && forall k | 0 <= k < n :: path[k] < |issues| && issues[path[k]].id == ids[k]
  {
    path := [];
    if n > 0 {
      hide IssueGraph.ById;
      path := Places(issues, ids, n - 1);
      var k := PlaceOf(issues, ids[n - 1]);
      path := path + [k];
    }
  }

  /** A cycle of identifiers is a chain of positions that returns. */
  lemma CycleIsChain(t: Texts, version: int, raw: seq<RawIssue>, issues: seq<Issue>) returns (path: seq<nat>)
    requires |issues| == |raw| && (forall k | 0 <= k < |raw| :: SpellsIssue(t, version, raw[k], issues[k])) && UniqueIssues(issues)
    requires IssueGraph.Cyclic(IssueGraph.ById(GraphOf(issues)))
    ensures Returning(t, raw, path)
  {
    var deps := IssueGraph.ById(GraphOf(issues));
    hide SpellsIssue, IssueGraph.ById;
    var ids :| IssueGraph.IsPath(deps, ids) && |ids| > 1 && ids[0] == ids[|ids| - 1];
    path := Places(issues, ids, |ids|);
    forall k | 0 <= k < |path| - 1 ensures DependsOn(t, raw, path[k], path[k + 1]) {
      LookUp(issues, path[k]);
      assert ids[k + 1] in deps[ids[k]];
      DependsMeans(t, version, raw, issues, path[k], path[k + 1]);
    }
    SamePlace(issues, path[0], path[|path| - 1]);
  }

  lemma SamePlace(issues: seq<Issue>, i: nat, j: nat)
    requires UniqueIssues(issues) && i < |issues| && j < |issues| && issues[i].id == issues[j].id
    ensures i == j
  {
  }

  lemma {:induction false} GraphCheck(t: Texts, version: int, raw: seq<RawIssue>, issues: seq<Issue>)
    requires |issues| == |raw| && (forall k | 0 <= k < |raw| :: SpellsIssue(t, version, raw[k], issues[k])) && UniqueIssues(issues)
    ensures GraphAccepted(issues) <==> DependenciesFit(t, raw)
  {
    hide SpellsIssue, IssueGraph.ById, IssueGraph.AllKnown, IssueGraph.Cyclic, UniqueIssues, Returning;
    KnownMeans(t, version, raw, issues);
    if IssueGraph.Cyclic(IssueGraph.ById(GraphOf(issues))) {
      var path := CycleIsChain(t, version, raw, issues);
    }
    if path :| Returning(t, raw, path) {
      ChainIsCycle(t, version, raw, issues, path);
    }
    if !IssueGraph.NoSelfDependency(GraphOf(issues)) {
      var i :| 0 <= i < |issues| && issues[i].id in issues[i].dependsOn;
      DependsMeans(t, version, raw, issues, i, i);
      SelfIsChain(t, raw, i);
    }
  }

  lemma SelfIsChain(t: Texts, raw: seq<RawIssue>, i: nat)
    requires DependsOn(t, raw, i, i)
    ensures Returning(t, raw, [i, i])
  {
  }

  // ---------------------------------------------------------------- the decoder

  lemma CoherentMeans(t: Texts, raw: RawPlan, p: Plan)
    requires SpellsLists(t, raw, p) && (forall r | r in raw.requests :: r.kind.Some?)
    ensures Coherent(t, p) <==>
      && WithinBounds(raw) && IdentifiersDiffer(t, raw) && DependenciesFit(t, raw.issues) && RolesAsked(t, raw)
      && AnchorsFit(t, p.question, raw.anchors) && NumbersFit(t, p.question, raw)
  {
    hide SpellsFact, SpellsIssue, SpellsAnchor, SpellsRequest, UniqueFacts, UniqueRequests, GraphAccepted, RolesRequired, AnchorsGrounded,
      CitationsKept, NumbersKept, DependenciesFit, RolesAsked, AnchorsFit, NumbersFit, UniqueIssues;
    FactsDiffer(t, raw, p);
    RequestsDiffer(t, raw, p);
    if UniqueIssues(p.issues) { GraphCheck(t, raw.version, raw.issues, p.issues); }
    RolesCheck(t, raw, p);
    AnchorsCheck(t, p.question, raw.anchors, p.anchors);
    NumbersCheck(t, raw, p);
  }

  /** A document is decoded exactly when it fits the question field by field, and the plan then says
      what the document says. */
  lemma DecodedMeans(t: Texts, raw: RawPlan, expected: string)
    ensures Decoded(t, raw, expected).Some? <==> Accepts(t, raw, expected)
    ensures Decoded(t, raw, expected).Some? ==> Spells(t, raw, expected, Decoded(t, raw, expected).value)
  {
    hide Shape, Coherent, HeaderFits, SpellsLists, SpellsContext, WithinBounds, IdentifiersDiffer, DependenciesFit, RolesAsked, AnchorsFit,
      NumbersFit, FactFits, IssueFits, AnchorFits, ProvenanceFits;
    ShapeMeans(t, raw, expected);
    if Shape(t, raw, expected).Some? {
      forall r | r in raw.requests ensures r.kind.Some? { assert RequestFits(t, raw.version, r); }
      CoherentMeans(t, raw, Shape(t, raw, expected).value);
    }
  }

  /** Shape first, then the checks across the fields in the order of the decoder. */
  method DecodeQuestionPlan(t: Texts, raw: RawPlan, expected: string) returns (plan: Option<Plan>)
    ensures plan.Some? <==> Accepts(t, raw, expected)
    ensures plan.Some? ==> Spells(t, raw, expected, plan.value)
    ensures plan == Decoded(t, raw, expected)
  {
    DecodedMeans(t, raw, expected);
    hide Accepts, Spells;
    hide Shape, UniqueFacts, UniqueIssues, UniqueRequests, RolesRequired, AnchorsGrounded, CitationsKept, NumbersKept;
    plan := Shape(t, raw, expected);
    if plan.None? { return; }
    var p := plan.value;
    if p.issues == [] || p.requests == [] { return None; }
    if |p.issues| > MAX_ISSUES || |p.anchors| > MAX_LEGAL_ANCHORS || |p.requests| > MAX_SEARCH_REQUESTS { return None; }
    if !UniqueFacts(p.facts, p.assumptions) || !UniqueIssues(p.issues) { return None; }
    var verdict, rank := IssueGraph.ValidateIssueGraph(GraphOf(p.issues));
    if !verdict.Accepted? { return None; }
    if exists request | request in p.requests :: !RolesRequired(p.issues, request) { return None; }
    if !UniqueRequests(p.requests) { return None; }
    if !AnchorsGrounded(t, p.question, p.anchors) || !CitationsKept(t, p.question, p.anchors) || !NumbersKept(t, p) { return None; }
  }
}
