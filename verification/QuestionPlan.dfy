/** Question plans: decoding with its cross-field checks, encoding, and user expansions.

    A raw document is JSON whose fields have the right types; a literal outside its allowed set is
    absent, as is a missing field. */
module QuestionPlan {
  import opened Options
  import IssueGraph

  datatype Polarity = Positive | Negative
  datatype Source = User | Planner
  datatype Origin = FromDocument | FromPlanner
  datatype Role = SupportingFact | RuleRole
  datatype Kind = Phrase | LegalAnchorKind | ConceptRelation | Counterfactual

  // ---------------------------------------------------------------- raw documents

  datatype RawFact = RawFact(id: string, text: string, polarity: Option<Polarity>)
  datatype RawIssue = RawIssue(id: string, question: string, dependsOn: seq<string>, roles: Option<seq<Option<Role>>>,
                               facets: Option<seq<string>>)
  datatype RawAnchor = RawAnchor(text: string, source: Option<Source>)
  datatype RawProvenance = RawProvenance(text: string, source: Option<Origin>)
  datatype RawRequest = RawRequest(id: string, issues: seq<string>, text: string, kind: Option<Kind>, source: Option<Source>,
                                   role: Option<Option<Role>>)

  datatype RawPlan = RawPlan(formatMatches: bool, version: int, question: string, facts: seq<RawFact>, assumptions: seq<RawFact>,
                             issues: seq<RawIssue>, anchors: seq<RawAnchor>, requests: seq<RawRequest>, rawQuestion: Option<string>,
                             normalizedQuestion: Option<string>, documentContext: Option<seq<RawProvenance>>,
                             plannerInference: Option<seq<RawProvenance>>)

  // ---------------------------------------------------------------- plans

  datatype Fact = Fact(id: string, text: string, polarity: Polarity)
  datatype Issue = Issue(id: string, question: string, dependsOn: seq<string>, roles: seq<Role>, facets: seq<string>)
  datatype Anchor = Anchor(text: string, source: Source)
  datatype Provenance = Provenance(text: string, source: Origin)
  datatype Request = Request(id: string, issues: seq<string>, text: string, kind: Kind, source: Source, role: Role)

  datatype Plan = Plan(question: string, facts: seq<Fact>, assumptions: seq<Fact>, issues: seq<Issue>, anchors: seq<Anchor>,
                       requests: seq<Request>, rawQuestion: Option<string>, normalizedQuestion: Option<string>,
                       documentContext: seq<Provenance>, plannerInference: seq<Provenance>, version: int)

  /** The text functions of the contract: whitespace and Unicode normalization, the numbers and legal
      citations of a text, and the substring test. */
  datatype Texts = Texts(normalize: string -> string, compose: string -> string, numbers: string -> set<string>,
                         citations: string -> set<string>, citationKey: string -> string, contains: (string, string) -> bool)

  /** Normalization is idempotent and absorbs composition. */
  ghost predicate Proper(t: Texts) {
    && (forall s :: t.normalize(t.normalize(s)) == t.normalize(s))
    && (forall s :: t.compose(t.compose(s)) == t.compose(s))
    && (forall s :: t.normalize(t.compose(s)) == t.normalize(s))
  }

  const MAX_ISSUES := 8
  const MAX_SEARCH_REQUESTS := 24
  const MAX_LEGAL_ANCHORS := 20

  // ---------------------------------------------------------------- decoding one entity

  function Text(t: Texts, s: string): Option<string> {
    if t.normalize(s) == "" then None else Some(t.normalize(s))
  }

  function All<A, B>(f: A -> Option<B>, values: seq<A>): (all: Option<seq<B>>)
    ensures all.Some? ==> |all.value| == |values| && forall i | 0 <= i < |values| :: f(values[i]) == Some(all.value[i])
    ensures all.None? ==> exists i | 0 <= i < |values| :: f(values[i]).None?
  {
    if values == [] then Some([])
    else
      var first, rest := f(values[0]), All(f, values[1..]);
      if first.None? || rest.None? then None else Some([first.value] + rest.value)
  }

  predicate Distinct<T(==)>(values: seq<T>) { forall i, j | 0 <= i < j < |values| :: values[i] != values[j] }

  function DecodeFact(t: Texts, raw: RawFact): Option<Fact> {
    var id, text := Text(t, raw.id), Text(t, raw.text);
    if id.None? || text.None? || raw.polarity.None? then None else Some(Fact(id.value, text.value, raw.polarity.value))
  }

  /** Version 1 knows neither roles nor facets, version 2 no facets; unknown fields are refused. */
  function DecodeRoles(version: int, raw: RawIssue): Option<seq<Role>> {
    if version == 1 then (if raw.roles.Some? then None else Some([RuleRole]))
    else if raw.roles.None? || raw.roles.value == [] then None
    else
      var roles := All((role: Option<Role>) => role, raw.roles.value);
      if roles.None? || !Distinct(roles.value) then None else roles
  }

  function DecodeFacets(t: Texts, version: int, raw: RawIssue): Option<seq<string>> {
    if version < 3 then (if raw.facets.Some? then None else Some([]))
    else if raw.facets.None? || raw.facets.value == [] then None
    else
      var facets := All((facet: string) => Text(t, facet), raw.facets.value);
      if facets.None? || !Distinct(facets.value) then None else facets
  }

  function DecodeIssue(t: Texts, version: int, raw: RawIssue): Option<Issue> {
    var id, question, dependsOn := Text(t, raw.id), Text(t, raw.question), All((d: string) => Text(t, d), raw.dependsOn);
    var roles, facets := DecodeRoles(version, raw), DecodeFacets(t, version, raw);
    if id.None? || question.None? || dependsOn.None? || !Distinct(dependsOn.value) || roles.None? || facets.None? then None
    else Some(Issue(id.value, question.value, dependsOn.value, roles.value, facets.value))
  }

  function DecodeAnchor(t: Texts, raw: RawAnchor): Option<Anchor> {
    var text := Text(t, raw.text);
    if text.None? || raw.source.None? then None else Some(Anchor(text.value, raw.source.value))
  }

  function DecodeProvenance(t: Texts, origin: Origin, raw: RawProvenance): Option<Provenance> {
    var text := Text(t, raw.text);
    if text.None? || raw.source != Some(origin) then None else Some(Provenance(text.value, origin))
  }

  function DecodeProvenances(t: Texts, origin: Origin, raw: Option<seq<RawProvenance>>): Option<seq<Provenance>> {
    if raw.None? then Some([]) else All((p: RawProvenance) => DecodeProvenance(t, origin, p), raw.value)
  }

  function DecodeRequest(t: Texts, version: int, raw: RawRequest): Option<Request> {
    var id, text, issues := Text(t, raw.id), Text(t, raw.text), All((i: string) => Text(t, i), raw.issues);
    var role := if version == 1 then (if raw.role.Some? then None else Some(RuleRole)) else if raw.role.Some? then raw.role.value else None;
    if id.None? || text.None? || issues.None? || issues.value == [] || !Distinct(issues.value) || raw.kind.None? || raw.source.None? || role.None?
    then None
    else Some(Request(id.value, issues.value, text.value, raw.kind.value, raw.source.value, role.value))
  }

  function DecodeIssues(t: Texts, version: int, raw: seq<RawIssue>): Option<seq<Issue>> {
    All((i: RawIssue) => DecodeIssue(t, version, i), raw)
  }

  function DecodeRequests(t: Texts, version: int, raw: seq<RawRequest>): Option<seq<Request>> {
    All((r: RawRequest) => DecodeRequest(t, version, r), raw)
  }

  // ---------------------------------------------------------------- cross-field checks

  function GraphOf(issues: seq<Issue>): (graph: seq<IssueGraph.Issue>)
    ensures |graph| == |issues| && forall i | 0 <= i < |graph| :: graph[i] == IssueGraph.Issue(issues[i].id, issues[i].dependsOn)
  {
    seq(|issues|, i requires 0 <= i < |issues| => IssueGraph.Issue(issues[i].id, issues[i].dependsOn))
  }

  ghost predicate GraphAccepted(issues: seq<Issue>) {
    var graph := GraphOf(issues);
    IssueGraph.NoSelfDependency(graph) && IssueGraph.AllKnown(graph) && !IssueGraph.Cyclic(IssueGraph.ById(graph))
  }

  predicate UniqueFacts(facts: seq<Fact>, assumptions: seq<Fact>) {
    && (forall i, j | 0 <= i < j < |facts| :: facts[i].id != facts[j].id)
    && (forall i, j | 0 <= i < j < |assumptions| :: assumptions[i].id != assumptions[j].id)
    && (forall f, a | f in facts && a in assumptions :: f.id != a.id)
  }

  predicate UniqueIssues(issues: seq<Issue>) { forall i, j | 0 <= i < j < |issues| :: issues[i].id != issues[j].id }

  predicate UniqueRequests(requests: seq<Request>) {
    && (forall i, j | 0 <= i < j < |requests| :: requests[i].id != requests[j].id)
    && (forall i, j | 0 <= i < j < |requests| :: requests[i].text != requests[j].text || requests[i].kind != requests[j].kind)
  }

  /** Every issue a request names exists and requires its role. */
  predicate RolesRequired(issues: seq<Issue>, request: Request) {
    forall id | id in request.issues :: exists issue | issue in issues :: issue.id == id && request.role in issue.roles
  }

  predicate AnchorsGrounded(t: Texts, question: string, anchors: seq<Anchor>) {
    forall a | a in anchors && a.source.User? :: t.contains(question, a.text)
  }

  predicate CitationsKept(t: Texts, question: string, anchors: seq<Anchor>) {
    forall citation | citation in t.citations(question) ::
      exists a | a in anchors :: a.source.User? && t.contains(t.citationKey(a.text), citation)
  }

  predicate NumberKept(t: Texts, p: Plan, number: string) {
    || (exists f | f in p.facts :: number in t.numbers(f.text))
    || (exists f | f in p.assumptions :: number in t.numbers(f.text))
    || (exists i | i in p.issues :: number in t.numbers(i.question))
    || (exists a | a in p.anchors :: number in t.numbers(a.text))
    || (exists r | r in p.requests :: number in t.numbers(r.text))
  }

  /** Every number of the question appears in some text of the plan. */
  predicate NumbersKept(t: Texts, p: Plan) {
    forall number | number in t.numbers(p.question) :: NumberKept(t, p, number)
  }

  /** What decoding checks across the fields of a plan. */
  ghost predicate Coherent(t: Texts, p: Plan) {
    && 0 < |p.issues| <= MAX_ISSUES && 0 < |p.requests| <= MAX_SEARCH_REQUESTS && |p.anchors| <= MAX_LEGAL_ANCHORS
    && UniqueFacts(p.facts, p.assumptions) && UniqueIssues(p.issues) && GraphAccepted(p.issues)
    && UniqueRequests(p.requests)
    && (forall request | request in p.requests :: RolesRequired(p.issues, request))
    && AnchorsGrounded(t, p.question, p.anchors) && CitationsKept(t, p.question, p.anchors) && NumbersKept(t, p)
  }

  // ---------------------------------------------------------------- decoding a plan

  predicate QuestionsMatch(t: Texts, raw: RawPlan, expected: string) {
    && t.normalize(expected) != "" && t.normalize(raw.question) == t.normalize(expected)
    && (raw.rawQuestion.Some? ==> t.normalize(raw.rawQuestion.value) == t.normalize(expected))
    && (raw.normalizedQuestion.Some? ==> t.normalize(raw.normalizedQuestion.value) == t.normalize(expected))
  }

  /** The plan a document spells out, before the cross-field checks. */
  function Shape(t: Texts, raw: RawPlan, expected: string): Option<Plan> {
    var facts, assumptions := All((f: RawFact) => DecodeFact(t, f), raw.facts), All((f: RawFact) => DecodeFact(t, f), raw.assumptions);
    var issues := DecodeIssues(t, raw.version, raw.issues);
    var anchors := All((a: RawAnchor) => DecodeAnchor(t, a), raw.anchors);
    var requests := DecodeRequests(t, raw.version, raw.requests);
    var context := DecodeProvenances(t, FromDocument, raw.documentContext);
    var inference := DecodeProvenances(t, FromPlanner, raw.plannerInference);
    if !raw.formatMatches || raw.version !in {1, 2, 3} || !QuestionsMatch(t, raw, expected) then None
    else if facts.None? || assumptions.None? || issues.None? || anchors.None? || requests.None? || context.None? || inference.None? then None
    else
      Some(Plan(t.normalize(expected), facts.value, assumptions.value, issues.value, anchors.value, requests.value,
                if raw.rawQuestion.Some? then Some(t.compose(raw.rawQuestion.value)) else None,
                if raw.normalizedQuestion.Some? then Some(t.normalize(raw.normalizedQuestion.value)) else None,
                context.value, inference.value, if raw.version == 1 then 2 else raw.version))
  }

  ghost function Decoded(t: Texts, raw: RawPlan, expected: string): Option<Plan> {
    var shape := Shape(t, raw, expected);
    if shape.Some? && Coherent(t, shape.value) then shape else None
  }

  // ---------------------------------------------------------------- encoding

  function Map<A, B>(f: A -> B, values: seq<A>): (mapped: seq<B>)
    ensures |mapped| == |values| && forall i | 0 <= i < |values| :: mapped[i] == f(values[i])
  {
    seq(|values|, i requires 0 <= i < |values| => f(values[i]))
  }

  function EncodeFact(f: Fact): RawFact { RawFact(f.id, f.text, Some(f.polarity)) }

  function EncodeIssue(version: int, i: Issue): RawIssue {
    RawIssue(i.id, i.question, i.dependsOn, Some(Map((r: Role) => Some(r), i.roles)), if version == 3 then Some(i.facets) else None)
  }

  function EncodeAnchor(a: Anchor): RawAnchor { RawAnchor(a.text, Some(a.source)) }

  function EncodeProvenance(p: Provenance): RawProvenance { RawProvenance(p.text, Some(p.source)) }

  function EncodeRequest(r: Request): RawRequest { RawRequest(r.id, r.issues, r.text, Some(r.kind), Some(r.source), Some(Some(r.role))) }

  /** Empty provenance is left out. */
  function QuestionPlanDocument(p: Plan): RawPlan {
    RawPlan(true, p.version, p.question, Map(EncodeFact, p.facts), Map(EncodeFact, p.assumptions),
            Map((i: Issue) => EncodeIssue(p.version, i), p.issues), Map(EncodeAnchor, p.anchors), Map(EncodeRequest, p.requests),
            p.rawQuestion, p.normalizedQuestion,
            if p.documentContext == [] then None else Some(Map(EncodeProvenance, p.documentContext)),
            if p.plannerInference == [] then None else Some(Map(EncodeProvenance, p.plannerInference)))
  }
}
