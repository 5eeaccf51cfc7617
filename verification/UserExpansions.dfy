/** Binding a user's own search texts to the primary request of a plan. */
module UserExpansions {
  import opened Options
  import opened QuestionPlan
  import opened QuestionPlanLaws

  datatype Expanded = Effective(plan: Plan) | Refused

  /** The first request for a rule, or else the first request. */
  function Primary(requests: seq<Request>): (primary: Request)
    requires requests != []
    ensures exists i | 0 <= i < |requests| ::
      && primary == requests[i]
      && (if primary.role == RuleRole then forall j | 0 <= j < i :: requests[j].role != RuleRole
          else i == 0 && forall r | r in requests :: r.role != RuleRole)
  {
    var rules := FirstRule(requests, 0);
    if rules.Some? then requests[rules.value] else requests[0]
  }

  function FirstRule(requests: seq<Request>, from: nat): (first: Option<nat>)
    requires from <= |requests|
    ensures first.Some? ==> from <= first.value < |requests| && requests[first.value].role == RuleRole
    ensures first.Some? ==> forall j | from <= j < first.value :: requests[j].role != RuleRole
    ensures first.None? ==> forall j | from <= j < |requests| :: requests[j].role != RuleRole
    decreases |requests| - from
  {
    if from == |requests| then None else if requests[from].role.RuleRole? then Some(from) else FirstRule(requests, from + 1)
  }

  predicate HasKey(requests: seq<Request>, text: string, kind: Kind) {
    exists r | r in requests :: r.text == text && r.kind == kind
  }

  predicate HasId(requests: seq<Request>, id: string) { exists r | r in requests :: r.id == id }

  /** An added request carries the user's text and everything else of the primary request. */
  predicate AddedFor(primary: Request, r: Request) {
    r.issues == primary.issues && r.kind == primary.kind && r.role == primary.role && r.source.User?
  }

  /** The user's texts beside the requests of a plan; `idOf` builds the identifier of an added
      request from its position and a digest of its text. */
  datatype Expansions = Expansions(t: Texts, primary: Request, requests: seq<Request>, texts: seq<string>, idOf: (nat, string) -> string) {
    function Text(i: nat): string
      requires i < |texts|
    {
      t.normalize(texts[i])
    }

    /** No request and no earlier text covers text `i`. */
    predicate IsNew(i: nat)
      requires i < |texts|
    {
      !HasKey(requests, Text(i), primary.kind) && forall j | 0 <= j < i :: Text(j) != Text(i)
    }

    function Added(i: nat): Request
      requires i < |texts|
    {
      Request(idOf(i + 1, Text(i)), primary.issues, Text(i), primary.kind, User, primary.role)
    }

    /** The identifier built for a new text is taken. */
    predicate Collides(i: nat)
      requires i < |texts|
    {
      IsNew(i) && (HasId(requests, Added(i).id) || exists j | 0 <= j < i :: IsNew(j) && Added(j).id == Added(i).id)
    }

    /** The requests added for the new ones among the first `n` texts. */
    function AddedUpTo(n: nat): seq<Request>
      requires n <= |texts|
    {
      if n == 0 then [] else AddedUpTo(n - 1) + if IsNew(n - 1) then [Added(n - 1)] else []
    }

    predicate Clean(n: nat)
      requires n <= |texts|
    {
      forall i | 0 <= i < n :: Text(i) != "" && !Collides(i)
    }

    ghost predicate Proper() {
      && QuestionPlan.Proper(t) && (forall n: nat, s :: NormalText(t, idOf(n, s)))
      && UniqueRequests(requests) && NormalRequest(t, primary)
    }
  }

  lemma {:induction false} AddedMembers(e: Expansions, n: nat)
    requires n <= |e.texts|
    ensures forall r :: r in e.AddedUpTo(n) <==> exists i | 0 <= i < n :: e.IsNew(i) && r == e.Added(i)
  {
    hide Expansions.IsNew, Expansions.Added;
    if n > 0 { AddedMembers(e, n - 1); }
  }

  /** The requests added are those for the texts at `at`, in their order: exactly the texts that no
      request of the plan has under the primary kind and that no earlier text repeats. */
  ghost predicate AddedAt(e: Expansions, n: nat, added: seq<Request>, at: seq<nat>)
    requires n <= |e.texts|
  {
    && |at| == |added|
    && (forall k | 0 <= k < |at| :: at[k] < n && added[k] == Request(e.idOf(at[k] + 1, e.t.normalize(e.texts[at[k]])), e.primary.issues,
                                                                    e.t.normalize(e.texts[at[k]]), e.primary.kind, User, e.primary.role))
    && (forall k, l | 0 <= k < l < |at| :: at[k] < at[l])
    && (forall i | 0 <= i < n :: i in at <==> Uncovered(e, i))
  }

  ghost predicate Uncovered(e: Expansions, i: nat)
    requires i < |e.texts|
  {
    && (forall r | r in e.requests :: r.text != e.t.normalize(e.texts[i]) || r.kind != e.primary.kind)
    && (forall j | 0 <= j < i :: e.t.normalize(e.texts[j]) != e.t.normalize(e.texts[i]))
  }

  lemma {:induction false} AdditionsInOrder(e: Expansions, n: nat) returns (at: seq<nat>)
    requires n <= |e.texts|
    ensures AddedAt(e, n, e.AddedUpTo(n), at)
  {
    at := [];
    if n > 0 {
      var before := AdditionsInOrder(e, n - 1);
      at := before + if e.IsNew(n - 1) then [n - 1] else [];
      OneMoreAdded(e, n - 1);
      hide Expansions.AddedUpTo, AddedAt, Expansions.IsNew;
      AddedMore(e, n - 1, e.AddedUpTo(n - 1), before);
    }
  }

  lemma AddedMore(e: Expansions, n: nat, added: seq<Request>, at: seq<nat>)
    requires n < |e.texts| && AddedAt(e, n, added, at)
    ensures AddedAt(e, n + 1, added + if e.IsNew(n) then [e.Added(n)] else [], at + if e.IsNew(n) then [n] else [])
  {
    assert forall j | 0 <= j < |e.texts| :: e.Text(j) == e.t.normalize(e.texts[j]);
    assert e.IsNew(n) <==> Uncovered(e, n);
    hide Uncovered, Expansions.IsNew;
    var more := at + if e.IsNew(n) then [n] else [];
    assert n !in at;
    assert forall i :: i in more <==> i in at || (i == n && e.IsNew(n));
  }

  /** A text is covered by what was added before exactly when it is not new. */
  lemma {:induction false} CoveredBefore(e: Expansions, n: nat, text: string)
    requires n <= |e.texts|
    ensures HasKey(e.AddedUpTo(n) + e.requests, text, e.primary.kind) <==>
            HasKey(e.requests, text, e.primary.kind) || exists j | 0 <= j < n :: e.Text(j) == text
    decreases n
  {
    AddedMembers(e, n);
    var all := e.AddedUpTo(n) + e.requests;
    if HasKey(e.requests, text, e.primary.kind) {
      var r :| r in e.requests && r.text == text && r.kind == e.primary.kind;
      assert r in all;
    } else if exists j | 0 <= j < n :: e.Text(j) == text {
      var i := FirstWith(e, n, text);
      assert e.Added(i) in all;
    }
  }

  lemma {:induction false} FirstWith(e: Expansions, n: nat, text: string) returns (i: nat)
    requires n <= |e.texts| && exists j | 0 <= j < n :: e.Text(j) == text
    requires !HasKey(e.requests, text, e.primary.kind)
    ensures i < n && e.Text(i) == text && e.IsNew(i)
  {
    if exists j | 0 <= j < n - 1 :: e.Text(j) == text {
      i := FirstWith(e, n - 1, text);
    } else {
      i := n - 1;
    }
  }

  lemma {:induction false} TakenBefore(e: Expansions, n: nat, id: string)
    requires n <= |e.texts|
    ensures HasId(e.AddedUpTo(n) + e.requests, id) <==>
            HasId(e.requests, id) || exists j | 0 <= j < n :: e.IsNew(j) && e.Added(j).id == id
  {
    AddedMembers(e, n);
    hide Expansions.IsNew;
    var all := e.AddedUpTo(n) + e.requests;
    assert forall r :: r in all <==> r in e.AddedUpTo(n) || r in e.requests;
  }

  /** The identifier built for text `i` is that of a request or of an addition before it. */
  ghost predicate TakenId(e: Expansions, i: nat)
    requires i < |e.texts|
  {
    var id := e.idOf(i + 1, e.t.normalize(e.texts[i]));
    (exists r | r in e.requests :: r.id == id) || exists j | 0 <= j < i :: Uncovered(e, j) && e.idOf(j + 1, e.t.normalize(e.texts[j])) == id
  }

  /** Nothing stands in the way exactly when no text is blank and no addition's identifier is taken. */
  lemma CleanMeans(e: Expansions, n: nat)
    requires n <= |e.texts|
    ensures e.Clean(n) <==> forall i | 0 <= i < n :: e.t.normalize(e.texts[i]) != "" && (Uncovered(e, i) ==> !TakenId(e, i))
  {
    forall i | 0 <= i < |e.texts| ensures e.IsNew(i) <==> Uncovered(e, i) {
      assert forall j | 0 <= j < |e.texts| :: e.Text(j) == e.t.normalize(e.texts[j]);
    }
    hide Expansions.IsNew, Uncovered;
    forall i | 0 <= i < n
      ensures e.Text(i) == e.t.normalize(e.texts[i]) && (e.Collides(i) <==> Uncovered(e, i) && TakenId(e, i))
    {
      assert forall j | 0 <= j < i :: e.Added(j).id == e.idOf(j + 1, e.t.normalize(e.texts[j]));
    }
  }

  /** Refuses exactly when a text is empty, an identifier is taken, or the plan grows too long;
      otherwise one request is added for each text that nothing covered before. */
  method PlanWithUserExpansions(t: Texts, plan: Plan, expansions: seq<string>, idOf: (nat, string) -> string) returns (result: Expanded)
    requires Proper(t) && (forall n: nat, s :: NormalText(t, idOf(n, s)))
    requires Normal(t, plan) && Coherent(t, plan)
    ensures var e := Expansions(t, Primary(plan.requests), plan.requests, expansions, idOf);
            var added := e.AddedUpTo(|expansions|);
            && (result.Effective? <==> e.Clean(|expansions|) && |plan.requests| + |added| <= 24)
            && (e.Clean(|expansions|) <==>
                  forall i | 0 <= i < |expansions| :: t.normalize(expansions[i]) != "" && (Uncovered(e, i) ==> !TakenId(e, i)))
            && (result.Effective? ==> result.plan == plan.(requests := added + plan.requests))
  {
    hide Primary, HasKey, HasId, UniqueRequests, Normal, NormalRequest, NormalText, Proper, RolesRequired, Coherent;
    WithinBound(t, plan);
    CleanMeans(Expansions(t, Primary(plan.requests), plan.requests, expansions, idOf), |expansions|);
    if expansions == [] {
      assert plan == plan.(requests := [] + plan.requests);
      return Effective(plan);
    }
    var primary := Primary(plan.requests);
    var ok, additions := AddAll(t, primary, plan.requests, expansions, idOf);
    if !ok { return Refused; }
    if additions == [] {
      assert additions + plan.requests == plan.requests;
      assert plan == plan.(requests := additions + plan.requests);
      return Effective(plan);
    }
    if |plan.requests| + |additions| > MAX_SEARCH_REQUESTS { return Refused; }
    result := Effective(plan.(requests := additions + plan.requests));
  }

  lemma WithinBound(t: Texts, plan: Plan)
    requires Coherent(t, plan)
    ensures 0 < |plan.requests| <= MAX_SEARCH_REQUESTS
  {
  }

  /** The requests added for the expansions that no request covers yet. */
  method AddAll(t: Texts, primary: Request, requests: seq<Request>, expansions: seq<string>, idOf: (nat, string) -> string)
      returns (ok: bool, additions: seq<Request>)
    ensures var e := Expansions(t, primary, requests, expansions, idOf);
            && (ok <==> e.Clean(|expansions|))
            && (ok ==> additions == e.AddedUpTo(|expansions|))
  {
    ghost var e := Expansions(t, primary, requests, expansions, idOf);
    hide HasKey, HasId, Expansions.IsNew, Expansions.AddedUpTo;
    ok, additions := true, [];
    NothingAdded(e);
    for index := 0 to |expansions|
      invariant ok && e.Clean(index) && additions == e.AddedUpTo(index)
    {
      var text := Text(t, expansions[index]);
      if text.None? {
        assert e.Text(index) == "";
        return false, additions;
      }
      CoveredBefore(e, index, text.value);
      TakenBefore(e, index, idOf(index + 1, text.value));
      NewMeans(e, index);
      OneMoreAdded(e, index);
      if !HasKey(additions + requests, text.value, primary.kind) {
        var id := idOf(index + 1, text.value);
        if HasId(additions + requests, id) {
          assert e.Collides(index);
          return false, additions;
        }
        additions := additions + [Request(id, primary.issues, text.value, primary.kind, User, primary.role)];
      }
    }
  }

  lemma {:induction false} NothingAdded(e: Expansions)
    ensures e.AddedUpTo(0) == []
  {
  }

  lemma NewMeans(e: Expansions, i: nat)
    requires i < |e.texts|
    ensures e.IsNew(i) <==> !(HasKey(e.requests, e.Text(i), e.primary.kind) || exists j | 0 <= j < i :: e.Text(j) == e.Text(i))
  {
    hide HasKey;
  }

  lemma OneMoreAdded(e: Expansions, n: nat)
    requires n < |e.texts|
    ensures e.AddedUpTo(n + 1) == e.AddedUpTo(n) + if e.IsNew(n) then [e.Added(n)] else []
  {
  }

  // ---------------------------------------------------------------- what an effective plan is like

  /** Every text is covered once the additions are made, each addition is for the primary request,
      and identifiers and (text, kind) pairs stay unique. */
  lemma {:induction false} AdditionsAreUnique(e: Expansions, n: nat)
    requires n <= |e.texts| && e.Proper() && e.Clean(n)
    ensures UniqueRequests(e.AddedUpTo(n) + e.requests)
    ensures forall r | r in e.AddedUpTo(n) :: AddedFor(e.primary, r) && NormalRequest(e.t, r)
  {
    hide HasKey, HasId, UniqueRequests, NormalRequest, NormalText, QuestionPlan.Proper, Expansions.IsNew, Expansions.AddedUpTo;
    NothingAdded(e);
    if n == 0 {
      assert [] + e.requests == e.requests;
    } else {
      AdditionsAreUnique(e, n - 1);
      OneMoreAdded(e, n - 1);
      if e.IsNew(n - 1) {
        CoveredBefore(e, n - 1, e.Text(n - 1));
        TakenBefore(e, n - 1, e.Added(n - 1).id);
        NewMeans(e, n - 1);
        assert !e.Collides(n - 1);
        AddedIsNormal(e.t, e.primary, e.Added(n - 1), e.texts[n - 1]);
        InsertUnique(e.AddedUpTo(n - 1), e.Added(n - 1), e.requests);
      } else {
        assert e.AddedUpTo(n) == e.AddedUpTo(n - 1);
      }
    }
  }

  /** The effective plan is a plan again: in normal form, coherent, and covering every text. */
  lemma {:induction false} EffectiveMeans(t: Texts, plan: Plan, expansions: seq<string>, idOf: (nat, string) -> string)
    requires Proper(t) && (forall n: nat, s :: NormalText(t, idOf(n, s))) && Normal(t, plan) && Coherent(t, plan)
    requires var e := Expansions(t, Primary(plan.requests), plan.requests, expansions, idOf);
             e.Clean(|expansions|) && |plan.requests| + |e.AddedUpTo(|expansions|)| <= MAX_SEARCH_REQUESTS
    ensures var primary := Primary(plan.requests);
            var added := Expansions(t, primary, plan.requests, expansions, idOf).AddedUpTo(|expansions|);
            var effective := plan.(requests := added + plan.requests);
            && Normal(t, effective) && Coherent(t, effective)
            && (forall r | r in added :: AddedFor(primary, r))
            && (forall text | text in expansions :: HasKey(effective.requests, t.normalize(text), primary.kind))
            && Decoded(t, QuestionPlanDocument(effective), effective.question) == Some(effective)
  {
    var primary := Primary(plan.requests);
    var e := Expansions(t, primary, plan.requests, expansions, idOf);
    PrimaryFacts(t, plan, primary);
    hide Primary, HasKey, UniqueRequests, Normal, NormalRequest, NormalText, Proper, Coherent, RolesRequired, Expansions.AddedUpTo,
      Expansions.Clean, QuestionPlanDocument, Decoded;
    AdditionsAreUnique(e, |expansions|);
    ExpandedIsAcceptable(t, plan, primary, e.AddedUpTo(|expansions|));
    EffectivePlanRoundTrip(t, plan.(requests := e.AddedUpTo(|expansions|) + plan.requests));
    forall text | text in expansions
      ensures HasKey(e.AddedUpTo(|expansions|) + plan.requests, t.normalize(text), primary.kind)
    {
      CoveredBefore(e, |expansions|, t.normalize(text));
      var i :| 0 <= i < |expansions| && expansions[i] == text;
      assert e.Text(i) == t.normalize(text);
    }
  }

  lemma PrimaryFacts(t: Texts, plan: Plan, primary: Request)
    requires Normal(t, plan) && Coherent(t, plan) && primary in plan.requests
    ensures UniqueRequests(plan.requests) && NormalRequest(t, primary) && RolesRequired(plan.issues, primary)
  {
    hide NormalRequest, UniqueRequests;
  }

  lemma AddedIsNormal(t: Texts, primary: Request, request: Request, text: string)
    requires Proper(t) && NormalRequest(t, primary) && AddedFor(primary, request) && NormalText(t, request.id)
    requires Text(t, text) == Some(request.text)
    ensures NormalRequest(t, request)
  {
    TextIsNormal(t, text);
  }

  lemma NotTaken(requests: seq<Request>, x: Request)
    requires !HasId(requests, x.id) && !HasKey(requests, x.text, x.kind)
    ensures forall r | r in requests :: r.id != x.id && (r.text != x.text || r.kind != x.kind)
  {
  }

  lemma InsertUnique(a: seq<Request>, x: Request, b: seq<Request>)
    requires UniqueRequests(a + b) && !HasId(a + b, x.id) && !HasKey(a + b, x.text, x.kind)
    ensures UniqueRequests(a + [x] + b)
  {
    var before, after := a + b, a + [x] + b;
    NotTaken(before, x);
    hide HasId, HasKey;
    forall i, j | 0 <= i < j < |after|
      ensures after[i].id != after[j].id && (after[i].text != after[j].text || after[i].kind != after[j].kind)
    {
      Inserted(a, x, b, i);
      Inserted(a, x, b, j);
      DifferentPair(before, x, Before(|a|, i), Before(|a|, j));
    }
  }

  /** Where position `i` after an insertion at `n` stood before it; the inserted one stood nowhere. */
  function Before(n: nat, i: nat): Option<nat> { if i < n then Some(i) else if i == n then None else Some(i - 1) }

  lemma Inserted(a: seq<Request>, x: Request, b: seq<Request>, i: nat)
    requires i < |a| + 1 + |b|
    ensures Before(|a|, i).Some? ==> Before(|a|, i).value < |a + b|
    ensures (a + [x] + b)[i] == if Before(|a|, i).Some? then (a + b)[Before(|a|, i).value] else x
  {
  }

  lemma DifferentPair(requests: seq<Request>, x: Request, i: Option<nat>, j: Option<nat>)
    requires UniqueRequests(requests) && i != j && (i.Some? ==> i.value < |requests|) && (j.Some? ==> j.value < |requests|)
    requires forall r | r in requests :: r.id != x.id && (r.text != x.text || r.kind != x.kind)
    ensures var p, q := if i.Some? then requests[i.value] else x, if j.Some? then requests[j.value] else x;
            p.id != q.id && (p.text != q.text || p.kind != q.kind)
  {
    if i.Some? { assert requests[i.value] in requests; }
    if j.Some? { assert requests[j.value] in requests; }
    if i.Some? && j.Some? && j.value < i.value { assert requests[j.value].id != requests[i.value].id; }
  }

  lemma ExpandedIsAcceptable(t: Texts, plan: Plan, primary: Request, additions: seq<Request>)
    requires Normal(t, plan) && Coherent(t, plan) && primary in plan.requests
    requires UniqueRequests(additions + plan.requests) && |plan.requests| + |additions| <= MAX_SEARCH_REQUESTS
    requires forall r | r in additions :: AddedFor(primary, r) && NormalRequest(t, r)
    ensures var effective := plan.(requests := additions + plan.requests);
            Normal(t, effective) && Coherent(t, effective)
  {
    var effective := plan.(requests := additions + plan.requests);
    PrimaryFacts(t, plan, primary);
    forall r | r in effective.requests
      ensures RolesRequired(plan.issues, r) && NormalRequest(t, r)
    {
      if r in additions { assert AddedFor(primary, r); }
    }
    assert NumbersKept(t, effective) by {
      assert forall r | r in plan.requests :: r in effective.requests;
    }
    hide RolesRequired, NormalRequest, NumbersKept, UniqueRequests, GraphAccepted, UniqueFacts, UniqueIssues, CitationsKept, AnchorsGrounded,
      NormalIssue, NormalFact, NormalAnchor, NormalProvenance, NormalText;
  }

  /** A plan extended by the user is accepted again, unchanged. */
  lemma EffectivePlanRoundTrip(t: Texts, effective: Plan)
    requires Proper(t) && Normal(t, effective) && Coherent(t, effective)
    ensures Decoded(t, QuestionPlanDocument(effective), effective.question) == Some(effective)
  {
    ShapeOfDocument(t, effective, effective.question);
    hide Coherent, Shape, QuestionPlanDocument;
  }
}
