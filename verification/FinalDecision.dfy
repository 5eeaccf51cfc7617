/** The finalizer's decision: issue reconciliation, abstention gates and the packet status. */
module FinalDecision {
  import opened ConfidenceScore
  import opened ConfidencePath

  datatype IssueResult = IssueResult(issue: string, status: Status)

  datatype Claim = Claim(id: string, issues: seq<string>)

  datatype Disposition = Accept | Reject | Incomplete

  datatype Finding = CitationMismatch | UnsupportedClaim | MissingException | SourceConflict | OtherFinding(code: string)

  datatype ClaimAudit = ClaimAudit(claim: string, disposition: Disposition, findings: set<Finding>)

  datatype Responsiveness = Responsive | NotResponsive | ResponsivenessUnknown

  datatype Facets = FacetsComplete | FacetsIncomplete | FacetsNotApplicable

  datatype Audit = Audit(claims: seq<ClaimAudit>, overall: Disposition, responsiveness: Responsiveness, facets: Facets)

  datatype Rule = Rule(id: string, engineError: bool, missingInputs: seq<string>)

  /** Which missing inputs of Track A name which issue is decided by a regular expression; the
      relation is a parameter. */
  datatype Evidence = Evidence(
    issues: seq<IssueResult>,
    claims: seq<Claim>,
    missingInputs: seq<string>,
    conflicts: bool,
    rules: seq<Rule>,
    approved: set<string>,
    calculations: seq<bool>,
    audit: Audit,
    targets: (string, string) -> bool)

  predicate Supported(status: Status) { status.Resolved? || status.Conditional? }

  // ---------------------------------------------------------------- reconciliation

  predicate Linked(claims: seq<Claim>, issue: string) {
    exists claim | claim in claims :: issue in claim.issues
  }

  predicate NotAccepted(audits: seq<ClaimAudit>, claim: string) {
    exists audit | audit in audits :: audit.claim == claim && !audit.disposition.Accept?
  }

  /** A claim linked to the issue was audited other than ACCEPT. */
  predicate Blocked(claims: seq<Claim>, audits: seq<ClaimAudit>, issue: string) {
    exists claim | claim in claims :: issue in claim.issues && NotAccepted(audits, claim.id)
  }

  predicate MissingFor(missing: seq<string>, targets: (string, string) -> bool, issue: string) {
    exists value | value in missing :: targets(value, issue)
  }

  function Reconciled(e: Evidence, result: IssueResult): IssueResult {
    if !Supported(result.status) then result
    else if !Linked(e.claims, result.issue) then
      result.(status := if MissingFor(e.missingInputs, e.targets, result.issue) then SourceMissing else Unresolved)
    else if Blocked(e.claims, e.audit.claims, result.issue) then result.(status := Unresolved)
    else if result.status.Resolved? && MissingFor(e.missingInputs, e.targets, result.issue) then result.(status := Conditional)
    else result
  }

  predicate AuditsKnown(e: Evidence) {
    && (forall i, j | 0 <= i < j < |e.audit.claims| :: e.audit.claims[i].claim != e.audit.claims[j].claim)
    && (forall audit | audit in e.audit.claims :: exists claim | claim in e.claims :: claim.id == audit.claim)
  }

  function ReconciledAll(e: Evidence): (results: seq<IssueResult>)
    ensures |results| == |e.issues| && forall i | 0 <= i < |results| :: results[i] == Reconciled(e, e.issues[i])
  {
    seq(|e.issues|, i requires 0 <= i < |e.issues| => Reconciled(e, e.issues[i]))
  }

  method ReconcileIssueResults(e: Evidence) returns (ok: bool, reconciled: seq<IssueResult>)
    ensures ok <==> AuditsKnown(e)
    ensures ok ==> reconciled == ReconciledAll(e)
  {
    reconciled := [];
    if !AuditsKnown(e) { return false, reconciled; }
    var blocked := set claim, issue | claim in e.claims && NotAccepted(e.audit.claims, claim.id) && issue in claim.issues :: issue;
    var claimCounts := CountClaims(e.claims);
    hide Linked, NotAccepted, MissingFor, AuditsKnown;
    for i := 0 to |e.issues|
      invariant |reconciled| == i && forall j | 0 <= j < i :: reconciled[j] == Reconciled(e, e.issues[j])
    {
      var result := e.issues[i];
      if !Supported(result.status) {
        reconciled := reconciled + [result];
        continue;
      }
      var hasClaim := result.issue in claimCounts && claimCounts[result.issue] > 0;
      var hasBlockingMissing := MissingFor(e.missingInputs, e.targets, result.issue);
      var status: Status;
      if !hasClaim {
        status := if hasBlockingMissing then SourceMissing else Unresolved;
      } else if result.status.Resolved? && hasBlockingMissing {
        status := Conditional;
      } else {
        status := result.status;
      }
      assert result.issue in blocked <==> Blocked(e.claims, e.audit.claims, result.issue);
      if result.issue in blocked && Supported(status) {
        status := Unresolved;
      }
      reconciled := reconciled + [result.(status := status)];
    }
    assert reconciled == ReconciledAll(e);
    ok := true;
  }

  method CountClaims(claims: seq<Claim>) returns (counts: map<string, nat>)
    ensures forall issue :: issue in counts <==> Linked(claims, issue)
    ensures forall issue | issue in counts :: counts[issue] > 0
  {
    counts := map[];
    for i := 0 to |claims|
      invariant forall issue :: issue in counts <==> Linked(claims[..i], issue)
      invariant forall issue | issue in counts :: counts[issue] > 0
    {
      var issues := claims[i].issues;
      for n := 0 to |issues|
        invariant forall issue :: issue in counts <==> Linked(claims[..i], issue) || issue in issues[..n]
        invariant forall issue | issue in counts :: counts[issue] > 0
      {
        var issue := issues[n];
        counts := counts[issue := (if issue in counts then counts[issue] else 0) + 1];
      }
      assert issues[..|issues|] == issues;
      assert claims[..i + 1] == claims[..i] + [claims[i]];
    }
    assert claims[..|claims|] == claims;
  }

  /** The status of a reconciled issue, case by case.  An issue retrieval did not cover keeps its status.
      A covered one is determinate exactly when some claim is linked to it and no linked claim was
      audited other than ACCEPT; it stays RESOLVED exactly when, besides, no missing input names it;
      without a claim the missing input decides between SOURCE_MISSING and UNRESOLVED. */
  lemma ReconciledMeans(e: Evidence, result: IssueResult)
    ensures var status, linked := Reconciled(e, result).status, exists claim | claim in e.claims :: result.issue in claim.issues;
            var blocked := exists claim, audit | claim in e.claims && audit in e.audit.claims ::
              result.issue in claim.issues && audit.claim == claim.id && !audit.disposition.Accept?;
            var missing := exists value | value in e.missingInputs :: e.targets(value, result.issue);
            && (result.status !in {Resolved, Conditional} ==> status == result.status)
            && (result.status in {Resolved, Conditional} ==>
                  && (status == SourceMissing <==> !linked && missing)
                  && (status == Unresolved <==> (!linked && !missing) || blocked)
                  && (status == Conditional <==> linked && !blocked && (result.status == Conditional || missing))
                  && (status == Resolved <==> linked && !blocked && result.status == Resolved && !missing))
    ensures Reconciled(e, result).status in {Resolved, Conditional} <==> Determinate(e, result)
    ensures Reconciled(e, result).issue == result.issue
    ensures Reconciled(e, Reconciled(e, result)) == Reconciled(e, result)
  {
  }

  // ---------------------------------------------------------------- gates

  datatype Reason =
    | MissingRequiredInput | UncitedOrUnresolvedClaim | UnapprovedRule | MathEngineError | SourceHashMismatch
    | UnresolvedConflictReason | TrackBRejection | MachineSetHumanDecision | UnregisteredNumericValue | LowConfidence

  datatype Context = Context(missingRequiredInput: bool, uncitedOrUnresolvedClaim: bool, unapprovedRule: bool, mathEngineError: bool,
                             unresolvedConflict: bool, trackBRejection: bool, score: int)

  /** The declared gates in policy order; three of them are never raised by the finalizer. */
  function GateTable(c: Context): seq<(bool, Reason)> {
    [(c.missingRequiredInput, MissingRequiredInput), (c.uncitedOrUnresolvedClaim, UncitedOrUnresolvedClaim),
     (c.unapprovedRule, UnapprovedRule), (c.mathEngineError, MathEngineError), (false, SourceHashMismatch),
     (c.unresolvedConflict, UnresolvedConflictReason), (c.trackBRejection, TrackBRejection),
     (false, MachineSetHumanDecision), (false, UnregisteredNumericValue)]
  }

  lemma GateTableMeans(c: Context)
    ensures forall raised: bool, reason: Reason :: (raised, reason) in GateTable(c) <==> reason != LowConfidence && raised == Observed(c, reason)
  {
    var table := GateTable(c);
    assert table[0].1 == MissingRequiredInput && table[1].1 == UncitedOrUnresolvedClaim && table[2].1 == UnapprovedRule
      && table[3].1 == MathEngineError && table[4].1 == SourceHashMismatch && table[5].1 == UnresolvedConflictReason
      && table[6].1 == TrackBRejection && table[7].1 == MachineSetHumanDecision && table[8].1 == UnregisteredNumericValue;
  }

  predicate Observed(c: Context, reason: Reason) {
    match reason
    case MissingRequiredInput => c.missingRequiredInput
    case UncitedOrUnresolvedClaim => c.uncitedOrUnresolvedClaim
    case UnapprovedRule => c.unapprovedRule
    case MathEngineError => c.mathEngineError
    case UnresolvedConflictReason => c.unresolvedConflict
    case TrackBRejection => c.trackBRejection
    case LowConfidence => c.score < MEDIUM_THRESHOLD
    case _ => false
  }

  function Raised(table: seq<(bool, Reason)>): (reasons: seq<Reason>)
    ensures forall reason :: reason in reasons <==> (true, reason) in table
  {
    if table == [] then []
    else
      assert forall entry :: entry in table <==> entry == table[0] || entry in table[1..];
      (if table[0].0 then [table[0].1] else []) + Raised(table[1..])
  }

  function EvaluateAbstentionGates(c: Context): (reasons: seq<Reason>)
    ensures forall reason :: reason in reasons <==> Observed(c, reason)
  {
    GateTableMeans(c);
    Raised(GateTable(c)) + if c.score < MEDIUM_THRESHOLD then [LowConfidence] else []
  }

  predicate NothingButScore(c: Context) {
    && !c.missingRequiredInput && !c.uncitedOrUnresolvedClaim && !c.unapprovedRule && !c.mathEngineError && !c.unresolvedConflict
    && !c.trackBRejection
  }

  /** No reason is raised exactly when every gate is open and the score is high enough. */
  lemma NoReason(c: Context)
    ensures EvaluateAbstentionGates(c) == [] <==> NothingButScore(c) && c.score >= MEDIUM_THRESHOLD
    ensures (forall reason | reason in EvaluateAbstentionGates(c) :: reason == LowConfidence) <==> NothingButScore(c)
  {
    hide EvaluateAbstentionGates;
    var reasons := EvaluateAbstentionGates(c);
    if reasons != [] {
      assert reasons[0] in reasons;
      assert Observed(c, reasons[0]);
    }
    assert MissingRequiredInput in reasons <==> c.missingRequiredInput;
    assert UncitedOrUnresolvedClaim in reasons <==> c.uncitedOrUnresolvedClaim;
    assert UnapprovedRule in reasons <==> c.unapprovedRule;
    assert MathEngineError in reasons <==> c.mathEngineError;
    assert UnresolvedConflictReason in reasons <==> c.unresolvedConflict;
    assert TrackBRejection in reasons <==> c.trackBRejection;
    assert LowConfidence in reasons <==> c.score < MEDIUM_THRESHOLD;
  }

  // ---------------------------------------------------------------- the decision

  predicate HasPartial(results: seq<IssueResult>) {
    (exists r | r in results :: Supported(r.status)) && (exists r | r in results :: !Supported(r.status))
  }

  predicate AnyRuleMissing(e: Evidence) { exists rule | rule in e.rules :: rule.missingInputs != [] }

  predicate RequireGlobalAbstain(results: seq<IssueResult>, deterministicMissing: bool) {
    deterministicMissing || (results != [] && forall r | r in results :: !Supported(r.status))
  }

  predicate HasFinding(audits: seq<ClaimAudit>, finding: Finding) {
    exists audit | audit in audits :: finding in audit.findings
  }

  predicate ScopedIncomplete(audit: Audit) {
    audit.overall.Incomplete? || HasFinding(audit.claims, CitationMismatch) || HasFinding(audit.claims, UnsupportedClaim)
    || HasFinding(audit.claims, MissingException)
  }

  function SemanticGate(audit: Audit): (gate: Gate)
    ensures gate.Pass? <==> audit.overall == Accept && audit.responsiveness == Responsive && audit.facets != FacetsIncomplete
    ensures gate.GateFailed? <==> audit.overall == Reject || audit.responsiveness == NotResponsive
  {
    if audit.overall.Reject? || audit.responsiveness.NotResponsive? then GateFailed
    else if !audit.overall.Accept? || !audit.responsiveness.Responsive? || audit.facets.FacetsIncomplete? then GateNotVerified
    else Pass
  }

  function ContextOf(e: Evidence, results: seq<IssueResult>, score: int): Context {
    Context(
      if results != [] then RequireGlobalAbstain(results, AnyRuleMissing(e)) else e.missingInputs != [] || AnyRuleMissing(e),
      ScopedIncomplete(e.audit) && !HasPartial(results),
      exists rule | rule in e.rules :: rule.id !in e.approved,
      (exists success | success in e.calculations :: !success) || (exists rule | rule in e.rules :: rule.engineError),
      e.conflicts || HasFinding(e.audit.claims, SourceConflict),
      !SemanticGate(e.audit).Pass?,
      score)
  }

  datatype PacketStatus = ReadyForHumanReview | PartiallyResolved | Abstain

  datatype Decision = Decision(status: PacketStatus, reasons: seq<Reason>, issues: seq<IssueResult>) | AuditError

  function WithoutLowConfidence(reasons: seq<Reason>): (kept: seq<Reason>)
    ensures forall reason :: reason in kept <==> reason in reasons && reason != LowConfidence
  {
    if reasons == [] then []
    else
      assert forall reason :: reason in reasons <==> reason == reasons[0] || reason in reasons[1..];
      (if reasons[0] == LowConfidence then [] else [reasons[0]]) + WithoutLowConfidence(reasons[1..])
  }

  // ---------------------------------------------------------------- the reasons, from the evidence

  /** Determinate and indeterminate issues side by side. */
  predicate Mixed(e: Evidence) {
    (exists result | result in e.issues :: Determinate(e, result)) && (exists result | result in e.issues :: !Determinate(e, result))
  }

  /** What each reason says about the evidence. */
  ghost predicate Stands(e: Evidence, score: int, reason: Reason) {
    match reason
    case MissingRequiredInput =>
      || (exists rule | rule in e.rules :: rule.missingInputs != [])
      || (e.issues == [] && e.missingInputs != [])
      || (e.issues != [] && forall result | result in e.issues :: !Determinate(e, result))
    case UncitedOrUnresolvedClaim =>
      && !Mixed(e)
      && (e.audit.overall == Incomplete
          || exists audit | audit in e.audit.claims :: !(audit.findings !! {CitationMismatch, UnsupportedClaim, MissingException}))
    case UnapprovedRule => exists rule | rule in e.rules :: rule.id !in e.approved
    case MathEngineError => false in e.calculations || exists rule | rule in e.rules :: rule.engineError
    case UnresolvedConflictReason => e.conflicts || exists audit | audit in e.audit.claims :: SourceConflict in audit.findings
    case TrackBRejection => e.audit.overall != Accept || e.audit.responsiveness != Responsive || e.audit.facets == FacetsIncomplete
    case LowConfidence => score < 7000 && !Mixed(e)
    case _ => false
  }

  /** The place of a reason in the policy. */
  function Place(reason: Reason): nat {
    match reason
    case MissingRequiredInput => 0
    case UncitedOrUnresolvedClaim => 1
    case UnapprovedRule => 2
    case MathEngineError => 3
    case SourceHashMismatch => 4
    case UnresolvedConflictReason => 5
    case TrackBRejection => 6
    case MachineSetHumanDecision => 7
    case UnregisteredNumericValue => 8
    case LowConfidence => 9
  }

  predicate InPolicyOrder(reasons: seq<Reason>) {
    forall i, j | 0 <= i < j < |reasons| :: Place(reasons[i]) < Place(reasons[j])
  }

  lemma {:induction false} RaisedInOrder(table: seq<(bool, Reason)>)
    requires forall i, j | 0 <= i < j < |table| :: Place(table[i].1) < Place(table[j].1)
    ensures InPolicyOrder(Raised(table))
  {
    if table != [] {
      RaisedInOrder(table[1..]);
      var rest := Raised(table[1..]);
      forall reason | reason in rest ensures Place(table[0].1) < Place(reason) {
        assert (true, reason) in table[1..];
      }
      hide Place, Raised;
      assert Raised(table) == (if table[0].0 then [table[0].1] else []) + rest by { RaisedFirst(table); }
    }
  }

  lemma {:induction false} RaisedFirst(table: seq<(bool, Reason)>)
    requires table != []
    ensures Raised(table) == (if table[0].0 then [table[0].1] else []) + Raised(table[1..])
  {
  }

  lemma TableInOrder(c: Context)
    ensures |GateTable(c)| == 9 && forall i | 0 <= i < 9 :: Place(GateTable(c)[i].1) == i
  {
  }

  lemma GatesInOrder(c: Context)
    ensures InPolicyOrder(EvaluateAbstentionGates(c))
  {
    hide Raised, GateTable, Observed;
    TableInOrder(c);
    RaisedInOrder(GateTable(c));
    forall reason | reason in Raised(GateTable(c)) ensures Place(reason) < 9 {
      assert (true, reason) in GateTable(c);
    }
  }

  lemma {:induction false} WithoutKeepsOrder(reasons: seq<Reason>)
    requires InPolicyOrder(reasons)
    ensures InPolicyOrder(WithoutLowConfidence(reasons))
  {
    if reasons != [] {
      WithoutKeepsOrder(reasons[1..]);
      forall reason | reason in WithoutLowConfidence(reasons[1..]) ensures Place(reasons[0]) < Place(reason) {
        assert reason in reasons[1..];
      }
      hide Place;
    }
  }

  /** The gates observed over the reconciled issues are the reasons the evidence gives. */
  lemma ReasonsStand(e: Evidence, score: int, reason: Reason)
    ensures var c := ContextOf(e, ReconciledAll(e), score);
            Stands(e, score, reason) <==> Observed(c, reason) && !(reason == LowConfidence && HasPartial(ReconciledAll(e)))
  {
    hide Reconciled, ReconciledAll, Determinate, Supported;
    assert false in e.calculations <==> exists success | success in e.calculations :: !success;
    ReconciledSupport(e);
    var results := ReconciledAll(e);
    assert |results| == |e.issues|;
    assert results != [] ==> results[0] in results;
    assert e.issues != [] ==> e.issues[0] in e.issues;
  }

  method Decide(e: Evidence, score: int) returns (decision: Decision)
    ensures decision.AuditError? <==>
      || (exists i, j | 0 <= i < j < |e.audit.claims| :: e.audit.claims[i].claim == e.audit.claims[j].claim)
      || (exists audit | audit in e.audit.claims :: forall claim | claim in e.claims :: claim.id != audit.claim)
    ensures decision.AuditError? <==> !AuditsKnown(e)
    ensures decision.Decision? ==> decision.issues == ReconciledAll(e)
    ensures decision.Decision? ==> (decision.status.ReadyForHumanReview? <==> Ready(e, score))
    ensures decision.Decision? ==> (decision.status.PartiallyResolved? <==> Partial(e))
    ensures decision.Decision? ==> (decision.status.Abstain? <==> decision.reasons != [])
    ensures decision.Decision? ==> forall reason :: reason in decision.reasons <==> Stands(e, score, reason)
    ensures decision.Decision? ==> InPolicyOrder(decision.reasons)
  {
    var ok, results := ReconcileIssueResults(e);
    if !ok { return AuditError; }
    var partial := HasPartial(results);
    var context := ContextOf(e, results, score);
    var reasons := EvaluateAbstentionGates(context);
    ReadyMeans(e, score);
    PartialMeans(e, score);
    hide Ready, Partial, EvaluateAbstentionGates, ContextOf, Stands, Place, Observed;
    GatesInOrder(context);
    forall reason ensures Stands(e, score, reason) <==> Observed(context, reason) && !(reason == LowConfidence && partial) {
      ReasonsStand(e, score, reason);
    }
    if partial {
      WithoutKeepsOrder(reasons);
      reasons := WithoutLowConfidence(reasons);
      if reasons != [] { assert reasons[0] in reasons; }
    }
    var status := if reasons != [] then Abstain else if partial then PartiallyResolved else ReadyForHumanReview;
    return Decision(status, reasons, results);
  }

  // ---------------------------------------------------------------- what the statuses mean

  /** Retrieval covered the issue, a claim answers it, and every linked claim was accepted. */
  predicate Determinate(e: Evidence, result: IssueResult) {
    Supported(result.status) && Linked(e.claims, result.issue) && !Blocked(e.claims, e.audit.claims, result.issue)
  }

  /** Nothing but the confidence score stands against the packet. */
  predicate GatesOpen(e: Evidence) {
    && (forall rule | rule in e.rules :: rule.id in e.approved && !rule.engineError && rule.missingInputs == [])
    && (forall success | success in e.calculations :: success)
    && !e.conflicts && !HasFinding(e.audit.claims, SourceConflict)
    && e.audit.overall.Accept? && e.audit.responsiveness.Responsive? && !e.audit.facets.FacetsIncomplete?
  }

  predicate NoScopedFinding(audit: Audit) {
    && !HasFinding(audit.claims, CitationMismatch) && !HasFinding(audit.claims, UnsupportedClaim)
    && !HasFinding(audit.claims, MissingException)
  }

  /** The packet is ready: every planned issue is determinate (without a plan, nothing is missing),
      no finding or gate stands against it, and the score is at least 0.70. */
  predicate Ready(e: Evidence, score: int) {
    && GatesOpen(e) && NoScopedFinding(e.audit) && score >= MEDIUM_THRESHOLD
    && (forall result | result in e.issues :: Determinate(e, result))
    && (e.issues == [] ==> e.missingInputs == [])
  }

  /** The packet is partial: determinate and indeterminate issues coexist, and no gate but the
      confidence threshold is closed. */
  predicate Partial(e: Evidence) {
    && GatesOpen(e)
    && (exists result | result in e.issues :: Determinate(e, result))
    && (exists result | result in e.issues :: !Determinate(e, result))
  }

  lemma ReconciledSupport(e: Evidence)
    ensures (exists r | r in ReconciledAll(e) :: Supported(r.status)) <==> exists result | result in e.issues :: Determinate(e, result)
    ensures (exists r | r in ReconciledAll(e) :: !Supported(r.status)) <==> exists result | result in e.issues :: !Determinate(e, result)
  {
    var results := ReconciledAll(e);
    forall i | 0 <= i < |results|
      ensures Supported(results[i].status) <==> Determinate(e, e.issues[i])
    {
      ReconciledMeans(e, e.issues[i]);
    }
    hide Reconciled, Determinate, Supported;
    if result :| result in e.issues && Determinate(e, result) {
      var i :| 0 <= i < |e.issues| && e.issues[i] == result;
      assert results[i] in results;
    }
    if result :| result in e.issues && !Determinate(e, result) {
      var i :| 0 <= i < |e.issues| && e.issues[i] == result;
      assert results[i] in results;
    }
  }

  lemma ContextMeans(e: Evidence, results: seq<IssueResult>, score: int)
    ensures ContextOf(e, results, score).score == score
    ensures NothingButScore(ContextOf(e, results, score)) <==>
            (&& GatesOpen(e)
             && (if results != [] then exists r | r in results :: Supported(r.status) else e.missingInputs == [])
             && (NoScopedFinding(e.audit) || HasPartial(results)))
  {
    hide HasFinding, Supported, HasPartial;
  }

  lemma ReadyMeans(e: Evidence, score: int)
    ensures var results := ReconciledAll(e);
            !HasPartial(results) && EvaluateAbstentionGates(ContextOf(e, results, score)) == [] <==> Ready(e, score)
  {
    hide Reconciled, ReconciledAll, Determinate, HasFinding, EvaluateAbstentionGates, GatesOpen, NothingButScore, Supported, ContextOf;
    var results := ReconciledAll(e);
    assert |results| == |e.issues|;
    ReconciledSupport(e);
    ContextMeans(e, results, score);
    NoReason(ContextOf(e, results, score));
    if results != [] {
      assert results[0] in results;
    }
  }

  lemma PartialMeans(e: Evidence, score: int)
    ensures var results := ReconciledAll(e);
            HasPartial(results) && (forall reason | reason in EvaluateAbstentionGates(ContextOf(e, results, score)) :: reason == LowConfidence)
            <==> Partial(e)
  {
    hide Reconciled, ReconciledAll, Determinate, HasFinding, EvaluateAbstentionGates, GatesOpen, NothingButScore, Supported, ContextOf;
    var results := ReconciledAll(e);
    ReconciledSupport(e);
    ContextMeans(e, results, score);
    NoReason(ContextOf(e, results, score));
  }
}
