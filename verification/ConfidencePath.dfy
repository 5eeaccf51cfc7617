/** From initial factors, through measured issue coverage, to the factors the finalizer scores. */
module ConfidencePath {
  import opened Options
  import opened ConfidenceScore

  // ---------------------------------------------------------------- coverage ratios

  /** A ratio in ten-thousandths, half a unit rounded up. */
  function Ratio(numerator: nat, denominator: nat): int
    requires denominator > 0
  {
    (20000 * numerator + denominator) / (2 * denominator)
  }

  lemma DivisionAtLeast(a: int, b: int, q: int)
    requires b > 0
    ensures a / b >= q <==> a >= b * q
  {
    var d := a / b;
    assert b * d <= a < b * d + b;
    if d >= q { Products(b, q, d); } else { Products(b, d + 1, q); }
  }

  lemma Products(b: int, x: int, y: int)
    requires b > 0 && x <= y
    ensures b * x <= b * y
  {
  }

  /** A ratio is displayed as 1.0000 exactly when what is missing is at most a twenty-thousandth. */
  lemma RatioShowsOne(numerator: nat, denominator: nat)
    requires 0 < denominator && numerator <= denominator
    ensures 0 <= Ratio(numerator, denominator) <= 10000
    ensures Ratio(numerator, denominator) == 10000 <==> 20000 * (denominator - numerator) <= denominator
  {
    var top, bottom := 20000 * numerator + denominator, 2 * denominator;
    DivisionAtLeast(top, bottom, 0);
    DivisionAtLeast(top, bottom, 10000);
    DivisionAtLeast(top, bottom, 10001);
    assert bottom * 10000 == 20000 * denominator && bottom * 10001 == 20002 * denominator;
  }

  /** Below twenty thousand issues the displayed ratio is 1.0000 exactly when the state is VERIFIED. */
  lemma RatioMatchesState(numerator: nat, denominator: nat)
    requires 0 < denominator < 20000 && numerator <= denominator
    ensures Ratio(numerator, denominator) == 10000 <==> CoverageState(numerator, denominator) == Verified
  {
    RatioShowsOne(numerator, denominator);
  }

  /** At twenty thousand it no longer does. */
  lemma RatioMismatch()
    ensures Ratio(19999, 20000) == 10000 && CoverageState(19999, 20000) == Failed
  {
  }

  function CoverageState(numerator: nat, denominator: nat): FactorState {
    if numerator == denominator then Verified else Failed
  }

  // ---------------------------------------------------------------- issue coverage

  datatype Status = Resolved | Conditional | Conflict | SourceMissing | Unresolved

  datatype Gap = SourceNotIngested | ReferenceTargetMissing | RetrievalMiss | RelevanceInsufficient | ParseGap | OtherGap(code: string)

  const SOURCE_GAPS: set<Gap> := {SourceNotIngested, ReferenceTargetMissing, RetrievalMiss, RelevanceInsufficient}

  datatype Issue = Issue(status: Status, gaps: set<Gap>, covered: nat, missing: nat)

  predicate Complete(issue: Issue) { issue.status.Resolved? || issue.status.Conditional? }
  predicate SourceComplete(issue: Issue) { issue.gaps !! SOURCE_GAPS }
  predicate Traceable(issue: Issue) { Complete(issue) && issue.covered > 0 && issue.missing == 0 }
  predicate CompleteInputs(issue: Issue) { Complete(issue) && issue.missing == 0 }
  predicate ParseGapFree(issue: Issue) { ParseGap !in issue.gaps }
  predicate Conflicting(issue: Issue) { issue.status.Conflict? }

  function Count(issues: seq<Issue>, p: Issue -> bool): (count: nat)
    ensures count <= |issues|
    ensures count == |issues| <==> forall issue | issue in issues :: p(issue)
    ensures count == 0 <==> forall issue | issue in issues :: !p(issue)
  {
    if issues == [] then 0
    else
      assert forall issue :: issue in issues <==> issue == issues[0] || issue in issues[1..];
      Count(issues[1..], p) + if p(issues[0]) then 1 else 0
  }

  function CoveredRoles(issues: seq<Issue>): nat {
    if issues == [] then 0 else issues[0].covered + CoveredRoles(issues[1..])
  }

  function MissingRoles(issues: seq<Issue>): (missing: nat)
    ensures missing == 0 <==> forall issue | issue in issues :: issue.missing == 0
  {
    if issues == [] then 0
    else
      assert forall issue :: issue in issues <==> issue == issues[0] || issue in issues[1..];
      issues[0].missing + MissingRoles(issues[1..])
  }

  function Measured(numerator: nat, denominator: nat, source: string): FactorInput
    requires denominator > 0
  {
    Exactly(Ratio(numerator, denominator) as real / 10000.0, source, CoverageState(numerator, denominator))
  }

  lemma MeasuredIsValid(numerator: nat, denominator: nat, source: string)
    requires 0 < denominator && numerator <= denominator && source != ""
    ensures ValidFactor(Measured(numerator, denominator, source))
  {
    RatioShowsOne(numerator, denominator);
    var ratio := Ratio(numerator, denominator);
    assert 0.0 <= ratio as real / 10000.0 <= 1.0;
  }

  const COVERED_NAMES: set<Name> :=
    {SourceCompleteness, Traceability, ParseQuality, HumanReviewStatus, RuleCoverage, InputCompleteness, UnresolvedConflict}

  const FRESH := "source_freshness:verified"

  predicate Fresh(factor: FactorInput) { factor.state.Verified? && FRESH <= factor.source }

  /** What a factor becomes once issue coverage has been measured. */
  function CoverageFactor(name: Name, before: FactorInput, issues: seq<Issue>): FactorInput
    requires issues != [] && CoveredRoles(issues) + MissingRoles(issues) > 0
  {
    match name
    case SourceCompleteness => Measured(Count(issues, SourceComplete), |issues|, "issue_coverage:source_complete")
    case Traceability => Measured(Count(issues, Traceable), |issues|, "issue_coverage:traceable")
    case RuleCoverage => Measured(CoveredRoles(issues), CoveredRoles(issues) + MissingRoles(issues), "issue_coverage:required_roles")
    case InputCompleteness => Measured(Count(issues, CompleteInputs), |issues|, "issue_coverage:complete_inputs")
    case ParseQuality => Measured(Count(issues, ParseGapFree), |issues|, "issue_coverage:parse_gap_free")
    case HumanReviewStatus => Exactly(0.0, PENDING, NotVerified)
    case UnresolvedConflict =>
      if Count(issues, Conflicting) > 0 then Exactly(0.0, "issue_coverage:conflicts", Failed)
      else Exactly(1.0, "issue_coverage:conflicts", Verified)
    case SourceFreshness => if Fresh(before) then before else Exactly(0.0, NOT_FRESH, NotVerified)
    case _ => before
  }

  lemma {:induction false} CoverageFactorIsValid(name: Name, before: FactorInput, issues: seq<Issue>)
    requires issues != [] && CoveredRoles(issues) + MissingRoles(issues) > 0 && ValidFactor(before)
    ensures ValidFactor(CoverageFactor(name, before, issues))
  {
    var total, required := |issues|, CoveredRoles(issues) + MissingRoles(issues);
    MeasuredIsValid(Count(issues, SourceComplete), total, "issue_coverage:source_complete");
    MeasuredIsValid(Count(issues, Traceable), total, "issue_coverage:traceable");
    MeasuredIsValid(CoveredRoles(issues), required, "issue_coverage:required_roles");
    MeasuredIsValid(Count(issues, CompleteInputs), total, "issue_coverage:complete_inputs");
    MeasuredIsValid(Count(issues, ParseGapFree), total, "issue_coverage:parse_gap_free");
    hide Measured, CoveredRoles, MissingRoles, Count, Fresh;
  }

  function Covered(factors: Factors, issues: seq<Issue>): (covered: Factors)
    requires issues != [] && CoveredRoles(issues) + MissingRoles(issues) > 0
    ensures covered.Keys == factors.Keys
    ensures forall name | name in factors :: covered[name] == CoverageFactor(name, factors[name], issues)
  {
    map name | name in factors :: CoverageFactor(name, factors[name], issues)
  }

  predicate IsRatio(name: Name) {
    name.SourceCompleteness? || name.Traceability? || name.RuleCoverage? || name.InputCompleteness? || name.ParseQuality?
  }

  /** The five measured ratios. */
  method BindRatios(factors: Factors, issues: seq<Issue>) returns (bound: Factors)
    requires issues != [] && CoveredRoles(issues) + MissingRoles(issues) > 0
    requires COVERED_NAMES <= factors.Keys
    ensures bound.Keys == factors.Keys
    ensures forall name | name in factors :: bound[name] == if IsRatio(name) then CoverageFactor(name, factors[name], issues) else factors[name]
  {
    hide Measured, CoveredRoles, MissingRoles, Count;
    var total, required := |issues|, CoveredRoles(issues) + MissingRoles(issues);
    bound := factors;
    bound := bound[SourceCompleteness := Measured(Count(issues, SourceComplete), total, "issue_coverage:source_complete")];
    bound := bound[Traceability := Measured(Count(issues, Traceable), total, "issue_coverage:traceable")];
    bound := bound[RuleCoverage := Measured(CoveredRoles(issues), required, "issue_coverage:required_roles")];
    bound := bound[InputCompleteness := Measured(Count(issues, CompleteInputs), total, "issue_coverage:complete_inputs")];
    bound := bound[ParseQuality := Measured(Count(issues, ParseGapFree), total, "issue_coverage:parse_gap_free")];
  }

  predicate IsJudgement(name: Name) { name.HumanReviewStatus? || name.UnresolvedConflict? || name.SourceFreshness? }

  lemma {:induction false} Unmeasured(name: Name, before: FactorInput, issues: seq<Issue>)
    requires issues != [] && CoveredRoles(issues) + MissingRoles(issues) > 0 && !IsRatio(name) && !IsJudgement(name)
    ensures CoverageFactor(name, before, issues) == before
  {
    hide Measured, CoveredRoles, MissingRoles, Count;
  }

  /** The pending review, the conflicts, and the freshness. */
  method BindJudgements(factors: Factors, issues: seq<Issue>) returns (bound: Factors)
    requires issues != [] && CoveredRoles(issues) + MissingRoles(issues) > 0
    requires COVERED_NAMES <= factors.Keys && SourceFreshness in factors
    ensures bound.Keys == factors.Keys
    ensures forall name | name in factors ::
      bound[name] == if IsJudgement(name) then CoverageFactor(name, factors[name], issues) else factors[name]
  {
    hide Measured, CoveredRoles, MissingRoles, Count, Fresh;
    bound := factors;
    bound := bound[HumanReviewStatus := Exactly(0.0, PENDING, NotVerified)];
    bound := bound[UnresolvedConflict := if Count(issues, Conflicting) > 0 then Exactly(0.0, "issue_coverage:conflicts", Failed)
                                         else Exactly(1.0, "issue_coverage:conflicts", Verified)];
    if !Fresh(bound[SourceFreshness]) {
      bound := bound[SourceFreshness := Exactly(0.0, NOT_FRESH, NotVerified)];
    }
  }

  /** Overwrites the measured factors; freshness survives only if it was verified. */
  method ApplyIssueCoverageFactors(factors: Factors, issues: seq<Issue>) returns (ok: bool, bound: Factors)
    requires SourceFreshness in factors
    ensures ok <==> issues != [] && COVERED_NAMES <= factors.Keys && CoveredRoles(issues) + MissingRoles(issues) > 0
    ensures ok ==> bound == Covered(factors, issues)
    ensures ok ==> CoverageTable(factors, bound, issues)
  {
    hide Measured, CoveredRoles, MissingRoles, Count, CoverageTable, Covered, Fresh;
    bound := factors;
    if issues == [] || !(COVERED_NAMES <= factors.Keys) { return false, bound; }
    if CoveredRoles(issues) + MissingRoles(issues) <= 0 { return false, bound; }
    hide CoverageFactor;
    bound := BindRatios(factors, issues);
    bound := BindJudgements(bound, issues);
    forall name | name in factors && !IsRatio(name) && !IsJudgement(name)
      ensures CoverageFactor(name, factors[name], issues) == factors[name]
    {
      Unmeasured(name, factors[name], issues);
    }
    CoverageTabulated(factors, issues);
    assert bound == Covered(factors, issues);
    ok := true;
  }

  /** A measured factor: the ratio rounded half up to ten-thousandths, verified when nothing is missing. */
  ghost predicate RatioFactor(f: FactorInput, numerator: nat, denominator: nat, source: string) {
    && f.source == source && f.state == (if numerator == denominator then Verified else Failed)
    && exists shown: int :: f.value == Some(shown as real / 10000.0)
         && 2 * denominator * shown <= 20000 * numerator + denominator < 2 * denominator * (shown + 1)
  }

  ghost predicate RatioTable(bound: Factors, issues: seq<Issue>)
    requires COVERED_NAMES <= bound.Keys
  {
    && RatioFactor(bound[SourceCompleteness], |WithSources(issues)|, |issues|, "issue_coverage:source_complete")
    && RatioFactor(bound[Traceability], |Cited(issues)|, |issues|, "issue_coverage:traceable")
    && RatioFactor(bound[ParseQuality], |Parsed(issues)|, |issues|, "issue_coverage:parse_gap_free")
    && RatioFactor(bound[RuleCoverage], CoveredRoles(issues), CoveredRoles(issues) + MissingRoles(issues), "issue_coverage:required_roles")
    && RatioFactor(bound[InputCompleteness], |Settled(issues)|, |issues|, "issue_coverage:complete_inputs")
  }

  /** The issues whose sources were all ingested, found and relevant. */
  function WithSources(issues: seq<Issue>): set<nat> {
    set i: nat | i < |issues| && issues[i].gaps !! {SourceNotIngested, ReferenceTargetMissing, RetrievalMiss, RelevanceInsufficient}
  }

  /** The determinate issues with some covered role and no missing one. */
  function Cited(issues: seq<Issue>): set<nat> {
    set i: nat | i < |issues| && issues[i].status in {Resolved, Conditional} && issues[i].covered > 0 && issues[i].missing == 0
  }

  /** The determinate issues without a missing role. */
  function Settled(issues: seq<Issue>): set<nat> {
    set i: nat | i < |issues| && issues[i].status in {Resolved, Conditional} && issues[i].missing == 0
  }

  function Parsed(issues: seq<Issue>): set<nat> { set i: nat | i < |issues| && ParseGap !in issues[i].gaps }

  lemma {:induction false} CountIsSize(issues: seq<Issue>, p: Issue -> bool, places: set<nat>)
    requires forall i: nat :: i in places <==> i < |issues| && p(issues[i])
    ensures Count(issues, p) == |places|
  {
    if issues == [] {
      assert places == {};
    } else {
      var rest := set i: nat | i < |issues| - 1 && p(issues[1..][i]);
      var moved := set i | i in rest :: i + 1;
      CountIsSize(issues[1..], p, rest);
      SameSize(rest, moved);
      assert forall i: nat | 0 < i < |issues| :: issues[i] == issues[1..][i - 1];
      forall i: nat ensures i in places <==> i in moved || (i == 0 && p(issues[0])) {
        if i in places && i > 0 { assert i - 1 in rest; }
      }
      assert places == if p(issues[0]) then moved + {0} else moved;
    }
  }

  lemma {:induction false} SameSize(some: set<nat>, moved: set<nat>)
    requires forall x: int :: x in moved <==> x > 0 && x - 1 in some
    ensures |moved| == |some|
  {
    if some == {} {
      assert moved == {};
    } else {
      var i :| i in some;
      SameSize(some - {i}, moved - {i + 1});
    }
  }

  lemma {:induction false} CountsMean(issues: seq<Issue>)
    ensures Count(issues, SourceComplete) == |WithSources(issues)| && Count(issues, Traceable) == |Cited(issues)|
    ensures Count(issues, CompleteInputs) == |Settled(issues)| && Count(issues, ParseGapFree) == |Parsed(issues)|
  {
    CountIsSize(issues, SourceComplete, WithSources(issues));
    CountIsSize(issues, Traceable, Cited(issues));
    CountIsSize(issues, CompleteInputs, Settled(issues));
    CountIsSize(issues, ParseGapFree, Parsed(issues));
  }

  /** Roles are counted issue by issue. */
  lemma {:induction false} RolesAddUp(some: seq<Issue>, more: seq<Issue>)
    ensures CoveredRoles(some + more) == CoveredRoles(some) + CoveredRoles(more)
    ensures MissingRoles(some + more) == MissingRoles(some) + MissingRoles(more)
    ensures |some| == 1 ==> CoveredRoles(some) == some[0].covered && MissingRoles(some) == some[0].missing
  {
    if some == [] {
      assert some + more == more;
    } else {
      assert (some + more)[1..] == some[1..] + more;
      RolesAddUp(some[1..], more);
    }
  }

  /** Seven factors are bound to the coverage; the freshness stays only if it was verified; the
      calculations and Track B are left. */
  ghost predicate CoverageTable(factors: Factors, bound: Factors, issues: seq<Issue>)
    requires COVERED_NAMES <= factors.Keys && SourceFreshness in factors
  {
    && bound.Keys == factors.Keys
    && RatioTable(bound, issues)
    && bound[HumanReviewStatus] == FactorInput(Some(0.0), "human_review:pending", NotVerified)
    && bound[UnresolvedConflict] == (if forall issue | issue in issues :: issue.status != Conflict
                                     then FactorInput(Some(1.0), "issue_coverage:conflicts", Verified)
                                     else FactorInput(Some(0.0), "issue_coverage:conflicts", Failed))
    && bound[SourceFreshness] == (if factors[SourceFreshness].state.Verified? && "source_freshness:verified" <= factors[SourceFreshness].source
                                  then factors[SourceFreshness] else FactorInput(Some(0.0), "source_freshness:not_verified", NotVerified))
    && (forall name | name in factors && (name.CalculationValidity? || name.TrackBAgreement? || name.Unknown?) :: bound[name] == factors[name])
  }

  lemma RatioRounds(numerator: nat, denominator: nat)
    requires denominator > 0
    ensures var shown := Ratio(numerator, denominator);
            2 * denominator * shown <= 20000 * numerator + denominator < 2 * denominator * (shown + 1)
  {
  }

  lemma MeasuredRounds(numerator: nat, denominator: nat, source: string)
    requires denominator > 0
    ensures RatioFactor(Measured(numerator, denominator, source), numerator, denominator, source)
  {
    RatioRounds(numerator, denominator);
    hide Ratio;
    assert Measured(numerator, denominator, source).value == Some(Ratio(numerator, denominator) as real / 10000.0);
  }

  lemma {:induction false} CoverageByName(name: Name, before: FactorInput, issues: seq<Issue>)
    requires issues != [] && CoveredRoles(issues) + MissingRoles(issues) > 0
    ensures var f := CoverageFactor(name, before, issues);
            match name
            case SourceCompleteness => RatioFactor(f, Count(issues, SourceComplete), |issues|, "issue_coverage:source_complete")
            case Traceability => RatioFactor(f, Count(issues, Traceable), |issues|, "issue_coverage:traceable")
            case ParseQuality => RatioFactor(f, Count(issues, ParseGapFree), |issues|, "issue_coverage:parse_gap_free")
            case RuleCoverage => RatioFactor(f, CoveredRoles(issues), CoveredRoles(issues) + MissingRoles(issues), "issue_coverage:required_roles")
            case InputCompleteness => RatioFactor(f, Count(issues, CompleteInputs), |issues|, "issue_coverage:complete_inputs")
            case _ => true
  {
    hide Measured, CoveredRoles, MissingRoles, Count, RatioFactor;
    match name
    case SourceCompleteness => MeasuredRounds(Count(issues, SourceComplete), |issues|, "issue_coverage:source_complete");
    case Traceability => MeasuredRounds(Count(issues, Traceable), |issues|, "issue_coverage:traceable");
    case ParseQuality => MeasuredRounds(Count(issues, ParseGapFree), |issues|, "issue_coverage:parse_gap_free");
    case RuleCoverage => MeasuredRounds(CoveredRoles(issues), CoveredRoles(issues) + MissingRoles(issues), "issue_coverage:required_roles");
    case InputCompleteness => MeasuredRounds(Count(issues, CompleteInputs), |issues|, "issue_coverage:complete_inputs");
    case _ =>
  }

  lemma {:induction false} OtherByName(name: Name, before: FactorInput, issues: seq<Issue>)
    requires issues != [] && CoveredRoles(issues) + MissingRoles(issues) > 0
    ensures CoverageFactor(HumanReviewStatus, before, issues) == FactorInput(Some(0.0), "human_review:pending", NotVerified)
    ensures CoverageFactor(UnresolvedConflict, before, issues) == if Count(issues, Conflicting) == 0
              then FactorInput(Some(1.0), "issue_coverage:conflicts", Verified) else FactorInput(Some(0.0), "issue_coverage:conflicts", Failed)
    ensures CoverageFactor(SourceFreshness, before, issues) == if before.state.Verified? && "source_freshness:verified" <= before.source
              then before else FactorInput(Some(0.0), "source_freshness:not_verified", NotVerified)
    ensures name.CalculationValidity? || name.TrackBAgreement? || name.Unknown? ==> CoverageFactor(name, before, issues) == before
  {
    hide Measured, CoveredRoles, MissingRoles, Count;
  }

  lemma {:induction false} RatiosTabulated(factors: Factors, issues: seq<Issue>)
    requires COVERED_NAMES <= factors.Keys && issues != [] && CoveredRoles(issues) + MissingRoles(issues) > 0
    ensures RatioTable(Covered(factors, issues), issues)
  {
    CountsMean(issues);
    hide CoverageFactor, Measured, CoveredRoles, MissingRoles, Count, RatioFactor, Covered, WithSources, Cited, Settled, Parsed;
    CoverageByName(SourceCompleteness, factors[SourceCompleteness], issues);
    CoverageByName(Traceability, factors[Traceability], issues);
    CoverageByName(ParseQuality, factors[ParseQuality], issues);
    CoverageByName(RuleCoverage, factors[RuleCoverage], issues);
    CoverageByName(InputCompleteness, factors[InputCompleteness], issues);
  }

  lemma {:induction false} CoverageTabulated(factors: Factors, issues: seq<Issue>)
    requires COVERED_NAMES <= factors.Keys && SourceFreshness in factors
    requires issues != [] && CoveredRoles(issues) + MissingRoles(issues) > 0
    ensures CoverageTable(factors, Covered(factors, issues), issues)
  {
    hide CoverageFactor, CoveredRoles, MissingRoles, Count, RatioTable, Covered;
    RatiosTabulated(factors, issues);
    OtherByName(HumanReviewStatus, factors[HumanReviewStatus], issues);
    OtherByName(UnresolvedConflict, factors[UnresolvedConflict], issues);
    OtherByName(SourceFreshness, factors[SourceFreshness], issues);
    forall name | name in factors && (name.CalculationValidity? || name.TrackBAgreement? || name.Unknown?)
      ensures Covered(factors, issues)[name] == factors[name]
    {
      OtherByName(name, factors[name], issues);
    }
  }

  /** The measured completeness of inputs is perfect exactly when every issue is determinate with no
      missing role, as long as there are fewer than twenty thousand issues. */
  lemma {:induction false} CompletenessMeans(issues: seq<Issue>)
    requires 0 < |issues| < 20000
    ensures Measured(Count(issues, CompleteInputs), |issues|, "").value == Some(1.0)
            <==> forall issue | issue in issues :: Complete(issue) && issue.missing == 0
  {
    RatioMatchesState(Count(issues, CompleteInputs), |issues|);
    RatioShowsOne(Count(issues, CompleteInputs), |issues|);
    var ratio := Ratio(Count(issues, CompleteInputs), |issues|);
    assert ratio as real / 10000.0 == 1.0 <==> ratio == 10000;
  }

  // ---------------------------------------------------------------- the finalizer's own factors

  datatype Gate = Pass | GateFailed | GateNotVerified

  function CalculationFactor(statuses: seq<bool>): FactorInput {
    if statuses == [] then Exactly(0.0, "calculation:none", NotApplicable)
    else if forall status | status in statuses :: status then Exactly(1.0, "calculation:approved_results", Verified)
    else Exactly(0.0, "calculation:failed_result", Failed)
  }

  function TrackBFactor(gate: Gate): FactorInput {
    match gate
    case Pass => Exactly(1.0, "track_b:semantic_gate=PASS", Verified)
    case GateFailed => Exactly(0.0, "track_b:semantic_gate=FAILED", Failed)
    case GateNotVerified => Exactly(0.0, "track_b:semantic_gate=NOT_VERIFIED", NotVerified)
  }

  /** What the finalizer scores: two factors are bound anew. */
  function FinalFactors(factors: Factors, statuses: seq<bool>, gate: Gate): Factors {
    map name | name in factors ::
      if name.CalculationValidity? then CalculationFactor(statuses) else if name.TrackBAgreement? then TrackBFactor(gate) else factors[name]
  }

  method FinalizerConfidenceFactors(factors: Factors, statuses: seq<bool>, gate: Gate) returns (bound: Factors)
    ensures bound == FinalFactors(factors, statuses, gate)
    ensures FinalTable(factors, bound, statuses, gate)
  {
    hide FinalTable;
    bound := factors;
    if CalculationValidity in bound {
      bound := bound[CalculationValidity := CalculationFactor(statuses)];
    }
    if TrackBAgreement in bound {
      bound := bound[TrackBAgreement := TrackBFactor(gate)];
    }
    FinalTabulated(factors, statuses, gate);
  }

  lemma FinalTabulated(factors: Factors, statuses: seq<bool>, gate: Gate)
    ensures FinalTable(factors, FinalFactors(factors, statuses, gate), statuses, gate)
  {
    assert false in statuses <==> !forall status | status in statuses :: status;
  }

  /** The finalizer binds the calculations and Track B, and nothing else. */
  ghost predicate FinalTable(factors: Factors, bound: Factors, statuses: seq<bool>, gate: Gate) {
    && bound.Keys == factors.Keys
    && (CalculationValidity in bound && statuses == [] ==>
          bound[CalculationValidity] == FactorInput(Some(0.0), "calculation:none", NotApplicable))
    && (CalculationValidity in bound && false in statuses ==>
          bound[CalculationValidity] == FactorInput(Some(0.0), "calculation:failed_result", Failed))
    && (CalculationValidity in bound && statuses != [] && false !in statuses ==>
          bound[CalculationValidity] == FactorInput(Some(1.0), "calculation:approved_results", Verified))
    && (TrackBAgreement in bound && gate.Pass? ==>
          bound[TrackBAgreement] == FactorInput(Some(1.0), "track_b:semantic_gate=PASS", Verified))
    && (TrackBAgreement in bound && gate.GateFailed? ==>
          bound[TrackBAgreement] == FactorInput(Some(0.0), "track_b:semantic_gate=FAILED", Failed))
    && (TrackBAgreement in bound && gate.GateNotVerified? ==>
          bound[TrackBAgreement] == FactorInput(Some(0.0), "track_b:semantic_gate=NOT_VERIFIED", NotVerified))
    && (forall name | name in factors && !name.CalculationValidity? && !name.TrackBAgreement? :: bound[name] == factors[name])
  }

  // ---------------------------------------------------------------- the factors of a run

  /** What a run's factors come from: the request, and the measured coverage of a planned question. */
  datatype Origin = Origin(available: bool, source: string, initial: seq<bool>, coverage: Option<seq<Issue>>) {
    /** Coverage can be applied: there are issues, and they declare at least one role. */
    predicate Measurable() {
      coverage.Some? ==> coverage.value != [] && CoveredRoles(coverage.value) + MissingRoles(coverage.value) > 0
    }

    function InitialFactors(): (factors: Factors)
      ensures factors.Keys == (set name | name in FACTORS)
    {
      map name | name in FACTORS :: InitialFactor(name, available, source, initial)
    }

    /** The factors the run records. */
    function RunFactors(): Factors
      requires Measurable()
    {
      if coverage.None? then InitialFactors()
      else Covered(InitialFactors(), coverage.value)
    }

    /** The exact weighted sum the finalizer reaches. */
    function Score(statuses: seq<bool>, gate: Gate): real
      requires Measurable()
    {
      Total(FinalFactors(RunFactors(), statuses, gate))
    }
  }

  // ---------------------------------------------------------------- the bound on the way

  /** No human review and no verified freshness. */
  ghost predicate Unreviewed(factors: Factors) {
    && ValidFactors(factors)
    && HumanReviewStatus in factors && factors[HumanReviewStatus] == Exactly(0.0, PENDING, NotVerified)
    && SourceFreshness in factors && factors[SourceFreshness] == Exactly(0.0, NOT_FRESH, NotVerified)
  }

  lemma InitialIsValid(name: Name, available: bool, source: string, statuses: seq<bool>)
    requires source != ""
    ensures ValidFactor(InitialFactor(name, available, source, statuses))
  {
  }

  lemma InitialIsUnreviewed(factors: Factors, available: bool, source: string, statuses: seq<bool>)
    requires source != "" && factors.Keys == (set name | name in FACTORS)
    requires forall name | name in FACTORS :: factors[name] == InitialFactor(name, available, source, statuses)
    ensures Unreviewed(factors)
  {
    hide ValidFactor;
    PolicyNames();
    forall name | name in FACTORS
      ensures ValidFactor(factors[name])
    {
      InitialIsValid(name, available, source, statuses);
    }
  }

  lemma {:induction false} CoverageKeepsUnreviewed(factors: Factors, bound: Factors, issues: seq<Issue>)
    requires Unreviewed(factors) && issues != [] && CoveredRoles(issues) + MissingRoles(issues) > 0
    requires bound == Covered(factors, issues)
    ensures Unreviewed(bound)
  {
    hide ValidFactor, Measured, CoveredRoles, MissingRoles, Count;
    assert NOT_FRESH[17] != FRESH[17];
    forall name | name in FACTORS
      ensures name in bound && ValidFactor(bound[name])
    {
      CoverageFactorIsValid(name, factors[name], issues);
    }
  }

  lemma FinalizerKeepsUnreviewed(factors: Factors, bound: Factors, statuses: seq<bool>, gate: Gate)
    requires Unreviewed(factors)
    requires bound == FinalFactors(factors, statuses, gate)
    ensures Unreviewed(bound)
  {
  }

  /** The weights of the first `n` factors other than human review and freshness. */
  function OpenWeight(n: nat): real
    requires n <= |FACTORS|
  {
    if n == 0 then 0.0
    else OpenWeight(n - 1) + if FACTORS[n - 1].HumanReviewStatus? || FACTORS[n - 1].SourceFreshness? then 0.0 else Weight(FACTORS[n - 1])
  }

  lemma OpenWeights()
    ensures OpenWeight(|FACTORS|) == 0.87
  {
    assert OpenWeight(2) == 0.35;
    assert OpenWeight(4) == 0.45;
    assert OpenWeight(6) == 0.75;
    assert OpenWeight(8) == 0.85;
  }

  lemma {:induction false} UnreviewedUpTo(factors: Factors, n: nat)
    requires n <= |FACTORS| && Unreviewed(factors)
    ensures 0.0 <= TotalUpTo(factors, n) <= OpenWeight(n)
  {
    if n > 0 {
      UnreviewedUpTo(factors, n - 1);
      var name := FACTORS[n - 1];
      assert name in FACTORS;
      PartWithin(factors, name);
      if name.HumanReviewStatus? || name.SourceFreshness? { NoShare(factors, name); }
      hide Part, Weight, ValidFactors;
    }
  }

  lemma NoShare(factors: Factors, name: Name)
    requires Unreviewed(factors) && (name.HumanReviewStatus? || name.SourceFreshness?)
    ensures Part(factors, name) == 0.0
  {
    hide ValidFactors;
  }

  lemma UnreviewedBound(factors: Factors)
    requires Unreviewed(factors)
    ensures 0.0 <= Total(factors) <= 0.87
  {
    UnreviewedUpTo(factors, |FACTORS|);
    OpenWeights();
  }

  /** What scoring such factors needs and gives. */
  lemma UnreviewedScore(factors: Factors)
    requires Unreviewed(factors)
    ensures ValidFactors(factors) && HumanReviewStatus in factors && factors[HumanReviewStatus].source == PENDING
    ensures 0 <= Quantize(Total(factors)) <= 8700
  {
    UnreviewedBound(factors);
    hide ValidFactors, Total;
  }

  lemma CoveredNamesInitial(o: Origin)
    ensures COVERED_NAMES <= o.InitialFactors().Keys && SourceFreshness in o.InitialFactors()
  {
    PolicyNames();
  }

  /** On the way from the initial factors through coverage, when the question was planned, a run has no
      human review and no verified freshness. */
  lemma RunIsUnreviewed(o: Origin, statuses: seq<bool>, gate: Gate)
    requires o.Measurable() && o.source != ""
    ensures Unreviewed(o.RunFactors()) && Unreviewed(FinalFactors(o.RunFactors(), statuses, gate))
  {
    hide Total, Measured, InitialFactor, CoverageFactor, CalculationFactor, TrackBFactor, CoveredRoles, MissingRoles, Unreviewed;
    var factors := o.InitialFactors();
    InitialIsUnreviewed(factors, o.available, o.source, o.initial);
    if o.coverage.Some? { CoverageKeepsUnreviewed(factors, o.RunFactors(), o.coverage.value); }
    FinalizerKeepsUnreviewed(o.RunFactors(), FinalFactors(o.RunFactors(), statuses, gate), statuses, gate);
  }

  lemma SameInitial(o: Origin, factors: Factors)
    requires factors.Keys == (set name | name in FACTORS)
    requires forall name | name in FACTORS :: factors[name] == InitialFactor(name, o.available, o.source, o.initial)
    ensures factors == o.InitialFactors()
  {
    hide InitialFactor;
  }

  /** A run's confidence is measured before any human review: nothing is scored if coverage cannot be
      applied; otherwise the score is the quantized sum, never exceeds 0.87, and the level is never
      HIGH. */
  method PathScore(o: Origin, statuses: seq<bool>, gate: Gate, failures: seq<string>) returns (result: Confidence)
    requires o.source != ""
    ensures result.Confidence? <==> o.Measurable()
    ensures o.Measurable() ==> result.score == Quantize(o.Score(statuses, gate)) && 0 <= result.score <= 8700
    ensures o.Measurable() ==> result.failures == failures
    ensures o.Measurable() ==> result.level == if failures == [] && result.score >= MEDIUM_THRESHOLD then Medium else Low
  {
    hide Total, ContributionsUpTo, Measured, InitialFactor, CoverageFactor, CalculationFactor, TrackBFactor, CoveredRoles, MissingRoles,
      CoverageTable, FinalTable, InitialTable, Unreviewed, ValidFactors, Quantize, Covered, FinalFactors, Origin.InitialFactors;
    var factors := InitialConfidenceFactors(o.available, o.source, o.initial);
    SameInitial(o, factors);
    CoveredNamesInitial(o);
    if o.coverage.Some? {
      var ok, covered := ApplyIssueCoverageFactors(factors, o.coverage.value);
      if !ok { return Invalid; }
      factors := covered;
    }
    var bound := FinalizerConfidenceFactors(factors, statuses, gate);
    RunIsUnreviewed(o, statuses, gate);
    UnreviewedScore(bound);
    result := ScoreConfidence(bound, failures);
  }
}
