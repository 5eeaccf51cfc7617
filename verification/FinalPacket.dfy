/** The packet of a run: the decision over the score that the run's own factors give. */
module FinalPacket {
  import opened Options
  import opened ConfidenceScore
  import opened ConfidencePath
  import opened FinalDecision

  datatype Packet = Packet(status: PacketStatus, reasons: seq<Reason>, issues: seq<IssueResult>, score: int, level: Level) | NoPacket

  /** The score of a run, in ten-thousandths. */
  function RunScore(o: Origin, e: Evidence): int
    requires o.Measurable()
  {
    Quantize(o.Score(e.calculations, SemanticGate(e.audit)))
  }

  /** Reconciliation, gates and score together.  A packet with a reason against it has level LOW. */
  method DerivePacket(o: Origin, e: Evidence) returns (packet: Packet)
    requires o.source != ""
    ensures packet.Packet? <==> o.Measurable() && AuditsKnown(e)
    ensures packet.Packet? ==> packet.issues == ReconciledAll(e) && packet.score == RunScore(o, e) && 0 <= packet.score <= 8700
    ensures packet.Packet? ==> (packet.status.ReadyForHumanReview? <==> Ready(e, RunScore(o, e)))
    ensures packet.Packet? ==> (packet.status.PartiallyResolved? <==> Partial(e))
    ensures packet.Packet? ==> (packet.status.Abstain? <==> packet.reasons != [])
    ensures packet.Packet? ==> forall reason :: reason in packet.reasons <==> Stands(e, RunScore(o, e), reason)
    ensures packet.Packet? ==> InPolicyOrder(packet.reasons)
    ensures packet.Packet? ==> !packet.level.High? && (packet.status.ReadyForHumanReview? ==> packet.level.Medium?)
    ensures packet.Packet? && packet.status.Abstain? ==> packet.level.Low?
    ensures packet.Packet? && o.coverage.None? ==>
      packet.score == UnplannedSum(o.available, e.calculations, SemanticGate(e.audit))
      && (packet.status.ReadyForHumanReview? <==> Ready(e, MEDIUM_THRESHOLD) && o.available)
  {
    if o.coverage.None? {
      UnplannedScore(o, e.calculations, SemanticGate(e.audit));
      ReadyOfUnplannedRun(o, e);
    }
    hide Ready, Partial, AuditsKnown, ReconciledAll, Origin.Measurable, Origin.Score, EvaluateAbstentionGates, ContextOf, Stands, Place;
    var confidence := PathScore(o, e.calculations, SemanticGate(e.audit), []);
    if !confidence.Confidence? { return NoPacket; }
    var decision := Decide(e, confidence.score);
    if !decision.Decision? { return NoPacket; }
    if decision.status.ReadyForHumanReview? { ReadyScore(e, confidence.score); }
    packet := Packet(decision.status, decision.reasons, decision.issues, confidence.score,
                     if decision.reasons != [] then Low else confidence.level);
  }

  lemma ReadyScore(e: Evidence, score: int)
    requires Ready(e, score)
    ensures score >= MEDIUM_THRESHOLD
  {
  }

  // ---------------------------------------------------------------- the score of a planned question

  /** The five measured ratios in ten-thousandths, weighted in hundredths. */
  function MeasuredSum(issues: seq<Issue>): int
    requires issues != [] && CoveredRoles(issues) + MissingRoles(issues) > 0
  {
    20 * Ratio(Count(issues, SourceComplete), |issues|) + 15 * Ratio(Count(issues, Traceable), |issues|)
    + 10 * Ratio(Count(issues, ParseGapFree), |issues|) + 15 * Ratio(CoveredRoles(issues), CoveredRoles(issues) + MissingRoles(issues))
    + 15 * Ratio(Count(issues, CompleteInputs), |issues|)
  }

  /** Millionths that do not come from ratios: calculations, Track B and the absence of conflict. */
  function ObservedSum(issues: seq<Issue>, calculations: seq<bool>, gate: Gate): int {
    (if calculations != [] && forall success | success in calculations :: success then 50000 else 0)
    + (if gate.Pass? then 50000 else 0) + (if Count(issues, Conflicting) > 0 then 0 else 20000)
  }

  /** The exact sum of a planned run, in millionths. */
  lemma PlannedScore(o: Origin, calculations: seq<bool>, gate: Gate)
    requires o.Measurable() && o.coverage.Some?
    ensures o.Score(calculations, gate) * 1000000.0 == (MeasuredSum(o.coverage.value) + ObservedSum(o.coverage.value, calculations, gate)) as real
  {
    hide Count, CoveredRoles, MissingRoles, Ratio, Value, Origin.RunFactors, FinalFactors, Total;
    var issues, factors := o.coverage.value, FinalFactors(o.RunFactors(), calculations, gate);
    FactorValues(o, calculations, gate);
    TenParts(factors);
    InMillionths(Total(factors),
                 Ratio(Count(issues, SourceComplete), |issues|), Ratio(Count(issues, Traceable), |issues|),
                 Ratio(Count(issues, ParseGapFree), |issues|), Ratio(CoveredRoles(issues), CoveredRoles(issues) + MissingRoles(issues)),
                 Ratio(Count(issues, CompleteInputs), |issues|),
                 calculations != [] && (forall success | success in calculations :: success), gate.Pass?, !(Count(issues, Conflicting) > 0));
  }

  function One(b: bool): real { if b then 1.0 else 0.0 }

  lemma InMillionths(total: real, a: int, b: int, c: int, d: int, e: int, x: bool, y: bool, z: bool)
    requires total == a as real / 10000.0 * 0.20 + b as real / 10000.0 * 0.15 + c as real / 10000.0 * 0.10 + 0.0 * 0.10
                      + d as real / 10000.0 * 0.15 + e as real / 10000.0 * 0.15 + One(x) * 0.05 + One(y) * 0.05 + 0.0 * 0.03 + One(z) * 0.02
    ensures total * 1000000.0
            == (20 * a + 15 * b + 10 * c + 15 * d + 15 * e
                + ((if x then 50000 else 0) + (if y then 50000 else 0) + (if z then 20000 else 0))) as real
  {
  }

  lemma TenParts(factors: Factors)
    ensures Total(factors) ==
      Value(factors, SourceCompleteness) * 0.20 + Value(factors, Traceability) * 0.15 + Value(factors, ParseQuality) * 0.10
      + Value(factors, HumanReviewStatus) * 0.10 + Value(factors, RuleCoverage) * 0.15 + Value(factors, InputCompleteness) * 0.15
      + Value(factors, CalculationValidity) * 0.05 + Value(factors, TrackBAgreement) * 0.05 + Value(factors, SourceFreshness) * 0.03
      + Value(factors, UnresolvedConflict) * 0.02
  {
    hide Value;
    assert TotalUpTo(factors, 0) == 0.0 && TotalUpTo(factors, 1) == Value(factors, SourceCompleteness) * 0.20;
    assert TotalUpTo(factors, 2) == Value(factors, SourceCompleteness) * 0.20 + Value(factors, Traceability) * 0.15;
    assert TotalUpTo(factors, 4) == TotalUpTo(factors, 2) + Value(factors, ParseQuality) * 0.10 + Value(factors, HumanReviewStatus) * 0.10;
    assert TotalUpTo(factors, 6) == TotalUpTo(factors, 4) + Value(factors, RuleCoverage) * 0.15 + Value(factors, InputCompleteness) * 0.15;
    assert TotalUpTo(factors, 8) == TotalUpTo(factors, 6) + Value(factors, CalculationValidity) * 0.05 + Value(factors, TrackBAgreement) * 0.05;
    assert TotalUpTo(factors, 10) == TotalUpTo(factors, 8) + Value(factors, SourceFreshness) * 0.03 + Value(factors, UnresolvedConflict) * 0.02;
  }

  /** The factor of a planned run, before and after finalization. */
  lemma RunFactor(o: Origin, calculations: seq<bool>, gate: Gate, name: Name)
    requires o.Measurable() && o.coverage.Some? && !name.Unknown?
    ensures var factors := FinalFactors(o.RunFactors(), calculations, gate);
            name in factors && factors[name] ==
              if name.CalculationValidity? then CalculationFactor(calculations) else if name.TrackBAgreement? then TrackBFactor(gate)
              else CoverageFactor(name, InitialFactor(name, o.available, o.source, o.initial), o.coverage.value)
  {
    PolicyNames();
    hide CoverageFactor, InitialFactor, CalculationFactor, TrackBFactor, CoveredRoles, MissingRoles;
  }

  lemma FactorValues(o: Origin, calculations: seq<bool>, gate: Gate)
    requires o.Measurable() && o.coverage.Some?
    ensures var issues, factors := o.coverage.value, FinalFactors(o.RunFactors(), calculations, gate);
            && Value(factors, SourceCompleteness) == Ratio(Count(issues, SourceComplete), |issues|) as real / 10000.0
            && Value(factors, Traceability) == Ratio(Count(issues, Traceable), |issues|) as real / 10000.0
            && Value(factors, ParseQuality) == Ratio(Count(issues, ParseGapFree), |issues|) as real / 10000.0
            && Value(factors, RuleCoverage) == Ratio(CoveredRoles(issues), CoveredRoles(issues) + MissingRoles(issues)) as real / 10000.0
            && Value(factors, InputCompleteness) == Ratio(Count(issues, CompleteInputs), |issues|) as real / 10000.0
    ensures var issues, factors := o.coverage.value, FinalFactors(o.RunFactors(), calculations, gate);
            && Value(factors, HumanReviewStatus) == 0.0 == Value(factors, SourceFreshness)
            && Value(factors, CalculationValidity) == One(calculations != [] && forall success | success in calculations :: success)
            && Value(factors, TrackBAgreement) == One(gate.Pass?)
            && Value(factors, UnresolvedConflict) == One(!(Count(issues, Conflicting) > 0))
  {
    hide Count, CoveredRoles, MissingRoles, Ratio, CoverageState, FinalFactors, Origin.RunFactors, Origin.Measurable, CalculationFactor,
      TrackBFactor, InitialFactor, Fresh, One, Value, CoverageFactor, Measured;
    RatioValue(o, calculations, gate, SourceCompleteness);
    RatioValue(o, calculations, gate, Traceability);
    RatioValue(o, calculations, gate, ParseQuality);
    RatioValue(o, calculations, gate, RuleCoverage);
    RatioValue(o, calculations, gate, InputCompleteness);
    OtherValue(o, calculations, gate, HumanReviewStatus);
    OtherValue(o, calculations, gate, SourceFreshness);
    OtherValue(o, calculations, gate, CalculationValidity);
    OtherValue(o, calculations, gate, TrackBAgreement);
    OtherValue(o, calculations, gate, UnresolvedConflict);
  }

  lemma RatioValue(o: Origin, calculations: seq<bool>, gate: Gate, name: Name)
    requires o.Measurable() && o.coverage.Some?
    ensures var issues, value := o.coverage.value, Value(FinalFactors(o.RunFactors(), calculations, gate), name);
            match name
            case SourceCompleteness => value == Ratio(Count(issues, SourceComplete), |issues|) as real / 10000.0
            case Traceability => value == Ratio(Count(issues, Traceable), |issues|) as real / 10000.0
            case ParseQuality => value == Ratio(Count(issues, ParseGapFree), |issues|) as real / 10000.0
            case RuleCoverage => value == Ratio(CoveredRoles(issues), CoveredRoles(issues) + MissingRoles(issues)) as real / 10000.0
            case InputCompleteness => value == Ratio(Count(issues, CompleteInputs), |issues|) as real / 10000.0
            case _ => true
  {
    hide Count, CoveredRoles, MissingRoles, Ratio, CoverageState, FinalFactors, Origin.RunFactors, Origin.Measurable, CalculationFactor,
      TrackBFactor, InitialFactor, Fresh;
    if !name.Unknown? { RunFactor(o, calculations, gate, name); }
  }

  lemma OtherValue(o: Origin, calculations: seq<bool>, gate: Gate, name: Name)
    requires o.Measurable() && o.coverage.Some?
    ensures var issues, value := o.coverage.value, Value(FinalFactors(o.RunFactors(), calculations, gate), name);
            match name
            case HumanReviewStatus => value == 0.0
            case SourceFreshness => value == 0.0
            case CalculationValidity => value == One(calculations != [] && forall success | success in calculations :: success)
            case TrackBAgreement => value == One(gate.Pass?)
            case UnresolvedConflict => value == One(!(Count(issues, Conflicting) > 0))
            case _ => true
  {
    hide Count, CoveredRoles, MissingRoles, Ratio, Measured, FinalFactors, Origin.RunFactors, Origin.Measurable, CalculationFactor,
      TrackBFactor, InitialFactor, Fresh;
    if !name.Unknown? { RunFactor(o, calculations, gate, name); }
    ObservedValues(o, calculations, gate);
  }

  lemma ObservedValues(o: Origin, calculations: seq<bool>, gate: Gate)
    ensures CalculationFactor(calculations).value == Some(One(calculations != [] && forall success | success in calculations :: success))
    ensures TrackBFactor(gate).value == Some(One(gate.Pass?))
    ensures !Fresh(InitialFactor(SourceFreshness, o.available, o.source, o.initial))
  {
  }

  lemma QuantizedAtLeast(value: real, score: int)
    ensures Quantize(value) >= score <==> value * 10000.0 + 0.5 >= score as real
  {
  }

  /** READY over the factors a planned run really has: every gate and issue as in `Ready`, and a weighted
      sum of the measured coverage of at least 0.69995. */
  lemma ReadyOfPlannedRun(o: Origin, e: Evidence)
    requires o.Measurable() && o.coverage.Some?
    ensures Ready(e, RunScore(o, e)) <==>
              Ready(e, MEDIUM_THRESHOLD)
              && MeasuredSum(o.coverage.value) + ObservedSum(o.coverage.value, e.calculations, SemanticGate(e.audit)) >= 699950
  {
    PlannedScore(o, e.calculations, SemanticGate(e.audit));
    QuantizedAtLeast(o.Score(e.calculations, SemanticGate(e.audit)), MEDIUM_THRESHOLD);
    hide GatesOpen, NoScopedFinding, Determinate, MeasuredSum, ObservedSum, Origin.Score, Origin.Measurable, Quantize, SemanticGate;
  }

  /** Coverage without any gap: every issue determinate, traceable and parsed, from complete sources. */
  predicate Flawless(issues: seq<Issue>) {
    forall issue | issue in issues :: Traceable(issue) && SourceComplete(issue) && ParseGapFree(issue)
  }

  /** A run whose coverage has no gap is READY exactly when every gate is open and every issue of the
      packet determinate; its score is then 0.87, or 0.82 without calculations. */
  lemma FlawlessRun(o: Origin, e: Evidence)
    requires o.Measurable() && o.coverage.Some? && Flawless(o.coverage.value)
    ensures Ready(e, RunScore(o, e)) <==> Ready(e, MEDIUM_THRESHOLD)
    ensures Ready(e, MEDIUM_THRESHOLD) ==> RunScore(o, e) == if e.calculations == [] then 8200 else 8700
  {
    var issues, gate := o.coverage.value, SemanticGate(e.audit);
    FlawlessSum(issues);
    ReadyOfPlannedRun(o, e);
    PlannedScore(o, e.calculations, gate);
    if Ready(e, MEDIUM_THRESHOLD) { OpenGates(e, issues); }
    hide Ready, MeasuredSum, ObservedSum, Origin.Score, SemanticGate;
    if Ready(e, MEDIUM_THRESHOLD) {
      var score := o.Score(e.calculations, gate);
      assert score == if e.calculations == [] then 0.82 else 0.87;
    }
  }

  lemma {:induction false} OpenGates(e: Evidence, issues: seq<Issue>)
    requires Ready(e, MEDIUM_THRESHOLD) && Count(issues, Conflicting) == 0
    ensures ObservedSum(issues, e.calculations, SemanticGate(e.audit)) == if e.calculations == [] then 70000 else 120000
  {
    hide Determinate, NoScopedFinding, HasFinding;
  }

  lemma {:induction false} FlawlessSum(issues: seq<Issue>)
    requires issues != [] && CoveredRoles(issues) + MissingRoles(issues) > 0 && Flawless(issues)
    ensures MeasuredSum(issues) == 750000 && Count(issues, Conflicting) == 0
  {
    RatioShowsOne(|issues|, |issues|);
    RatioShowsOne(CoveredRoles(issues), CoveredRoles(issues));
    hide CoveredRoles, Ratio;
    assert Count(issues, SourceComplete) == Count(issues, Traceable) == Count(issues, ParseGapFree) == Count(issues, CompleteInputs) == |issues|;
    assert MissingRoles(issues) == 0;
  }

  // ---------------------------------------------------------------- the score without measured coverage

  /** Ten-thousandths of a run that was not planned: the evidence, the three factors taken for granted,
      the calculations and Track B. */
  function UnplannedSum(available: bool, calculations: seq<bool>, gate: Gate): int {
    (if available then 5000 else 0) + 2700 + (if calculations == [] || false in calculations then 0 else 500) + (if gate.Pass? then 500 else 0)
  }

  /** The factor of such a run, before and after finalization. */
  lemma UnplannedFactor(o: Origin, calculations: seq<bool>, gate: Gate, name: Name)
    requires o.coverage.None? && !name.Unknown?
    ensures var factors := FinalFactors(o.RunFactors(), calculations, gate);
            name in factors && factors[name] ==
              if name.CalculationValidity? then CalculationFactor(calculations) else if name.TrackBAgreement? then TrackBFactor(gate)
              else InitialFactor(name, o.available, o.source, o.initial)
  {
    hide InitialFactor, CalculationFactor, TrackBFactor, Origin.RunFactors, Origin.InitialFactors;
    InitialRun(o);
    InitialOf(o, name);
  }

  /** What the factors of such a run are worth. */
  lemma UnplannedValue(o: Origin, calculations: seq<bool>, gate: Gate, name: Name)
    requires o.coverage.None?
    ensures var value := Value(FinalFactors(o.RunFactors(), calculations, gate), name);
            match name
            case SourceCompleteness => value == One(o.available)
            case Traceability => value == One(o.available)
            case InputCompleteness => value == One(o.available)
            case CalculationValidity => value == One(!(calculations == [] || false in calculations))
            case TrackBAgreement => value == One(gate.Pass?)
            case HumanReviewStatus => value == 0.0
            case SourceFreshness => value == 0.0
            case Unknown(_) => true
            case _ => value == 1.0
  {
    hide Origin.RunFactors, FinalFactors, CalculationFactor, TrackBFactor;
    if !name.Unknown? { UnplannedFactor(o, calculations, gate, name); }
    Observations(calculations, gate);
  }

  lemma InitialRun(o: Origin)
    requires o.coverage.None?
    ensures o.RunFactors() == o.InitialFactors()
  {
  }

  lemma InitialOf(o: Origin, name: Name)
    requires !name.Unknown?
    ensures name in o.InitialFactors() && o.InitialFactors()[name] == InitialFactor(name, o.available, o.source, o.initial)
  {
    PolicyNames();
  }

  lemma Observations(calculations: seq<bool>, gate: Gate)
    ensures CalculationFactor(calculations).value == Some(One(!(calculations == [] || false in calculations)))
    ensures TrackBFactor(gate).value == Some(One(gate.Pass?))
    ensures One(true) == 1.0 && One(false) == 0.0
  {
    assert false in calculations <==> !forall success | success in calculations :: success;
  }

  /** The score of a run without measured coverage is exactly that sum. */
  lemma UnplannedScore(o: Origin, calculations: seq<bool>, gate: Gate)
    requires o.coverage.None?
    ensures o.Score(calculations, gate) * 10000.0 == UnplannedSum(o.available, calculations, gate) as real
    ensures Quantize(o.Score(calculations, gate)) == UnplannedSum(o.available, calculations, gate)
  {
    hide Value, FinalFactors, Origin.RunFactors, Total, Quantize;
    var factors := FinalFactors(o.RunFactors(), calculations, gate);
    UnplannedValue(o, calculations, gate, SourceCompleteness);
    UnplannedValue(o, calculations, gate, Traceability);
    UnplannedValue(o, calculations, gate, ParseQuality);
    UnplannedValue(o, calculations, gate, HumanReviewStatus);
    UnplannedValue(o, calculations, gate, RuleCoverage);
    UnplannedValue(o, calculations, gate, InputCompleteness);
    UnplannedValue(o, calculations, gate, CalculationValidity);
    UnplannedValue(o, calculations, gate, TrackBAgreement);
    UnplannedValue(o, calculations, gate, SourceFreshness);
    UnplannedValue(o, calculations, gate, UnresolvedConflict);
    TenParts(factors);
    InTenThousandths(Total(factors), o.available, !(calculations == [] || false in calculations), gate.Pass?);
    QuantizeWhole(Total(factors), UnplannedSum(o.available, calculations, gate));
  }

  lemma InTenThousandths(total: real, available: bool, calculated: bool, passed: bool)
    requires total == One(available) * 0.20 + One(available) * 0.15 + 1.0 * 0.10 + 0.0 * 0.10 + 1.0 * 0.15 + One(available) * 0.15
                      + One(calculated) * 0.05 + One(passed) * 0.05 + 0.0 * 0.03 + 1.0 * 0.02
    ensures total * 10000.0 == ((if available then 5000 else 0) + 2700 + (if calculated then 500 else 0) + (if passed then 500 else 0)) as real
  {
  }

  lemma QuantizeWhole(value: real, score: int)
    requires value * 10000.0 == score as real
    ensures Quantize(value) == score
  {
  }

  /** Without measured coverage a packet is READY exactly when every gate is open, every issue
      determinate and the evidence available; its score is then 0.87, or 0.82 without calculations. */
  lemma ReadyOfUnplannedRun(o: Origin, e: Evidence)
    requires o.coverage.None?
    ensures Ready(e, RunScore(o, e)) <==> Ready(e, MEDIUM_THRESHOLD) && o.available
    ensures Ready(e, RunScore(o, e)) ==> RunScore(o, e) == if e.calculations == [] then 8200 else 8700
  {
    UnplannedScore(o, e.calculations, SemanticGate(e.audit));
    hide NoScopedFinding, Determinate, HasFinding, Origin.Score;
  }
}
