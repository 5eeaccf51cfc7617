/** The confidence score: ten weighted factors, rounded half up to ten-thousandths.

    Decimal strings are exact reals; a score of 0.8700 is the integer 8700. */
module ConfidenceScore {
  import opened Options

  datatype Name =
    | SourceCompleteness | Traceability | ParseQuality | HumanReviewStatus | RuleCoverage
    | InputCompleteness | CalculationValidity | TrackBAgreement | SourceFreshness | UnresolvedConflict
    | Unknown(name: string)

  const FACTORS: seq<Name> :=
    [SourceCompleteness, Traceability, ParseQuality, HumanReviewStatus, RuleCoverage,
     InputCompleteness, CalculationValidity, TrackBAgreement, SourceFreshness, UnresolvedConflict]

  function Weight(name: Name): real {
    match name
    case SourceCompleteness => 0.20
    case Traceability => 0.15
    case ParseQuality => 0.10
    case HumanReviewStatus => 0.10
    case RuleCoverage => 0.15
    case InputCompleteness => 0.15
    case CalculationValidity => 0.05
    case TrackBAgreement => 0.05
    case SourceFreshness => 0.03
    case UnresolvedConflict => 0.02
    case Unknown(_) => 0.0
  }

  datatype FactorState = Verified | Failed | NotVerified | NotApplicable

  /** The value is absent when its text is not a finite decimal. */
  datatype FactorInput = FactorInput(value: Option<real>, source: string, state: FactorState)

  datatype Level = Low | Medium | High

  datatype Contribution = Contribution(name: Name, value: int, contribution: int, source: string, state: FactorState)

  datatype Confidence = Confidence(score: int, level: Level, contributions: seq<Contribution>, failures: seq<string>) | Invalid

  type Factors = map<Name, FactorInput>

  /** Half a unit is rounded up. */
  function Quantize(value: real): int { (value * 10000.0 + 0.5).Floor }

  const HIGH_THRESHOLD := 9000
  const MEDIUM_THRESHOLD := 7000
  const PENDING := "human_review:pending"

  predicate ValidFactor(factor: FactorInput) {
    factor.source != "" && factor.value.Some? && 0.0 <= factor.value.value <= 1.0
  }

  /** Every factor of the policy is supplied, and no other. */
  predicate ExactNames(factors: Factors) {
    (forall name | name in FACTORS :: name in factors) && (forall name | name in factors :: name in FACTORS)
  }

  ghost predicate ValidFactors(factors: Factors) {
    ExactNames(factors) && forall name | name in FACTORS :: ValidFactor(factors[name])
  }

  function Value(factors: Factors, name: Name): real {
    if name in factors && factors[name].value.Some? then factors[name].value.value else 0.0
  }

  function Share(value: real, name: Name): real { value * Weight(name) }

  function Part(factors: Factors, name: Name): real { Share(Value(factors, name), name) }

  function TotalUpTo(factors: Factors, n: nat): real
    requires n <= |FACTORS|
  {
    if n == 0 then 0.0 else TotalUpTo(factors, n - 1) + Part(factors, FACTORS[n - 1])
  }

  function Total(factors: Factors): real { TotalUpTo(factors, |FACTORS|) }

  function LevelOf(score: int, failures: seq<string>, pending: bool): (level: Level)
    ensures level.High? <==> failures == [] && score >= 9000 && !pending
    ensures level.Low? <==> failures != [] || score < 7000
  {
    if failures != [] || score < MEDIUM_THRESHOLD then Low
    else if pending then Medium
    else if score >= HIGH_THRESHOLD then High
    else Medium
  }

  function ContributionsUpTo(factors: Factors, n: nat): (contributions: seq<Contribution>)
    requires n <= |FACTORS| && forall name | name in FACTORS :: name in factors
    ensures |contributions| == n
    ensures forall i | 0 <= i < n ::
      var name := FACTORS[i];
      && name in factors
      && contributions[i] == Contribution(name, Quantize(Value(factors, name)), Quantize(Share(Value(factors, name), name)),
                                          factors[name].source, factors[name].state)
  {
    if n == 0 then []
    else
      var name := FACTORS[n - 1];
      assert name in FACTORS;
      ContributionsUpTo(factors, n - 1) + [Contribution(name, Quantize(Value(factors, name)), Quantize(Part(factors, name)),
                                                        factors[name].source, factors[name].state)]
  }

  /** The weighted sum, or nothing if a factor is malformed. */
  method Accumulate(factors: Factors) returns (ok: bool, total: real, contributions: seq<Contribution>)
    requires ExactNames(factors)
    ensures ok <==> forall i | 0 <= i < |FACTORS| :: ValidFactor(factors[FACTORS[i]])
    ensures ok ==> total == Total(factors) && contributions == ContributionsUpTo(factors, |FACTORS|)
  {
    hide TotalUpTo, ContributionsUpTo, Share, Quantize, ExactNames;
    NamesSupplied(factors);
    ok, contributions, total := true, [], 0.0;
    NoContributions(factors);
    for n := 0 to |FACTORS|
      invariant ok && total == TotalUpTo(factors, n) && contributions == ContributionsUpTo(factors, n)
      invariant forall i | 0 <= i < n :: ValidFactor(factors[FACTORS[i]])
    {
      var name := FACTORS[n];
      var factor := factors[name];
      if !ValidFactor(factor) { return false, total, contributions; }
      OneMoreContribution(factors, n);
      var contribution := Share(factor.value.value, name);
      total := total + contribution;
      contributions := contributions
        + [Contribution(name, Quantize(factor.value.value), Quantize(contribution), factor.source, factor.state)];
    }
  }

  /** The ten factors of the policy, each from a named source and with a value between zero and one. */
  ghost predicate Scorable(factors: Factors) {
    && factors.Keys == {SourceCompleteness, Traceability, ParseQuality, HumanReviewStatus, RuleCoverage, InputCompleteness,
                        CalculationValidity, TrackBAgreement, SourceFreshness, UnresolvedConflict}
    && forall name | name in factors ::
         factors[name].source != "" && factors[name].value.Some? && 0.0 <= factors[name].value.value <= 1.0
  }

  method ScoreConfidence(factors: Factors, failures: seq<string>) returns (result: Confidence)
    ensures result.Confidence? <==> Scorable(factors)
    ensures ValidFactors(factors) ==>
      result == Confidence(Quantize(Total(factors)), LevelOf(Quantize(Total(factors)), failures, factors[HumanReviewStatus].source == PENDING),
                           ContributionsUpTo(factors, |FACTORS|), failures)
  {
    assert HumanReviewStatus == FACTORS[3];
    ValidMeans(factors);
    hide ContributionsUpTo, Total, Quantize, LevelOf, ValidFactor, Scorable;
    if !ExactNames(factors) { return Invalid; }
    var ok, total, contributions := Accumulate(factors);
    if !ok { return Invalid; }
    var score := Quantize(total);
    return Confidence(score, LevelOf(score, failures, factors[HumanReviewStatus].source == PENDING), contributions, failures);
  }

  lemma {:induction false} ValidMeans(factors: Factors)
    ensures ValidFactors(factors) <==> Scorable(factors)
  {
    PolicyNames();
    var names: set<Name> := {SourceCompleteness, Traceability, ParseQuality, HumanReviewStatus, RuleCoverage, InputCompleteness,
                             CalculationValidity, TrackBAgreement, SourceFreshness, UnresolvedConflict};
    assert forall name: Name :: name in names <==> !name.Unknown?;
    assert ExactNames(factors) <==> factors.Keys == names;
  }

  lemma NamesSupplied(factors: Factors)
    requires ExactNames(factors)
    ensures forall i | 0 <= i < |FACTORS| :: FACTORS[i] in factors
    ensures forall name | name in FACTORS :: name in factors
  {
  }

  lemma {:induction false} NoContributions(factors: Factors)
    requires ExactNames(factors)
    ensures TotalUpTo(factors, 0) == 0.0 && ContributionsUpTo(factors, 0) == []
  {
  }

  lemma OneMoreContribution(factors: Factors, n: nat)
    requires n < |FACTORS| && ExactNames(factors) && FACTORS[n] in factors
    requires factors[FACTORS[n]].value.Some?
    ensures var name, value := FACTORS[n], factors[FACTORS[n]].value.value;
            && TotalUpTo(factors, n + 1) == TotalUpTo(factors, n) + Share(value, name)
            && ContributionsUpTo(factors, n + 1) == ContributionsUpTo(factors, n)
                 + [Contribution(name, Quantize(value), Quantize(Share(value, name)), factors[name].source, factors[name].state)]
  {
  }

  // ---------------------------------------------------------------- the arithmetic

  lemma {:induction false} WeightsAddUp(n: nat)
    requires n <= |FACTORS|
    ensures WeightSum(|FACTORS|) == 1.0
    ensures 0.0 <= WeightSum(n)
  {
    assert WeightSum(10) == WeightSum(9) + 0.02;
    assert WeightSum(8) == WeightSum(7) + 0.05;
    assert WeightSum(6) == WeightSum(5) + 0.15;
    assert WeightSum(4) == WeightSum(3) + 0.10;
    assert WeightSum(2) == WeightSum(1) + 0.15;
  }

  function WeightSum(n: nat): real
    requires n <= |FACTORS|
  {
    if n == 0 then 0.0 else WeightSum(n - 1) + Weight(FACTORS[n - 1])
  }

  lemma {:induction false} TotalWithin(factors: Factors, n: nat)
    requires n <= |FACTORS| && ValidFactors(factors)
    ensures 0.0 <= TotalUpTo(factors, n) <= WeightSum(n)
  {
    if n > 0 {
      TotalWithin(factors, n - 1);
      assert FACTORS[n - 1] in FACTORS;
      PartWithin(factors, FACTORS[n - 1]);
    }
  }

  lemma PartWithin(factors: Factors, name: Name)
    requires ValidFactors(factors) && name in FACTORS
    ensures 0.0 <= Part(factors, name) <= Weight(name)
  {
    assert ValidFactor(factors[name]);
    hide ExactNames, ValidFactors;
    assert 0.0 <= Value(factors, name) <= 1.0;
    ProductWithin(Value(factors, name), Weight(name));
  }

  lemma ProductWithin(value: real, weight: real)
    requires 0.0 <= value <= 1.0 && 0.0 <= weight
    ensures 0.0 <= value * weight <= weight
  {
    Scaled(0.0, value, weight);
    Scaled(value, 1.0, weight);
  }

  /** The score lies between 0 and 1. */
  lemma ScoreInRange(factors: Factors)
    requires ValidFactors(factors)
    ensures 0 <= Quantize(Total(factors)) <= 10000
  {
    TotalWithin(factors, |FACTORS|);
    WeightsAddUp(0);
  }

  /** Every factor of `b` is at least as good as in `a`, from the same sources. */
  ghost predicate AtMost(a: Factors, b: Factors) {
    forall name | name in FACTORS :: Value(a, name) <= Value(b, name)
  }

  lemma {:induction false} TotalMonotone(a: Factors, b: Factors, n: nat)
    requires n <= |FACTORS| && AtMost(a, b)
    ensures TotalUpTo(a, n) <= TotalUpTo(b, n)
  {
    if n > 0 {
      TotalMonotone(a, b, n - 1);
      var name := FACTORS[n - 1];
      assert name in FACTORS;
      Scaled(Value(a, name), Value(b, name), Weight(name));
    }
  }

  lemma Scaled(a: real, b: real, weight: real)
    requires a <= b && 0.0 <= weight
    ensures a * weight <= b * weight
  {
  }

  predicate Rank(a: Level, b: Level) { a == b || a.Low? || b.High? }

  /** Improving a factor never lowers the score, nor the level when sources and failures stay. */
  lemma ScoreIsMonotone(a: Factors, b: Factors, failures: seq<string>, pending: bool)
    requires AtMost(a, b)
    ensures Quantize(Total(a)) <= Quantize(Total(b))
    ensures Rank(LevelOf(Quantize(Total(a)), failures, pending), LevelOf(Quantize(Total(b)), failures, pending))
  {
    TotalMonotone(a, b, |FACTORS|);
  }

  function ShownSum(contributions: seq<Contribution>): int {
    if contributions == [] then 0 else ShownSum(contributions[..|contributions| - 1]) + contributions[|contributions| - 1].contribution
  }

  lemma {:induction false} ShownWithin(factors: Factors, n: nat)
    requires n <= |FACTORS| && ValidFactors(factors)
    ensures var gap := ShownSum(ContributionsUpTo(factors, n)) as real - TotalUpTo(factors, n) * 10000.0;
            -0.5 * n as real <= gap <= 0.5 * n as real
  {
    if n > 0 {
      ShownWithin(factors, n - 1);
      var all := ContributionsUpTo(factors, n);
      assert all[..n - 1] == ContributionsUpTo(factors, n - 1);
    }
  }

  /** The ten contributions as displayed add up to the displayed score within 0.0005. */
  lemma {:induction false} ContributionsAddUp(factors: Factors)
    requires ValidFactors(factors)
    ensures -5 <= ShownSum(ContributionsUpTo(factors, |FACTORS|)) - Quantize(Total(factors)) <= 5
  {
    ShownWithin(factors, |FACTORS|);
  }

  // ---------------------------------------------------------------- initial factors

  function Exactly(value: real, source: string, state: FactorState): FactorInput { FactorInput(Some(value), source, state) }

  const NOT_FRESH := "source_freshness:not_verified"

  function InitialFactor(name: Name, available: bool, source: string, statuses: seq<bool>): FactorInput {
    match name
    case SourceCompleteness => Exactly(if available then 1.0 else 0.0, source, if available then Verified else Failed)
    case Traceability => Exactly(if available then 1.0 else 0.0, source, if available then Verified else Failed)
    case InputCompleteness => Exactly(if available then 1.0 else 0.0, source, if available then Verified else Failed)
    case CalculationValidity =>
      if statuses == [] then Exactly(0.0, "calculation:none", NotApplicable)
      else if forall status | status in statuses :: status then Exactly(1.0, "calculation:approved_results", Verified)
      else Exactly(0.0, "calculation:approved_results", Failed)
    case TrackBAgreement => Exactly(0.0, "track_b:not_submitted", NotVerified)
    case SourceFreshness => Exactly(0.0, NOT_FRESH, NotVerified)
    case HumanReviewStatus => Exactly(0.0, PENDING, NotVerified)
    case _ => Exactly(1.0, source, Verified)
  }

  /** `statuses` says of each calculation whether it succeeded. */
  method InitialConfidenceFactors(available: bool, source: string, statuses: seq<bool>) returns (factors: Factors)
    ensures source == "" <==> factors == map[]
    ensures source != "" ==> factors.Keys == (set name | name in FACTORS)
    ensures source != "" ==> forall name | name in FACTORS :: factors[name] == InitialFactor(name, available, source, statuses)
    ensures source != "" ==> InitialTable(factors, available, source, statuses)
  {
    factors := map[];
    if source == "" { return; }
    for n := 0 to |FACTORS|
      invariant factors.Keys == (set i | 0 <= i < n :: FACTORS[i])
      invariant forall i | 0 <= i < n :: factors[FACTORS[i]] == InitialFactor(FACTORS[i], available, source, statuses)
    {
      factors := factors[FACTORS[n] := InitialFactor(FACTORS[n], available, source, statuses)];
    }
    assert FACTORS[0] in factors;
    InitialTabulated(factors, available, source, statuses);
  }

  /** Ten factors before coverage: three stand for the evidence, three are taken for granted, one judges
      the calculations, three are not verified yet. */
  ghost predicate InitialTable(factors: Factors, available: bool, source: string, statuses: seq<bool>) {
    && factors.Keys == {SourceCompleteness, Traceability, ParseQuality, HumanReviewStatus, RuleCoverage, InputCompleteness,
                        CalculationValidity, TrackBAgreement, SourceFreshness, UnresolvedConflict}
    && (forall name | name in {SourceCompleteness, Traceability, InputCompleteness} ::
          factors[name] == FactorInput(Some(if available then 1.0 else 0.0), source, if available then Verified else Failed))
    && (forall name | name in {ParseQuality, RuleCoverage, UnresolvedConflict} :: factors[name] == FactorInput(Some(1.0), source, Verified))
    && factors[CalculationValidity] ==
         (if statuses == [] then FactorInput(Some(0.0), "calculation:none", NotApplicable)
          else if false in statuses then FactorInput(Some(0.0), "calculation:approved_results", Failed)
          else FactorInput(Some(1.0), "calculation:approved_results", Verified))
    && factors[TrackBAgreement] == FactorInput(Some(0.0), "track_b:not_submitted", NotVerified)
    && factors[SourceFreshness] == FactorInput(Some(0.0), "source_freshness:not_verified", NotVerified)
    && factors[HumanReviewStatus] == FactorInput(Some(0.0), "human_review:pending", NotVerified)
  }

  lemma PolicyNames()
    ensures forall name :: name in FACTORS <==> !name.Unknown?
  {
    assert FACTORS[0] == SourceCompleteness && FACTORS[1] == Traceability && FACTORS[2] == ParseQuality
      && FACTORS[3] == HumanReviewStatus && FACTORS[4] == RuleCoverage && FACTORS[5] == InputCompleteness
      && FACTORS[6] == CalculationValidity && FACTORS[7] == TrackBAgreement && FACTORS[8] == SourceFreshness
      && FACTORS[9] == UnresolvedConflict;
  }

  lemma InitialTabulated(factors: Factors, available: bool, source: string, statuses: seq<bool>)
    requires factors.Keys == (set name | name in FACTORS)
    requires forall name | name in FACTORS :: factors[name] == InitialFactor(name, available, source, statuses)
    ensures InitialTable(factors, available, source, statuses)
  {
    PolicyNames();
    assert false in statuses <==> !forall status | status in statuses :: status;
  }
}
