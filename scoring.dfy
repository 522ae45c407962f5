/**
 * Risk scoring (convex/risk/scoring.ts): from a shipment's excursions to a risk band,
 * a 0..100 value and an ordered list of contributing factors.
 */
module Scoring {
  import opened Types

  /** The stored risk band (`score`: "low" | "medium" | "high"). */
  datatype RiskBand = LowRisk | MediumRisk | HighRisk

  /** The three fields of an excursion the score looks at. */
  datatype ExcursionForScoring = ExcursionForScoring(severity: Severity, durationMinutes: real, ruleViolated: string)

  /** A contributing factor; constructors are declared in the order the source pushes them. */
  datatype Factor = DurationFactor | RepeatedViolations | CriticalSeverity | HighSeverity | MultipleExcursions

  /** The stored name of a factor. */
  function FactorName(f: Factor): string {
    match f
    case DurationFactor => "duration"
    case RepeatedViolations => "repeated_violations"
    case CriticalSeverity => "critical_severity"
    case HighSeverity => "high_severity"
    case MultipleExcursions => "multiple_excursions"
  }

  datatype RiskResult = RiskResult(score: RiskBand, scoreValue: int, factors: seq<Factor>)

  predicate HasSeverity(es: seq<ExcursionForScoring>, s: Severity) {
    exists i :: 0 <= i < |es| && es[i].severity == s
  }

  /** Sum of the durations, added left to right. */
  function TotalDuration(es: seq<ExcursionForScoring>): real {
    if es == [] then 0.0 else TotalDuration(es[..|es| - 1]) + es[|es| - 1].durationMinutes
  }

  /** Number of excursions whose rule is `repeated_minor`. */
  function RepeatedCount(es: seq<ExcursionForScoring>): nat {
    if es == [] then 0
    else RepeatedCount(es[..|es| - 1]) + (if es[|es| - 1].ruleViolated == "repeated_minor" then 1 else 0)
  }

  function DurationThreshold(t: PolicyType): real {
    if t == Pharma then 15.0 else 30.0
  }

  function RepeatedThreshold(t: PolicyType): nat {
    if t == Pharma then 2 else 3
  }

  function MaxInt(x: int, y: int): int { if x >= y then x else y }
  function MinInt(x: int, y: int): int { if x <= y then x else y }

  /** The band of a value: high from 65, medium from 35, low below. */
  function BandOf(v: int): RiskBand {
    if v >= 65 then HighRisk else if v >= 35 then MediumRisk else LowRisk
  }

  /** The factor list built from five conditions, in push order. */
  function Pushed(c0: bool, c1: bool, c2: bool, c3: bool, c4: bool): seq<Factor> {
    var f0 := PushIf([], c0, DurationFactor);
    var f1 := PushIf(f0, c1, RepeatedViolations);
    var f2 := PushIf(f1, c2, CriticalSeverity);
    var f3 := PushIf(f2, c3, HighSeverity);
    PushIf(f3, c4, MultipleExcursions)
  }

  /** `if (c) factors.push(x)`. */
  function PushIf(f: seq<Factor>, c: bool, x: Factor): seq<Factor> {
    if c then f + [x] else f
  }

  /** The factor list, pushed in the fixed order of the source. */
  function Factors(es: seq<ExcursionForScoring>, t: PolicyType): seq<Factor> {
    Pushed(TotalDuration(es) > DurationThreshold(t) * 2.0, RepeatedCount(es) >= RepeatedThreshold(t),
      HasSeverity(es, Critical), HasSeverity(es, High), |es| > 1)
  }

  /** The source's sequence of assignments to `scoreValue`: three floors by max, then three capped additions. */
  function ScoreValue(es: seq<ExcursionForScoring>, t: PolicyType): int
    requires es != []
  {
    var v0 := 15;
    var v1 := if HasSeverity(es, Critical) then MaxInt(v0, 85) else v0;
    var v2 := if HasSeverity(es, High) then MaxInt(v1, 65) else v1;
    var v3 := if HasSeverity(es, Medium) then MaxInt(v2, 45) else v2;
    var v4 := if TotalDuration(es) > DurationThreshold(t) then MinInt(100, v3 + 20) else v3;
    var v5 := if RepeatedCount(es) > 0 then MinInt(100, v4 + 15) else v4;
    MinInt(100, v5 + (|es| - 1) * 10)
  }

  /** The score of a list of excursions; an empty list is low risk with value 10 and no factors. */
  function ComputeRiskScore(es: seq<ExcursionForScoring>, t: PolicyType): (r: RiskResult)
    ensures r.score == HighRisk <==> r.scoreValue >= 65
    ensures r.score == MediumRisk <==> 35 <= r.scoreValue < 65
    ensures r.score == LowRisk <==> r.scoreValue < 35
  {
    if es == [] then RiskResult(LowRisk, 10, [])
    else
      var v := ScoreValue(es, t);
      RiskResult(BandOf(v), v, Factors(es, t))
  }

  // ---------------------------------------------------------------------------
  // Properties
  // ---------------------------------------------------------------------------

  lemma ScoreEmpty(t: PolicyType)
    ensures ComputeRiskScore([], t) == RiskResult(LowRisk, 10, [])
  {
  }

  /** The severity floor: 85 for critical, else 65 for high, else 45 for medium, else the base 15. */
  function Floor(es: seq<ExcursionForScoring>): int {
    if HasSeverity(es, Critical) then 85
    else if HasSeverity(es, High) then 65
    else if HasSeverity(es, Medium) then 45
    else 15
  }

  /** Total bonus before capping: +20, +15 and +10 for each excursion beyond the first. */
  function Bonus(es: seq<ExcursionForScoring>, t: PolicyType): int
    requires es != []
  {
    (if TotalDuration(es) > DurationThreshold(t) then 20 else 0)
    + (if RepeatedCount(es) > 0 then 15 else 0)
    + (|es| - 1) * 10
  }

  /**
   * An independent form of the score: the highest applicable floor (floors combine by max,
   * not by addition) plus every bonus, capped once at 100.
   */
  lemma ScoreIsCappedSum(es: seq<ExcursionForScoring>, t: PolicyType)
    requires es != []
    ensures ScoreValue(es, t) == MinInt(100, Floor(es) + Bonus(es, t))
  {
  }

  /** A non-empty list scores between 15 and 100. */
  lemma ScoreBounds(es: seq<ExcursionForScoring>, t: PolicyType)
    requires es != []
    ensures 15 <= ComputeRiskScore(es, t).scoreValue <= 100
  {
    ScoreIsCappedSum(es, t);
  }

  /** Severity floors: critical gives at least 85 and high band, high at least 65 and high band, medium at least 45 and at least medium band. */
  lemma ScoreFloors(es: seq<ExcursionForScoring>, t: PolicyType)
    ensures HasSeverity(es, Critical) ==> ComputeRiskScore(es, t).scoreValue >= 85 && ComputeRiskScore(es, t).score == HighRisk
    ensures HasSeverity(es, High) ==> ComputeRiskScore(es, t).scoreValue >= 65 && ComputeRiskScore(es, t).score == HighRisk
    ensures HasSeverity(es, Medium) ==> ComputeRiskScore(es, t).scoreValue >= 45 && ComputeRiskScore(es, t).score != LowRisk
  {
    if es != [] {
      ScoreIsCappedSum(es, t);
    }
  }

  /** Position of a factor in the order the source pushes them. */
  function FactorRank(f: Factor): nat {
    match f
    case DurationFactor => 0
    case RepeatedViolations => 1
    case CriticalSeverity => 2
    case HighSeverity => 3
    case MultipleExcursions => 4
  }

  /** Each factor appears exactly when its condition holds; `duration` needs more than twice the threshold. */
  lemma FactorsExact(es: seq<ExcursionForScoring>, t: PolicyType)
    requires es != []
    ensures var f := ComputeRiskScore(es, t).factors;
      && (DurationFactor in f <==> TotalDuration(es) > DurationThreshold(t) * 2.0)
      && (RepeatedViolations in f <==> RepeatedCount(es) >= RepeatedThreshold(t))
      && (CriticalSeverity in f <==> HasSeverity(es, Critical))
      && (HighSeverity in f <==> HasSeverity(es, High))
      && (MultipleExcursions in f <==> |es| > 1)
  {
    FactorsMembers(Factors(es, t), TotalDuration(es) > DurationThreshold(t) * 2.0,
      RepeatedCount(es) >= RepeatedThreshold(t), HasSeverity(es, Critical), HasSeverity(es, High), |es| > 1);
  }

  lemma FactorsMembers(f: seq<Factor>, c0: bool, c1: bool, c2: bool, c3: bool, c4: bool)
    requires f == Pushed(c0, c1, c2, c3, c4)
    ensures (DurationFactor in f <==> c0) && (RepeatedViolations in f <==> c1)
      && (CriticalSeverity in f <==> c2) && (HighSeverity in f <==> c3) && (MultipleExcursions in f <==> c4)
  {
  }

  /** Ranks strictly increase along the list. */
  predicate Ranked(f: seq<Factor>) {
    forall i, j :: 0 <= i < j < |f| ==> FactorRank(f[i]) < FactorRank(f[j])
  }

  /** Pushing a factor ranked above everything before it keeps the list ranked. */
  lemma RankedPush(f: seq<Factor>, c: bool, x: Factor)
    requires Ranked(f)
    requires forall i :: 0 <= i < |f| ==> FactorRank(f[i]) < FactorRank(x)
    ensures Ranked(PushIf(f, c, x))
    ensures forall i :: 0 <= i < |PushIf(f, c, x)| ==> FactorRank(PushIf(f, c, x)[i]) <= FactorRank(x)
  {
  }

  /** The pushed factors follow the fixed order, each at most once. */
  lemma PushedOrdered(c0: bool, c1: bool, c2: bool, c3: bool, c4: bool)
    ensures var f := Pushed(c0, c1, c2, c3, c4);
      forall i, j :: 0 <= i < j < |f| ==> FactorRank(f[i]) < FactorRank(f[j])
  {
    var f0 := PushIf([], c0, DurationFactor);
    var f1 := PushIf(f0, c1, RepeatedViolations);
    var f2 := PushIf(f1, c2, CriticalSeverity);
    var f3 := PushIf(f2, c3, HighSeverity);
    RankedPush([], c0, DurationFactor);
    RankedPush(f0, c1, RepeatedViolations);
    RankedPush(f1, c2, CriticalSeverity);
    RankedPush(f2, c3, HighSeverity);
    RankedPush(f3, c4, MultipleExcursions);
    assert Ranked(Pushed(c0, c1, c2, c3, c4));
  }

  /** The factor list follows the order the source pushes them in, so no factor appears twice. */
  lemma FactorsOrdered(es: seq<ExcursionForScoring>, t: PolicyType)
    requires es != []
    ensures var f := ComputeRiskScore(es, t).factors;
      forall i, j :: 0 <= i < j < |f| ==> FactorRank(f[i]) < FactorRank(f[j])
  {
    PushedOrdered(TotalDuration(es) > DurationThreshold(t) * 2.0, RepeatedCount(es) >= RepeatedThreshold(t),
      HasSeverity(es, Critical), HasSeverity(es, High), |es| > 1);
  }

  lemma AppendTotals(es: seq<ExcursionForScoring>, e: ExcursionForScoring)
    ensures TotalDuration(es + [e]) == TotalDuration(es) + e.durationMinutes
    ensures RepeatedCount(es + [e]) >= RepeatedCount(es)
    ensures forall s :: HasSeverity(es, s) ==> HasSeverity(es + [e], s)
  {
    assert (es + [e])[..|es|] == es;
    forall s | HasSeverity(es, s) ensures HasSeverity(es + [e], s) {
      var i :| 0 <= i < |es| && es[i].severity == s;
      assert (es + [e])[i] == es[i];
    }
  }

  /**
   * Appending an excursion with a non-negative duration to a non-empty list never lowers the
   * score: every step of the computation is a max or a capped addition.
   */
  lemma ScoreMonotone(es: seq<ExcursionForScoring>, e: ExcursionForScoring, t: PolicyType)
    requires es != []
    requires e.durationMinutes >= 0.0
    ensures ComputeRiskScore(es + [e], t).scoreValue >= ComputeRiskScore(es, t).scoreValue
  {
    AppendTotals(es, e);
    ScoreIsCappedSum(es, t);
    ScoreIsCappedSum(es + [e], t);
    assert Floor(es + [e]) >= Floor(es);
    assert Bonus(es + [e], t) >= Bonus(es, t);
  }
}
