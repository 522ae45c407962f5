/**
 * Shared value types of the policy engine: policy rules, readings and violations
 * (lib/types.ts), plus the severity and policy-type enumerations of the schema.
 */
module Types {
  import opened Wrappers

  /** Severity grades, ordered low < medium < high < critical. */
  datatype Severity = Low | Medium | High | Critical

  /** The two kinds of policy. */
  datatype PolicyType = Food | Pharma

  /** Optional rule values of a policy; `None` is a field the policy does not set. */
  datatype PolicyRules = PolicyRules(
    minTempC: Option<real>,
    maxTempC: Option<real>,
    maxDurationMinutes: Option<real>,
    repeatedMinorCount: Option<real>,
    frozenMaxTempC: Option<real>)

  /** A policy that sets no rule at all (`{}`). */
  const NoRules := PolicyRules(None, None, None, None, None)

  /** One temperature reading: milliseconds since the epoch and degrees Celsius. */
  datatype Reading = Reading(timestamp: int, temperature: real)

  datatype ViolationKind = ThresholdHigh | ThresholdLow | Duration | RepeatedMinor

  /** The rule name the source stores for each kind of violation. */
  function KindName(k: ViolationKind): string {
    match k
    case ThresholdHigh => "threshold_high"
    case ThresholdLow => "threshold_low"
    case Duration => "duration"
    case RepeatedMinor => "repeated_minor"
  }

  /** A violation produced by the rule evaluator. */
  datatype Violation = Violation(
    kind: ViolationKind,
    severity: Severity,
    startTime: int,
    endTime: int,
    durationMinutes: real,
    ruleViolated: string,
    temperature: Option<real>)

  /** Elapsed minutes between two millisecond timestamps, as an exact quotient. */
  function Minutes(startMs: int, endMs: int): real {
    (endMs - startMs) as real / 60000.0
  }
}
