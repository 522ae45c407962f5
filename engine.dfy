/**
 * The policy engine (convex/policies/engine.ts): evaluation of a temperature series
 * against a food or pharma policy.
 *
 * The specification is built from the segmentation of the time-sorted series into
 * maximal runs of out-of-range readings (`ClosedRuns`, `AllRuns`); `EvaluatePolicy`
 * is the source's single pass with two loops, proved equal to `Evaluate`.
 */
module Engine {
  import opened Wrappers
  import opened Types
  import Sorting

  /** Food defaults: cold chain 2..8 C, 30 minutes, 3 spikes, frozen product at most -18 C. */
  const FoodDefaults := PolicyRules(Some(2.0), Some(8.0), Some(30.0), Some(3.0), Some(-18.0))

  /** Pharma defaults: 2..8 C, 15 minutes, 2 spikes, no frozen bound. */
  const PharmaDefaults := PolicyRules(Some(2.0), Some(8.0), Some(15.0), Some(2.0), None)

  /** A run of out-of-range readings no longer than this many minutes is a spike. */
  const SpikeMaxMinutes := 5.0

  /** The message of the TypeError the source throws when it reads `minorSpikes[0]` of an empty list. */
  const NoSpikeError := "TypeError: cannot read 'start' of undefined"

  function Defaults(t: PolicyType): PolicyRules {
    if t == Food then FoodDefaults else PharmaDefaults
  }

  /** Object spread: an explicit field wins over the default. */
  function Overlay(default: Option<real>, explicit: Option<real>): Option<real> {
    if explicit.Some? then explicit else default
  }

  /** The policy's rules laid over the type's defaults (`{...DEFAULTS, ...rules}`). */
  function GetRules(rules: PolicyRules, t: PolicyType): (r: PolicyRules)
    ensures r.minTempC.Some? && r.maxTempC.Some? && r.maxDurationMinutes.Some? && r.repeatedMinorCount.Some?
    ensures rules.minTempC.Some? ==> r.minTempC == rules.minTempC
    ensures rules.maxTempC.Some? ==> r.maxTempC == rules.maxTempC
    ensures rules.maxDurationMinutes.Some? ==> r.maxDurationMinutes == rules.maxDurationMinutes
    ensures rules.repeatedMinorCount.Some? ==> r.repeatedMinorCount == rules.repeatedMinorCount
    ensures rules.frozenMaxTempC.Some? ==> r.frozenMaxTempC == rules.frozenMaxTempC
    ensures rules.minTempC.None? ==> r.minTempC == Some(2.0)
    ensures rules.maxTempC.None? ==> r.maxTempC == Some(8.0)
    ensures rules.maxDurationMinutes.None? ==> r.maxDurationMinutes == Some(if t == Pharma then 15.0 else 30.0)
    ensures rules.repeatedMinorCount.None? ==> r.repeatedMinorCount == Some(if t == Pharma then 2.0 else 3.0)
    ensures rules.frozenMaxTempC.None? ==> r.frozenMaxTempC == (if t == Food then Some(-18.0) else None)
  {
    var d := Defaults(t);
    PolicyRules(
      Overlay(d.minTempC, rules.minTempC),
      Overlay(d.maxTempC, rules.maxTempC),
      Overlay(d.maxDurationMinutes, rules.maxDurationMinutes),
      Overlay(d.repeatedMinorCount, rules.repeatedMinorCount),
      Overlay(d.frozenMaxTempC, rules.frozenMaxTempC))
  }

  /** Effective bounds: no lower bound in frozen mode. */
  datatype Bounds = Bounds(min: Option<real>, max: real)

  /** Everything the two scans need, fixed before the first reading is looked at. */
  datatype Params = Params(bounds: Bounds, maxDuration: real, repeatedCount: real, policyType: PolicyType)

  /**
   * Effective parameters for a time-sorted series. Frozen mode applies when a frozen
   * bound is configured (always for food, through its default) and the earliest
   * reading is below 0 C: the upper bound becomes the frozen bound and there is no lower bound.
   */
  function EffectiveParams(sorted: seq<Reading>, rules: PolicyRules, t: PolicyType): (p: Params)
    ensures p.policyType == t
    ensures p.maxDuration == rules.maxDurationMinutes.GetOr(if t == Pharma then 15.0 else 30.0)
    ensures p.repeatedCount == rules.repeatedMinorCount.GetOr(if t == Pharma then 2.0 else 3.0)
    ensures p.bounds.min.None? <==>
      ((rules.frozenMaxTempC.Some? || t == Food) && |sorted| > 0 && sorted[0].temperature < 0.0)
    ensures p.bounds.min.None? ==> p.bounds.max == rules.frozenMaxTempC.GetOr(-18.0)
    ensures p.bounds.min.Some? ==>
      p.bounds == Bounds(Some(rules.minTempC.GetOr(2.0)), rules.maxTempC.GetOr(8.0))
  {
    var r := GetRules(rules, t);
    var minTemp := r.minTempC.GetOr(2.0);
    var maxTemp := r.maxTempC.GetOr(8.0);
    var maxDurationMin := r.maxDurationMinutes.GetOr(if t == Pharma then 15.0 else 30.0);
    var repeatedCount := r.repeatedMinorCount.GetOr(if t == Pharma then 2.0 else 3.0);
    var isFrozen := r.frozenMaxTempC.Some? && |sorted| > 0 && sorted[0].temperature < 0.0;
    var bounds := if isFrozen then Bounds(None, r.frozenMaxTempC.value) else Bounds(Some(minTemp), maxTemp);
    Params(bounds, maxDurationMin, repeatedCount, t)
  }

  predicate OverMax(r: Reading, b: Bounds) {
    r.temperature > b.max
  }

  predicate UnderMin(r: Reading, b: Bounds) {
    b.min.Some? && r.temperature < b.min.value
  }

  /** A reading is out of range when it is above the maximum or below a defined minimum. */
  predicate InViolation(r: Reading, b: Bounds) {
    OverMax(r, b) || UnderMin(r, b)
  }

  /** Severity of one reading, graded by how far it lies past the bound it violates. */
  function SeverityFromTemp(temp: real, min: Option<real>, max: real): (s: Severity)
    ensures s == Low <==> !(temp > max || (min.Some? && temp < min.value))
    ensures temp > max ==> (s == Critical <==> temp - max >= 5.0)
    ensures temp > max ==> (s == High <==> 3.0 <= temp - max < 5.0) && (s == Medium <==> temp - max < 3.0)
    ensures temp <= max && min.Some? && temp < min.value ==> (s == Critical <==> min.value - temp >= 5.0)
    ensures temp <= max && min.Some? && temp < min.value ==>
      (s == High <==> 2.0 <= min.value - temp < 5.0) && (s == Medium <==> min.value - temp < 2.0)
  {
    if temp > max then
      if temp - max >= 5.0 then Critical
      else if temp - max >= 3.0 then High
      else Medium
    else if min.Some? && temp < min.value then
      if min.value - temp >= 5.0 then Critical
      else if min.value - temp >= 2.0 then High
      else Medium
    else Low
  }

  function SeverityRank(s: Severity): (n: nat)
    ensures n <= 3
  {
    match s
    case Low => 0
    case Medium => 1
    case High => 2
    case Critical => 3
  }

  /** The rank order is the declared order low < medium < high < critical, and it is strict. */
  lemma SeverityRankStrict(s: Severity, u: Severity)
    ensures SeverityRank(s) == SeverityRank(u) <==> s == u
    ensures SeverityRank(Low) < SeverityRank(Medium) < SeverityRank(High) < SeverityRank(Critical)
  {
  }

  /** Above the maximum, a hotter reading is never graded less severe. */
  lemma SeverityMonotoneAbove(t1: real, t2: real, min: Option<real>, max: real)
    requires max < t1 <= t2
    ensures SeverityRank(SeverityFromTemp(t1, min, max)) <= SeverityRank(SeverityFromTemp(t2, min, max))
  {
  }

  /** Below a minimum (and not above the maximum), a colder reading is never graded less severe. */
  lemma SeverityMonotoneBelow(t1: real, t2: real, min: real, max: real)
    requires t2 <= t1 < min && t1 <= max
    ensures SeverityRank(SeverityFromTemp(t1, Some(min), max)) <= SeverityRank(SeverityFromTemp(t2, Some(min), max))
  {
  }

  function Severity(r: Reading, b: Bounds): Severity {
    SeverityFromTemp(r.temperature, b.min, b.max)
  }

  function TimeOf(r: Reading): int {
    r.timestamp
  }

  /** The sorted copy the evaluator works on (`[...readings].sort(by timestamp)`). */
  function SortByTime(readings: seq<Reading>): (s: seq<Reading>)
    ensures |s| == |readings|
  {
    Sorting.SortBy(readings, TimeOf)
  }

  ghost predicate TimeSorted(s: seq<Reading>) {
    forall i, j :: 0 <= i < j < |s| ==> s[i].timestamp <= s[j].timestamp
  }

  lemma SortByTimeFacts(readings: seq<Reading>)
    ensures TimeSorted(SortByTime(readings))
    ensures multiset(SortByTime(readings)) == multiset(readings)
    ensures TimeSorted(readings) ==> SortByTime(readings) == readings
  {
    Sorting.SortBySorted(readings, TimeOf);
    Sorting.SortByPermutes(readings, TimeOf);
    if TimeSorted(readings) {
      Sorting.SortByOfSorted(readings, TimeOf);
    }
  }

  // ---------------------------------------------------------------------------
  // Segmentation into maximal out-of-range runs
  // ---------------------------------------------------------------------------

  /**
   * A run of out-of-range readings `s[lo..hi]`. For a closed run `s[hi]` is the
   * in-range reading that closed it; a run still open at the end has `hi == |s|`.
   */
  datatype Run = Run(lo: nat, hi: nat)

  /** A maximal run: every reading in it is out of range, and so is neither neighbour it has. */
  ghost predicate MaximalRun(s: seq<Reading>, b: Bounds, run: Run) {
    && run.lo < run.hi <= |s|
    && (forall k :: run.lo <= k < run.hi ==> InViolation(s[k], b))
    && (run.lo == 0 || !InViolation(s[run.lo - 1], b))
    && (run.hi == |s| || !InViolation(s[run.hi], b))
  }

  /** Closed maximal runs, each ending before index `n`, in increasing order and apart. */
  ghost predicate ClosedRunsWithin(s: seq<Reading>, b: Bounds, runs: seq<Run>, n: nat) {
    && (forall k :: 0 <= k < |runs| ==> MaximalRun(s, b, runs[k]) && runs[k].hi < n)
    && (forall k1, k2 :: 0 <= k1 < k2 < |runs| ==> runs[k1].hi < runs[k2].lo)
  }

  /** The reading just before index `j` is out of range: is a run open after `j` readings? */
  predicate OpenAt(s: seq<Reading>, b: Bounds, j: nat)
    requires j <= |s|
  {
    j > 0 && InViolation(s[j - 1], b)
  }

  /** Start of the out-of-range run that contains reading `j - 1`. */
  function RunStart(s: seq<Reading>, b: Bounds, j: nat): (i: nat)
    requires 0 < j <= |s| && InViolation(s[j - 1], b)
    ensures i < j
    ensures forall k :: i <= k < j ==> InViolation(s[k], b)
    ensures i == 0 || !InViolation(s[i - 1], b)
    decreases j
  {
    if j == 1 || !InViolation(s[j - 2], b) then j - 1 else RunStart(s, b, j - 1)
  }

  /** The runs that an in-range reading among the first `n` readings has closed. */
  function ClosedRuns(s: seq<Reading>, b: Bounds, n: nat): (runs: seq<Run>)
    requires n <= |s|
    ensures forall k :: 0 <= k < |runs| ==> runs[k].lo < runs[k].hi < n
    decreases n
  {
    if n == 0 then []
    else
      var prev := ClosedRuns(s, b, n - 1);
      if n >= 2 && !InViolation(s[n - 1], b) && InViolation(s[n - 2], b) then
        prev + [Run(RunStart(s, b, n - 1), n - 1)]
      else prev
  }

  /** The closed runs are maximal, end before `n`, and come in increasing order without overlap. */
  lemma {:induction false} ClosedRunsShape(s: seq<Reading>, b: Bounds, n: nat)
    requires n <= |s|
    ensures ClosedRunsWithin(s, b, ClosedRuns(s, b, n), n)
  {
    if n > 0 {
      ClosedRunsShape(s, b, n - 1);
      if n >= 2 && !InViolation(s[n - 1], b) && InViolation(s[n - 2], b) {
        ClosedRunsAppend(s, b, ClosedRuns(s, b, n - 1), n);
      }
    }
  }

  /** Every closed run found before index `j` ends before the run open at `j` starts. */
  lemma ClosedRunsBefore(s: seq<Reading>, b: Bounds, runs: seq<Run>, j: nat)
    requires 0 < j <= |s| && InViolation(s[j - 1], b)
    requires ClosedRunsWithin(s, b, runs, j)
    ensures forall k :: 0 <= k < |runs| ==> runs[k].hi < RunStart(s, b, j)
  {
    var i := RunStart(s, b, j);
    forall k | 0 <= k < |runs| ensures runs[k].hi < i {
      var h := runs[k].hi;
      assert !InViolation(s[h], b);
    }
  }

  /** The run an in-range reading closes is maximal and comes after every earlier closed run. */
  lemma ClosedRunsAppend(s: seq<Reading>, b: Bounds, runs: seq<Run>, n: nat)
    requires 2 <= n <= |s| && !InViolation(s[n - 1], b) && InViolation(s[n - 2], b)
    requires ClosedRunsWithin(s, b, runs, n - 1)
    ensures ClosedRunsWithin(s, b, runs + [Run(RunStart(s, b, n - 1), n - 1)], n)
  {
    var run := Run(RunStart(s, b, n - 1), n - 1);
    var r := runs + [run];
    ClosedRunsBefore(s, b, runs, n - 1);
    assert MaximalRun(s, b, run);
    forall k | 0 <= k < |r| ensures MaximalRun(s, b, r[k]) && r[k].hi < n {
      if k < |runs| {
        assert r[k] == runs[k];
      }
    }
    forall k1, k2 | 0 <= k1 < k2 < |r| ensures r[k1].hi < r[k2].lo {
      assert r[k1] == runs[k1];
    }
  }

  /**
   * One more reading: a run is open after it exactly when it is out of range; an out-of-range
   * reading extends the open run or starts one; an in-range reading closes the open run.
   */
  lemma RunStep(s: seq<Reading>, b: Bounds, i: nat)
    requires i < |s|
    ensures OpenAt(s, b, i + 1) <==> InViolation(s[i], b)
    ensures InViolation(s[i], b) ==> RunStart(s, b, i + 1) == if OpenAt(s, b, i) then RunStart(s, b, i) else i
    ensures ClosedRuns(s, b, i + 1) ==
      if OpenAt(s, b, i) && !InViolation(s[i], b) then ClosedRuns(s, b, i) + [Run(RunStart(s, b, i), i)]
      else ClosedRuns(s, b, i)
  {
  }

  /** An out-of-range reading after an in-range one (or first) opens a run of its own. */
  lemma RunOpens(s: seq<Reading>, b: Bounds, i: nat)
    requires i < |s| && !OpenAt(s, b, i) && InViolation(s[i], b)
    ensures OpenAt(s, b, i + 1) && RunStart(s, b, i + 1) == i
    ensures ClosedRuns(s, b, i + 1) == ClosedRuns(s, b, i)
  {
  }

  /** An out-of-range reading inside an open run extends it. */
  lemma RunExtends(s: seq<Reading>, b: Bounds, i: nat)
    requires i < |s| && OpenAt(s, b, i) && InViolation(s[i], b)
    ensures OpenAt(s, b, i + 1) && RunStart(s, b, i + 1) == RunStart(s, b, i)
    ensures ClosedRuns(s, b, i + 1) == ClosedRuns(s, b, i)
  {
  }

  /** An in-range reading closes the open run. */
  lemma RunCloses(s: seq<Reading>, b: Bounds, i: nat)
    requires i < |s| && OpenAt(s, b, i) && !InViolation(s[i], b)
    ensures !OpenAt(s, b, i + 1)
    ensures ClosedRuns(s, b, i + 1) == ClosedRuns(s, b, i) + [Run(RunStart(s, b, i), i)]
  {
  }

  /** An in-range reading with no run open changes nothing. */
  lemma RunStaysClosed(s: seq<Reading>, b: Bounds, i: nat)
    requires i < |s| && !OpenAt(s, b, i) && !InViolation(s[i], b)
    ensures !OpenAt(s, b, i + 1)
    ensures ClosedRuns(s, b, i + 1) == ClosedRuns(s, b, i)
  {
  }

  /** The open run after all readings, if the series ends out of range. */
  function OpenRun(s: seq<Reading>, b: Bounds): seq<Run>
  {
    if OpenAt(s, b, |s|) then [Run(RunStart(s, b, |s|), |s|)] else []
  }

  /** All maximal runs of the series in order: the closed ones, then one still open at the end. */
  function AllRuns(s: seq<Reading>, b: Bounds): seq<Run>
  {
    ClosedRuns(s, b, |s|) + OpenRun(s, b)
  }

  // ---------------------------------------------------------------------------
  // Per-run quantities
  // ---------------------------------------------------------------------------

  function Max(x: real, y: real): real { if x >= y then x else y }
  function Min(x: real, y: real): real { if x <= y then x else y }

  /**
   * The run's reported temperature: the first reading's, then per reading the larger
   * value if that reading is above the maximum and the smaller one otherwise.
   */
  function Peak(s: seq<Reading>, b: Bounds, lo: nat, hi: nat): real
    requires lo < hi <= |s|
    decreases hi
  {
    if hi == lo + 1 then s[lo].temperature
    else
      var prev := Peak(s, b, lo, hi - 1);
      if OverMax(s[hi - 1], b) then Max(prev, s[hi - 1].temperature)
      else Min(prev, s[hi - 1].temperature)
  }

  /** The highest-ranked per-reading severity of `s[lo..hi]`; the earliest one on ties. */
  function Worst(s: seq<Reading>, b: Bounds, lo: nat, hi: nat): Severity
    requires lo < hi <= |s|
    decreases hi
  {
    if hi == lo + 1 then Severity(s[lo], b)
    else
      var prev := Worst(s, b, lo, hi - 1);
      var x := Severity(s[hi - 1], b);
      if SeverityRank(x) > SeverityRank(prev) then x else prev
  }

  /** The run's severity ranks at least as high as every reading's, and some reading has it. */
  lemma {:induction false} WorstSpec(s: seq<Reading>, b: Bounds, lo: nat, hi: nat)
    requires lo < hi <= |s|
    ensures forall k :: lo <= k < hi ==> SeverityRank(Severity(s[k], b)) <= SeverityRank(Worst(s, b, lo, hi))
    ensures exists k :: lo <= k < hi && Worst(s, b, lo, hi) == Severity(s[k], b)
    decreases hi
  {
    if hi > lo + 1 {
      WorstSpec(s, b, lo, hi - 1);
      var j :| lo <= j < hi - 1 && Worst(s, b, lo, hi - 1) == Severity(s[j], b);
      if SeverityRank(Severity(s[hi - 1], b)) > SeverityRank(Worst(s, b, lo, hi - 1)) {
        assert Worst(s, b, lo, hi) == Severity(s[hi - 1], b);
      } else {
        assert Worst(s, b, lo, hi) == Severity(s[j], b);
      }
    } else {
      assert Worst(s, b, lo, hi) == Severity(s[lo], b);
    }
  }

  /** Severity of a run reclassified as a duration violation. */
  function DurationSeverity(t: PolicyType): Severity {
    if t == Pharma then High else Medium
  }

  /** The end time of a run: the closing reading's timestamp, or the last reading's if still open. */
  function RunEnd(s: seq<Reading>, run: Run): int
    requires run.lo < run.hi <= |s|
  {
    if run.hi < |s| then s[run.hi].timestamp else s[|s| - 1].timestamp
  }

  /** The violation reported for one run. */
  function RunViolation(s: seq<Reading>, p: Params, run: Run): (v: Violation)
    requires run.lo < run.hi <= |s|
    ensures v.startTime == s[run.lo].timestamp && v.endTime == RunEnd(s, run)
    ensures v.durationMinutes == Minutes(v.startTime, v.endTime)
    ensures v.kind == Duration <==> v.durationMinutes > p.maxDuration
    ensures v.kind == Duration ==> v.severity == DurationSeverity(p.policyType)
    ensures v.kind != Duration ==> v.severity == Worst(s, p.bounds, run.lo, run.hi)
    ensures v.kind != RepeatedMinor && v.ruleViolated == KindName(v.kind)
    ensures v.kind == ThresholdHigh <==> v.kind != Duration && Peak(s, p.bounds, run.lo, run.hi) > p.bounds.max
    ensures v.temperature == Some(Peak(s, p.bounds, run.lo, run.hi))
  {
    var start := s[run.lo].timestamp;
    var end := RunEnd(s, run);
    var durationMinutes := Minutes(start, end);
    var wasHigh := Peak(s, p.bounds, run.lo, run.hi) > p.bounds.max;
    var kind := if durationMinutes > p.maxDuration then Duration else if wasHigh then ThresholdHigh else ThresholdLow;
    var severity := if durationMinutes > p.maxDuration then DurationSeverity(p.policyType) else Worst(s, p.bounds, run.lo, run.hi);
    Violation(kind, severity, start, end, durationMinutes, KindName(kind), Some(Peak(s, p.bounds, run.lo, run.hi)))
  }

  ghost predicate RunsInside(s: seq<Reading>, runs: seq<Run>) {
    forall k :: 0 <= k < |runs| ==> runs[k].lo < runs[k].hi <= |s|
  }

  /** One violation per run, in the runs' order. */
  function RunViolations(s: seq<Reading>, p: Params, runs: seq<Run>): (vs: seq<Violation>)
    requires RunsInside(s, runs)
    ensures |vs| == |runs|
  {
    seq(|runs|, k requires 0 <= k < |runs| => RunViolation(s, p, runs[k]))
  }

  /** The threshold and duration violations of a sorted series (first loop of the source). */
  function ThresholdViolations(s: seq<Reading>, p: Params): seq<Violation>
  {
    RunViolations(s, p, AllRuns(s, p.bounds))
  }

  // ---------------------------------------------------------------------------
  // Repeated minor violations
  // ---------------------------------------------------------------------------

  datatype Spike = Spike(start: int, end: int)

  /** The closed runs lasting at most five minutes, as start/end intervals, in order. */
  function Spikes(s: seq<Reading>, runs: seq<Run>): (sp: seq<Spike>)
    requires forall k :: 0 <= k < |runs| ==> runs[k].lo < runs[k].hi < |s|
    ensures |sp| <= |runs|
  {
    if runs == [] then []
    else
      var last := runs[|runs| - 1];
      var prev := Spikes(s, runs[..|runs| - 1]);
      if Minutes(s[last.lo].timestamp, s[last.hi].timestamp) <= SpikeMaxMinutes
      then prev + [Spike(s[last.lo].timestamp, s[last.hi].timestamp)]
      else prev
  }

  /** The one `repeated_minor` violation, if there are at least as many spikes as the policy allows. */
  function RepeatedMinorViolation(spikes: seq<Spike>, p: Params): Result<seq<Violation>, string>
  {
    if |spikes| as real >= p.repeatedCount then
      if |spikes| == 0 then Err(NoSpikeError)
      else
        var first := spikes[0];
        var last := spikes[|spikes| - 1];
        Ok([Violation(RepeatedMinor, if p.policyType == Pharma then Medium else Low,
                      first.start, last.end, Minutes(first.start, last.end), KindName(RepeatedMinor), None)])
    else Ok([])
  }

  /** All spikes of a sorted series. */
  function SeriesSpikes(s: seq<Reading>, b: Bounds): seq<Spike>
  {
    Spikes(s, ClosedRuns(s, b, |s|))
  }

  /** The evaluator's result: threshold/duration violations in run order, then at most one repeated-minor violation. */
  function Evaluate(readings: seq<Reading>, rules: PolicyRules, t: PolicyType): Result<seq<Violation>, string>
  {
    var s := SortByTime(readings);
    var p := EffectiveParams(s, rules, t);
    var tail := RepeatedMinorViolation(SeriesSpikes(s, p.bounds), p);
    if tail.Err? then Err(tail.error) else Ok(ThresholdViolations(s, p) + tail.value)
  }

  // ---------------------------------------------------------------------------
  // The evaluator itself
  // ---------------------------------------------------------------------------

  lemma RunViolationsAppend(s: seq<Reading>, p: Params, runs: seq<Run>, run: Run)
    requires RunsInside(s, runs) && run.lo < run.hi <= |s|
    ensures RunsInside(s, runs + [run])
    ensures RunViolations(s, p, runs + [run]) == RunViolations(s, p, runs) + [RunViolation(s, p, run)]
  {
    var a := RunViolations(s, p, runs + [run]);
    var c := RunViolations(s, p, runs) + [RunViolation(s, p, run)];
    forall k | 0 <= k < |a| ensures a[k] == c[k] {
      if k < |runs| {
        assert (runs + [run])[k] == runs[k];
      }
    }
  }

  lemma SpikesAppend(s: seq<Reading>, runs: seq<Run>, run: Run)
    requires forall k :: 0 <= k < |runs| ==> runs[k].lo < runs[k].hi < |s|
    requires run.lo < run.hi < |s|
    ensures Spikes(s, runs + [run]) ==
      Spikes(s, runs) + (if Minutes(s[run.lo].timestamp, s[run.hi].timestamp) <= SpikeMaxMinutes
                         then [Spike(s[run.lo].timestamp, s[run.hi].timestamp)] else [])
  {
    assert (runs + [run])[..|runs|] == runs;
  }

  /** One more reading: the spikes grow only when an in-range reading closes a short run. */
  lemma SpikesStep(s: seq<Reading>, b: Bounds, i: nat)
    requires i < |s|
    ensures Spikes(s, ClosedRuns(s, b, i + 1)) ==
      if OpenAt(s, b, i) && !InViolation(s[i], b) then
        var start := s[RunStart(s, b, i)].timestamp;
        Spikes(s, ClosedRuns(s, b, i))
        + (if Minutes(start, s[i].timestamp) <= SpikeMaxMinutes then [Spike(start, s[i].timestamp)] else [])
      else Spikes(s, ClosedRuns(s, b, i))
  {
    RunStep(s, b, i);
    if OpenAt(s, b, i) && !InViolation(s[i], b) {
      SpikesAppend(s, ClosedRuns(s, b, i), Run(RunStart(s, b, i), i));
    }
  }

  /**
   * An out-of-range reading inside an open run (source lines 71-75): the tracked peak and
   * worst severity take it into account.
   */
  method ExtendRun(ghost s: seq<Reading>, b: Bounds, ghost lo: nat, ghost i: nat, r: Reading,
                   peak: Option<real>, maxSeverity: Severity) returns (peak': Option<real>, maxSeverity': Severity)
    requires lo < i < |s| && r == s[i] && InViolation(r, b)
    requires peak == Some(Peak(s, b, lo, i)) && maxSeverity == Worst(s, b, lo, i)
    ensures peak' == Some(Peak(s, b, lo, i + 1)) && maxSeverity' == Worst(s, b, lo, i + 1)
  {
    var overMax := r.temperature > b.max;
    peak' :=
      if peak.Some?
      then Some(if overMax then Max(peak.value, r.temperature) else Min(peak.value, r.temperature))
      else Some(r.temperature);
    maxSeverity' := maxSeverity;
    var sev := SeverityFromTemp(r.temperature, b.min, b.max);
    if SeverityRank(sev) > SeverityRank(maxSeverity) {
      maxSeverity' := sev;
    }
  }

  /**
   * Closing a run at an in-range reading (source lines 77-94): the violation built from the
   * tracked start, peak and worst severity is the run's violation.
   */
  method CloseAtReading(ghost s: seq<Reading>, p: Params, ghost run: Run, start: int, endTime: int,
                        peak: Option<real>, maxSeverity: Severity) returns (v: Violation)
    requires run.lo < run.hi < |s|
    requires start == s[run.lo].timestamp && endTime == s[run.hi].timestamp
    requires peak == Some(Peak(s, p.bounds, run.lo, run.hi)) && maxSeverity == Worst(s, p.bounds, run.lo, run.hi)
    ensures v == RunViolation(s, p, run)
  {
    var durationMinutes := Minutes(start, endTime);
    var wasHigh := peak.GetOr(0.0) > p.bounds.max;
    var ruleViolated := if durationMinutes > p.maxDuration then "duration" else if wasHigh then "threshold_high" else "threshold_low";
    var severity := if durationMinutes > p.maxDuration then DurationSeverity(p.policyType) else maxSeverity;
    var kind := if ruleViolated == "duration" then Duration else if wasHigh then ThresholdHigh else ThresholdLow;
    v := Violation(kind, severity, start, endTime, durationMinutes, ruleViolated, peak);
  }

  /**
   * Closing a run still open after the last reading (source lines 98-109): it ends at the
   * last reading's timestamp.
   */
  method CloseAtEnd(ghost s: seq<Reading>, p: Params, ghost run: Run, start: int, last: Reading,
                    peak: Option<real>, maxSeverity: Severity) returns (v: Violation)
    requires run.lo < run.hi == |s| && last == s[|s| - 1]
    requires start == s[run.lo].timestamp
    requires peak == Some(Peak(s, p.bounds, run.lo, run.hi)) && maxSeverity == Worst(s, p.bounds, run.lo, run.hi)
    ensures v == RunViolation(s, p, run)
  {
    var durationMinutes := Minutes(start, last.timestamp);
    var overMax := peak.GetOr(0.0) > p.bounds.max;
    v := Violation(
      if durationMinutes > p.maxDuration then Duration else if overMax then ThresholdHigh else ThresholdLow,
      if durationMinutes > p.maxDuration then DurationSeverity(p.policyType) else maxSeverity,
      start,
      last.timestamp,
      durationMinutes,
      if durationMinutes > p.maxDuration then "duration" else if overMax then "threshold_high" else "threshold_low",
      peak);
  }

  /**
   * First scan of the source (lines 55-109): walks the sorted readings once, opens a run
   * at the first out-of-range reading, tracks its peak temperature and worst severity,
   * and closes it into a violation at the next in-range reading or at the end.
   */
  method ScanThresholds(sorted: seq<Reading>, p: Params) returns (violations: seq<Violation>)
    ensures violations == ThresholdViolations(sorted, p)
  {
    var effectiveMin, effectiveMax := p.bounds.min, p.bounds.max;
    ghost var b := p.bounds;
    violations := [];
    var excursionStart: Option<int> := None;
    var excursionMaxSeverity := Low;
    var excursionPeakTemp: Option<real> := None;
    var i := 0;
    while i < |sorted|
      invariant 0 <= i <= |sorted|
      invariant excursionStart.Some? <==> OpenAt(sorted, b, i)
      invariant OpenAt(sorted, b, i) ==>
        var lo := RunStart(sorted, b, i);
        && excursionStart == Some(sorted[lo].timestamp)
        && excursionPeakTemp == Some(Peak(sorted, b, lo, i))
        && excursionMaxSeverity == Worst(sorted, b, lo, i)
      invariant violations == RunViolations(sorted, p, ClosedRuns(sorted, b, i))
    {
      var r := sorted[i];
      var overMax := r.temperature > effectiveMax;
      var underMin := effectiveMin.Some? && r.temperature < effectiveMin.value;
      var inViolation := overMax || underMin;
      assert inViolation == InViolation(r, b);
      if inViolation {
        if excursionStart.None? {
          RunOpens(sorted, b, i);
          excursionStart := Some(r.timestamp);
          excursionPeakTemp := Some(r.temperature);
          excursionMaxSeverity := SeverityFromTemp(r.temperature, effectiveMin, effectiveMax);
        } else {
          RunExtends(sorted, b, i);
          excursionPeakTemp, excursionMaxSeverity :=
            ExtendRun(sorted, p.bounds, RunStart(sorted, b, i), i, r, excursionPeakTemp, excursionMaxSeverity);
        }
      } else if excursionStart.Some? {
        RunCloses(sorted, b, i);
        ghost var run := Run(RunStart(sorted, b, i), i);
        var v := CloseAtReading(sorted, p, run, excursionStart.value, r.timestamp, excursionPeakTemp, excursionMaxSeverity);
        RunViolationsAppend(sorted, p, ClosedRuns(sorted, b, i), run);
        violations := violations + [v];
        excursionStart := None;
        excursionPeakTemp := None;
      } else {
        RunStaysClosed(sorted, b, i);
      }
      i := i + 1;
    }
    if excursionStart.Some? && |sorted| > 0 {
      ghost var run := Run(RunStart(sorted, b, i), i);
      var v := CloseAtEnd(sorted, p, run, excursionStart.value, sorted[|sorted| - 1], excursionPeakTemp, excursionMaxSeverity);
      RunViolationsAppend(sorted, p, ClosedRuns(sorted, b, i), run);
      violations := violations + [v];
    }
  }

  /**
   * Second scan of the source (lines 111-128): the same runs, but only those closed by an
   * in-range reading and lasting at most five minutes are collected, as start/end pairs.
   */
  method ScanSpikes(sorted: seq<Reading>, b: Bounds) returns (minorSpikes: seq<Spike>)
    ensures minorSpikes == SeriesSpikes(sorted, b)
  {
    minorSpikes := [];
    var spikeStart: Option<int> := None;
    var i := 0;
    while i < |sorted|
      invariant 0 <= i <= |sorted|
      invariant spikeStart.Some? <==> OpenAt(sorted, b, i)
      invariant OpenAt(sorted, b, i) ==> spikeStart == Some(sorted[RunStart(sorted, b, i)].timestamp)
      invariant minorSpikes == Spikes(sorted, ClosedRuns(sorted, b, i))
    {
      var r := sorted[i];
      var overMax := r.temperature > b.max;
      var underMin := b.min.Some? && r.temperature < b.min.value;
      RunStep(sorted, b, i);
      SpikesStep(sorted, b, i);
      assert InViolation(r, b) == (overMax || underMin);
      if overMax || underMin {
        if spikeStart.None? {
          spikeStart := Some(r.timestamp);
        }
      } else if spikeStart.Some? {
        var durationMin := Minutes(spikeStart.value, r.timestamp);
        if durationMin <= SpikeMaxMinutes {
          minorSpikes := minorSpikes + [Spike(spikeStart.value, r.timestamp)];
        }
        spikeStart := None;
      }
      i := i + 1;
    }
  }

  /**
   * The source's `evaluatePolicy`: sort a copy of the readings by timestamp, fix the
   * effective parameters, run both scans and append at most one repeated-minor violation.
   * The input sequence is a value, so the caller's readings are never reordered.
   */
  method EvaluatePolicy(readings: seq<Reading>, policyRules: PolicyRules, policyType: PolicyType)
    returns (result: Result<seq<Violation>, string>)
    ensures result == Evaluate(readings, policyRules, policyType)
  {
    var sorted := SortByTime(readings);
    var p := EffectiveParams(sorted, policyRules, policyType);
    var violations := ScanThresholds(sorted, p);
    var minorSpikes := ScanSpikes(sorted, p.bounds);
    ghost var tail := RepeatedMinorViolation(minorSpikes, p);
    ghost var thresholds := violations;
    if |minorSpikes| as real >= p.repeatedCount {
      if |minorSpikes| == 0 {
        return Err(NoSpikeError);
      }
      var first := minorSpikes[0];
      var last := minorSpikes[|minorSpikes| - 1];
      violations := violations + [Violation(
        RepeatedMinor,
        if policyType == Pharma then Medium else Low,
        first.start,
        last.end,
        Minutes(first.start, last.end),
        "repeated_minor",
        None)];
      assert tail == Ok([violations[|violations| - 1]]);
    } else {
      assert tail == Ok([]);
    }
    assert violations == thresholds + tail.value;
    return Ok(violations);
  }

  // ---------------------------------------------------------------------------
  // Properties of the evaluator
  // ---------------------------------------------------------------------------

  /** The repeated-minor threshold the evaluator uses: the policy's value or the type default. */
  function RepeatedCount(rules: PolicyRules, t: PolicyType): real {
    rules.repeatedMinorCount.GetOr(if t == Pharma then 2.0 else 3.0)
  }

  /**
   * An empty series has no violations when the repeated-minor count is positive; with a
   * count of zero or less the source reads the first element of an empty spike list and throws.
   */
  lemma EvaluateEmpty(rules: PolicyRules, t: PolicyType)
    ensures Evaluate([], rules, t) == if RepeatedCount(rules, t) > 0.0 then Ok([]) else Err(NoSpikeError)
  {
    var p := EffectiveParams([], rules, t);
    assert ClosedRuns([], p.bounds, 0) == [];
    assert AllRuns([], p.bounds) == [];
  }

  lemma {:induction false} InRangeNoClosedRuns(s: seq<Reading>, b: Bounds, n: nat)
    requires n <= |s|
    requires forall k :: 0 <= k < |s| ==> !InViolation(s[k], b)
    ensures ClosedRuns(s, b, n) == []
  {
    if n > 0 {
      InRangeNoClosedRuns(s, b, n - 1);
    }
  }

  /**
   * If every reading lies within the effective bounds, there is no threshold, duration or
   * repeated-minor violation (given a positive repeated-minor count; otherwise the source throws).
   */
  lemma EvaluateAllInRange(readings: seq<Reading>, rules: PolicyRules, t: PolicyType)
    requires forall r :: r in readings ==> !InViolation(r, EffectiveParams(SortByTime(readings), rules, t).bounds)
    ensures Evaluate(readings, rules, t) == if RepeatedCount(rules, t) > 0.0 then Ok([]) else Err(NoSpikeError)
  {
    var s := SortByTime(readings);
    var b := EffectiveParams(s, rules, t).bounds;
    SortByTimeFacts(readings);
    forall k | 0 <= k < |s| ensures !InViolation(s[k], b) {
      assert s[k] in multiset(s);
    }
    InRangeNoClosedRuns(s, b, |s|);
    assert !OpenAt(s, b, |s|);
    assert AllRuns(s, b) == [];
    NoRunsEvaluate(readings, rules, t);
  }

  /** A series without any out-of-range run: only the repeated-minor check can fail. */
  lemma NoRunsEvaluate(readings: seq<Reading>, rules: PolicyRules, t: PolicyType)
    requires var s := SortByTime(readings); AllRuns(s, EffectiveParams(s, rules, t).bounds) == []
    ensures Evaluate(readings, rules, t) == if RepeatedCount(rules, t) > 0.0 then Ok([]) else Err(NoSpikeError)
  {
    var s := SortByTime(readings);
    var p := EffectiveParams(s, rules, t);
    assert ClosedRuns(s, p.bounds, |s|) == [];
    assert ThresholdViolations(s, p) == [];
    assert SeriesSpikes(s, p.bounds) == [];
  }

  /** Some run of `runs` contains index `k`. */
  ghost predicate Covered(runs: seq<Run>, k: nat) {
    exists j :: 0 <= j < |runs| && runs[j].lo <= k < runs[j].hi
  }

  lemma CoveredAppend(runs: seq<Run>, run: Run, k: nat)
    requires Covered(runs, k) || run.lo <= k < run.hi
    ensures Covered(runs + [run], k)
  {
    if Covered(runs, k) {
      var j :| 0 <= j < |runs| && runs[j].lo <= k < runs[j].hi;
      assert (runs + [run])[j] == runs[j];
    } else {
      assert (runs + [run])[|runs|] == run;
    }
  }

  /** An out-of-range reading among the first `n` lies in a closed run or in the run still open. */
  lemma {:induction false} RunsCover(s: seq<Reading>, b: Bounds, n: nat, k: nat)
    requires k < n <= |s| && InViolation(s[k], b)
    ensures Covered(ClosedRuns(s, b, n), k) || (OpenAt(s, b, n) && RunStart(s, b, n) <= k)
  {
    var i := n - 1;
    var prev := ClosedRuns(s, b, i);
    if k < i {
      RunsCover(s, b, i, k);
    }
    if InViolation(s[i], b) {
      if OpenAt(s, b, i) {
        RunExtends(s, b, i);
      } else {
        RunOpens(s, b, i);
      }
    } else if OpenAt(s, b, i) {
      RunCloses(s, b, i);
      CoveredAppend(prev, Run(RunStart(s, b, i), i), k);
    } else {
      RunStaysClosed(s, b, i);
    }
  }



  lemma AllRunsCover(s: seq<Reading>, b: Bounds, k: nat)
    requires k < |s| && InViolation(s[k], b)
    ensures Covered(AllRuns(s, b), k)
  {
    var closed := ClosedRuns(s, b, |s|);
    RunsCover(s, b, |s|, k);
    if OpenAt(s, b, |s|) {
      CoveredAppend(closed, Run(RunStart(s, b, |s|), |s|), k);
    } else {
      assert AllRuns(s, b) == closed;
    }
  }

  /**
   * The runs are exactly the maximal out-of-range stretches of the series: each is maximal,
   * they come in increasing order without overlap, and every out-of-range reading lies in one.
   */
  lemma AllRunsExact(s: seq<Reading>, b: Bounds)
    ensures forall k :: 0 <= k < |AllRuns(s, b)| ==> MaximalRun(s, b, AllRuns(s, b)[k])
    ensures forall k1, k2 :: 0 <= k1 < k2 < |AllRuns(s, b)| ==> AllRuns(s, b)[k1].hi < AllRuns(s, b)[k2].lo
    ensures forall k :: 0 <= k < |s| && InViolation(s[k], b) ==> Covered(AllRuns(s, b), k)
  {
    var closed := ClosedRuns(s, b, |s|);
    var runs := AllRuns(s, b);
    ClosedRunsShape(s, b, |s|);
    assert runs[..|closed|] == closed;
    if OpenAt(s, b, |s|) {
      ClosedRunsBefore(s, b, closed, |s|);
    }
    forall k | 0 <= k < |s| && InViolation(s[k], b) ensures Covered(runs, k) {
      AllRunsCover(s, b, k);
    }
  }

  /**
   * Over a time-sorted series, every threshold or duration violation starts no later than it
   * ends, and each one ends no later than the next one starts.
   */
  lemma ThresholdViolationsOrdered(s: seq<Reading>, p: Params)
    requires TimeSorted(s)
    ensures forall k :: 0 <= k < |ThresholdViolations(s, p)| ==>
      ThresholdViolations(s, p)[k].startTime <= ThresholdViolations(s, p)[k].endTime
    ensures forall k1, k2 :: 0 <= k1 < k2 < |ThresholdViolations(s, p)| ==>
      ThresholdViolations(s, p)[k1].endTime <= ThresholdViolations(s, p)[k2].startTime
  {
    var runs := AllRuns(s, p.bounds);
    var vs := ThresholdViolations(s, p);
    AllRunsExact(s, p.bounds);
    forall k | 0 <= k < |vs| ensures vs[k].startTime <= vs[k].endTime {
      assert vs[k] == RunViolation(s, p, runs[k]);
    }
    forall k1, k2 | 0 <= k1 < k2 < |vs| ensures vs[k1].endTime <= vs[k2].startTime {
      assert vs[k1] == RunViolation(s, p, runs[k1]);
      assert vs[k2] == RunViolation(s, p, runs[k2]);
      assert runs[k1].hi < runs[k2].lo;
    }
  }

  /**
   * Classification of each run: `duration` exactly when it lasts longer than the limit (with the
   * type's fixed severity); otherwise a threshold kind with the worst per-reading severity,
   * which is never `low`; the rule name always matches the kind.
   */
  lemma ThresholdViolationsClassified(s: seq<Reading>, p: Params)
    ensures forall k :: 0 <= k < |ThresholdViolations(s, p)| ==>
      var v := ThresholdViolations(s, p)[k];
      && v.ruleViolated == KindName(v.kind)
      && (v.kind == Duration <==> v.durationMinutes > p.maxDuration)
      && (v.kind == Duration ==> v.severity == DurationSeverity(p.policyType))
      && (v.kind != Duration ==> v.kind in {ThresholdHigh, ThresholdLow})
      && v.severity != Low
      && v.temperature.Some?
  {
    var runs := AllRuns(s, p.bounds);
    var vs := ThresholdViolations(s, p);
    AllRunsExact(s, p.bounds);
    forall k | 0 <= k < |vs| ensures vs[k].severity != Low {
      var run := runs[k];
      assert vs[k] == RunViolation(s, p, run);
      var w := Worst(s, p.bounds, run.lo, run.hi);
      WorstSpec(s, p.bounds, run.lo, run.hi);
      var j :| run.lo <= j < run.hi && w == Severity(s[j], p.bounds);
      assert InViolation(s[j], p.bounds);
    }
  }

  /** In a run entirely above the maximum, the reported temperature is the run's highest reading. */
  lemma {:induction false} PeakOfHighRun(s: seq<Reading>, b: Bounds, lo: nat, hi: nat)
    requires lo < hi <= |s|
    requires forall k :: lo <= k < hi ==> OverMax(s[k], b)
    ensures forall k :: lo <= k < hi ==> s[k].temperature <= Peak(s, b, lo, hi)
    ensures exists k :: lo <= k < hi && s[k].temperature == Peak(s, b, lo, hi)
    decreases hi
  {
    if hi > lo + 1 {
      PeakOfHighRun(s, b, lo, hi - 1);
      var j :| lo <= j < hi - 1 && s[j].temperature == Peak(s, b, lo, hi - 1);
      if Peak(s, b, lo, hi) != s[hi - 1].temperature {
        assert s[j].temperature == Peak(s, b, lo, hi);
      } else {
        assert s[hi - 1].temperature == Peak(s, b, lo, hi);
      }
    } else {
      assert s[lo].temperature == Peak(s, b, lo, hi);
    }
  }

  /** In a run with no reading above the maximum, the reported temperature is the run's lowest reading. */
  lemma {:induction false} PeakOfLowRun(s: seq<Reading>, b: Bounds, lo: nat, hi: nat)
    requires lo < hi <= |s|
    requires forall k :: lo <= k < hi ==> !OverMax(s[k], b)
    ensures forall k :: lo <= k < hi ==> Peak(s, b, lo, hi) <= s[k].temperature
    ensures exists k :: lo <= k < hi && s[k].temperature == Peak(s, b, lo, hi)
    decreases hi
  {
    if hi > lo + 1 {
      PeakOfLowRun(s, b, lo, hi - 1);
      var j :| lo <= j < hi - 1 && s[j].temperature == Peak(s, b, lo, hi - 1);
      if Peak(s, b, lo, hi) != s[hi - 1].temperature {
        assert s[j].temperature == Peak(s, b, lo, hi);
      } else {
        assert s[hi - 1].temperature == Peak(s, b, lo, hi);
      }
    } else {
      assert s[lo].temperature == Peak(s, b, lo, hi);
    }
  }

  /** A short run entirely above the maximum is a `threshold_high` violation reporting its highest reading. */
  lemma HighRunViolation(s: seq<Reading>, p: Params, run: Run)
    requires run.lo < run.hi <= |s|
    requires forall k :: run.lo <= k < run.hi ==> OverMax(s[k], p.bounds)
    ensures RunViolation(s, p, run).kind in {ThresholdHigh, Duration}
    ensures forall k :: run.lo <= k < run.hi ==> s[k].temperature <= RunViolation(s, p, run).temperature.value
    ensures RunViolation(s, p, run).temperature.value in set k | run.lo <= k < run.hi :: s[k].temperature
  {
    PeakOfHighRun(s, p.bounds, run.lo, run.hi);
  }

  /** A run with no reading above the maximum is a `threshold_low` (or `duration`) violation reporting its lowest reading. */
  lemma LowRunViolation(s: seq<Reading>, p: Params, run: Run)
    requires run.lo < run.hi <= |s|
    requires forall k :: run.lo <= k < run.hi ==> !OverMax(s[k], p.bounds)
    ensures RunViolation(s, p, run).kind in {ThresholdLow, Duration}
    ensures forall k :: run.lo <= k < run.hi ==> RunViolation(s, p, run).temperature.value <= s[k].temperature
    ensures RunViolation(s, p, run).temperature.value in set k | run.lo <= k < run.hi :: s[k].temperature
  {
    PeakOfLowRun(s, p.bounds, run.lo, run.hi);
  }

  /**
   * The result's tail: the evaluator throws exactly when the repeated-minor count is not positive
   * and there is no spike; otherwise at most one `repeated_minor` violation appears, always last,
   * exactly when the spikes reach the count, spanning the first spike's start to the last spike's end.
   */
  lemma EvaluateRepeatedMinor(readings: seq<Reading>, rules: PolicyRules, t: PolicyType)
    ensures
      var s := SortByTime(readings);
      var p := EffectiveParams(s, rules, t);
      var sp := SeriesSpikes(s, p.bounds);
      var r := Evaluate(readings, rules, t);
      && (r.Err? <==> |sp| == 0 && RepeatedCount(rules, t) <= 0.0)
      && (r.Ok? ==>
            && (forall k :: 0 <= k < |r.value| && r.value[k].kind == RepeatedMinor ==> k == |r.value| - 1)
            && ((|r.value| > 0 && r.value[|r.value| - 1].kind == RepeatedMinor) <==> |sp| as real >= RepeatedCount(rules, t))
            && (|sp| as real >= RepeatedCount(rules, t) ==>
                  r.value[|r.value| - 1] == Violation(RepeatedMinor, if t == Pharma then Medium else Low,
                                                      sp[0].start, sp[|sp| - 1].end,
                                                      Minutes(sp[0].start, sp[|sp| - 1].end), "repeated_minor", None)))
  {
    var s := SortByTime(readings);
    var p := EffectiveParams(s, rules, t);
    var tv := ThresholdViolations(s, p);
    forall k | 0 <= k < |tv| ensures tv[k].kind != RepeatedMinor {
      assert tv[k] == RunViolation(s, p, AllRuns(s, p.bounds)[k]);
    }
  }

  const ScenarioReadings := [Reading(0, 4.0), Reading(3600000, 12.0), Reading(5400000, 12.0), Reading(7200000, 4.0)]

  lemma ScenarioRuns()
    ensures AllRuns(ScenarioReadings, Bounds(Some(2.0), 8.0)) == [Run(1, 3)]
    ensures SeriesSpikes(ScenarioReadings, Bounds(Some(2.0), 8.0)) == []
  {
    var rs, b := ScenarioReadings, Bounds(Some(2.0), 8.0);
    assert !InViolation(rs[0], b) && InViolation(rs[1], b) && InViolation(rs[2], b) && !InViolation(rs[3], b);
    assert ClosedRuns(rs, b, 1) == [];
    assert ClosedRuns(rs, b, 2) == [];
    assert ClosedRuns(rs, b, 3) == [];
    assert RunStart(rs, b, 2) == 1;
    assert RunStart(rs, b, 3) == 1;
    assert ClosedRuns(rs, b, 4) == [Run(1, 3)];
    assert OpenRun(rs, b) == [];
    assert Spikes(rs, []) == [];
  }

  lemma ScenarioViolation()
    ensures SortByTime(ScenarioReadings) == ScenarioReadings
    ensures EffectiveParams(ScenarioReadings, NoRules, Food).bounds == Bounds(Some(2.0), 8.0)
    ensures RunViolation(ScenarioReadings, EffectiveParams(ScenarioReadings, NoRules, Food), Run(1, 3))
         == Violation(Duration, Medium, 3600000, 7200000, 60.0, "duration", Some(12.0))
  {
    assert TimeSorted(ScenarioReadings);
    SortByTimeFacts(ScenarioReadings);
    assert Peak(ScenarioReadings, Bounds(Some(2.0), 8.0), 1, 3) == 12.0;
  }

  /**
   * Worked scenario: readings at 0, 60, 90 and 120 minutes of 4, 12, 12 and 4 C under the food
   * defaults give one `duration` violation of 60 minutes, severity medium, peak 12 C.
   */
  lemma FoodDurationScenario()
    ensures Evaluate(ScenarioReadings, NoRules, Food)
         == Ok([Violation(Duration, Medium, 3600000, 7200000, 60.0, "duration", Some(12.0))])
  {
    ScenarioViolation();
    ScenarioRuns();
    var p := EffectiveParams(ScenarioReadings, NoRules, Food);
    var tv := ThresholdViolations(ScenarioReadings, p);
    assert |tv| == 1 && tv[0] == RunViolation(ScenarioReadings, p, Run(1, 3));
    assert p.repeatedCount == 3.0;
    assert RepeatedMinorViolation(SeriesSpikes(ScenarioReadings, p.bounds), p) == Ok([]);
    assert tv + [] == [Violation(Duration, Medium, 3600000, 7200000, 60.0, "duration", Some(12.0))];
  }
}
